/**
  What holds in every reachable state of the player: back-pressure, packet
  ownership, wake-ups and locks, the audio clock, A/V sync, and the frames each
  stream delivers.
  */
module PlayerSafety {
  import opened Options
  import opened PlayerModel
  import opened PlayerInvariant
  import opened PlayerTime

  lemma {:induction false} RunKeepsInv(cfg: Config, s: State, acts: seq<Action>)
    requires Inv(cfg, s) && Legal(cfg, s, acts)
    ensures Inv(cfg, Exec(cfg, s, acts))
    decreases |acts|
  {
    if acts != [] {
      Step(cfg, s, acts[0]);
      RunKeepsInv(cfg, Do(cfg, s, acts[0]), acts[1..]);
    }
  }

  lemma InitThreads(cfg: Config, events: nat)
    ensures ThreadsInv(cfg, Init(events))
  {
  }

  lemma InitPlaces(events: nat)
    ensures PlacesInv(Init(events))
  {
  }

  lemma NoFramesNoSound(cfg: Config)
    ensures cfg.Sound([]) == 0
  {
  }

  lemma InitTime(cfg: Config, events: nat)
    ensures TimeInv(cfg, Init(events))
  {
    NoFramesNoSound(cfg);
  }

  lemma InitInv(cfg: Config, events: nat)
    ensures Inv(cfg, Init(events))
  {
    InitThreads(cfg, events);
    InitPlaces(events);
    InitTime(cfg, events);
  }

  lemma ReachableInv(cfg: Config, s: State)
    requires Reachable(cfg, s)
    ensures Inv(cfg, s)
  {
    var events: nat, acts :| Legal(cfg, Init(events), acts) && s == Exec(cfg, Init(events), acts);
    InitInv(cfg, events);
    RunKeepsInv(cfg, Init(events), acts);
  }

  lemma ReachableLane(cfg: Config, s: State, k: Kind)
    requires Reachable(cfg, s)
    ensures LaneInv(cfg.Decoding(k), s.quit, s.Get(k)) && SharedInv(s, k) && FlowInv(s, k)
  {
    ReachableInv(cfg, s);
  }

  lemma {:induction false} ExecAppend(cfg: Config, s: State, acts: seq<Action>, act: Action)
    requires Legal(cfg, s, acts) && Enabled(cfg, Exec(cfg, s, acts), act)
    ensures Legal(cfg, s, acts + [act]) && Exec(cfg, s, acts + [act]) == Do(cfg, Exec(cfg, s, acts), act)
    decreases |acts|
  {
    if acts == [] {
      assert Legal(cfg, Do(cfg, s, act), []);
    } else {
      ExecAppend(cfg, Do(cfg, s, acts[0]), acts[1..], act);
      assert (acts + [act])[1..] == acts[1..] + [act];
    }
  }

  lemma ReachableStep(cfg: Config, s: State, act: Action)
    requires Reachable(cfg, s) && Enabled(cfg, s, act)
    ensures Reachable(cfg, Do(cfg, s, act))
  {
    var events: nat, acts :| Legal(cfg, Init(events), acts) && s == Exec(cfg, Init(events), acts);
    ExecAppend(cfg, Init(events), acts, act);
  }

  // ---------------------------------------------------------------- back-pressure

  /** The size check and the push are separate critical sections, and still no queue outgrows its bound. */
  lemma Backpressure(cfg: Config, s: State)
    requires Reachable(cfg, s)
    ensures |s.a.queue| <= 200 && |s.v.queue| <= 200
    ensures |s.a.queue| + |s.v.queue| <= 399
  {
    ReachableInv(cfg, s);
  }

  // ---------------------------------------------------------------- packet ownership

  /** The packets somebody still has to free. */
  function Alive(s: State): seq<Packet> {
    Held(s.reader) + s.a.queue + s.v.queue + Hand(s.a) + Hand(s.v)
  }

  /** The arguments of all calls of av_packet_free on demuxed packets. */
  function Freed(s: State): seq<Packet> {
    s.a.freed + s.v.freed + s.dropped
  }

  lemma {:induction false} StreamsPartition(ps: seq<Packet>)
    ensures multiset(Of(ps, Some(Audio))) + multiset(Of(ps, Some(Video))) + multiset(Of(ps, None)) == multiset(ps)
  {
    if ps != [] {
      var init, last := ps[..|ps| - 1], ps[|ps| - 1];
      StreamsPartition(init);
      assert ps == init + [last];
      KindsSplit(last);
      assert multiset(ps) == multiset(init) + multiset([last]);
      MultisetAppend(init, last, Some(Audio));
      MultisetAppend(init, last, Some(Video));
      MultisetAppend(init, last, None);
    }
  }

  function Single(p: Packet, kind: Option<Kind>): seq<Packet> {
    if p.kind == kind then [p] else []
  }

  lemma MultisetAppend(ps: seq<Packet>, p: Packet, kind: Option<Kind>)
    ensures multiset(Of(ps + [p], kind)) == multiset(Of(ps, kind)) + multiset(Single(p, kind))
  {
    OfAppend(ps, p, kind);
  }

  lemma KindsSplit(p: Packet)
    ensures multiset(Single(p, Some(Audio))) + multiset(Single(p, Some(Video))) + multiset(Single(p, None))
            == multiset([p])
  {
    match p.kind
    case None =>
    case Some(Audio) =>
    case Some(Video) =>
  }

  lemma {:induction false} DistinctOnce(ps: seq<Packet>, i: nat)
    requires i < |ps| && forall j :: 0 <= j < |ps| ==> ps[j].id == j
    ensures multiset(ps)[ps[i]] == 1
  {
    assert ps == ps[..i] + [ps[i]] + ps[i + 1..];
    assert ps[i] !in ps[..i] && ps[i] !in ps[i + 1..];
  }

  lemma HeldIsHand(r: ReaderPc)
    ensures multiset(Held(r)) == multiset(ReaderHand(r, Some(Audio))) + multiset(ReaderHand(r, Some(Video)))
                                 + multiset(ReaderHand(r, None))
  {
    if Held(r) != [] {
      KindsSplit(Held(r)[0]);
    }
  }

  lemma FlowBalance(cfg: Config, s: State, k: Kind)
    requires Reachable(cfg, s)
    ensures s.Get(k).freed + Hand(s.Get(k)) + s.Get(k).queue + ReaderHand(s.reader, Some(k)) == Of(s.demuxed, Some(k))
    ensures multiset(s.Get(k).freed) + multiset(Hand(s.Get(k))) + multiset(s.Get(k).queue)
      + multiset(ReaderHand(s.reader, Some(k))) == multiset(Of(s.demuxed, Some(k)))
  {
    ReachableLane(cfg, s, k);
    var l, r := s.Get(k), ReaderHand(s.reader, Some(k));
    assert multiset(l.freed + Hand(l) + l.queue + r) == multiset(Of(s.demuxed, Some(k)));
  }

  lemma DroppedBalance(cfg: Config, s: State)
    requires Reachable(cfg, s)
    ensures s.dropped + ReaderHand(s.reader, None) == Of(s.demuxed, None)
    ensures forall i :: 0 <= i < |s.demuxed| ==> s.demuxed[i].id == i
  {
    ReachableInv(cfg, s);
  }

  lemma PlacesBalance(cfg: Config, s: State)
    requires Reachable(cfg, s)
    ensures multiset(Alive(s)) + multiset(Freed(s)) == multiset(s.demuxed)
  {
    FlowBalance(cfg, s, Audio);
    FlowBalance(cfg, s, Video);
    DroppedBalance(cfg, s);
    HeldIsHand(s.reader);
    StreamsPartition(s.demuxed);
    assert multiset(s.dropped + ReaderHand(s.reader, None)) == multiset(Of(s.demuxed, None));
  }

  /**
    Every demuxed packet is in exactly one place at any time: still alive in one hand or queue, or freed once. Nothing
    else is ever freed, and no packet in use has been freed.
    */
  lemma PacketsConserved(cfg: Config, s: State)
    requires Reachable(cfg, s)
    ensures forall p :: p in s.demuxed ==> multiset(Alive(s))[p] + multiset(Freed(s))[p] == 1
    ensures forall p :: p in Alive(s) || p in Freed(s) ==> p in s.demuxed
    ensures forall p :: p in Alive(s) ==> p !in Freed(s)
  {
    PlacesBalance(cfg, s);
    DroppedBalance(cfg, s);
    var all := multiset(Alive(s)) + multiset(Freed(s));
    forall p | p in s.demuxed
      ensures all[p] == 1
    {
      var i :| 0 <= i < |s.demuxed| && s.demuxed[i] == p;
      DistinctOnce(s.demuxed, i);
    }
    forall p | p in Alive(s) || p in Freed(s)
      ensures p in s.demuxed
    {
      assert p in multiset(Alive(s)) || p in multiset(Freed(s));
      assert p in all;
      assert p in multiset(s.demuxed);
    }
    forall p | p in Alive(s)
      ensures p !in Freed(s)
    {
      assert p in multiset(Alive(s));
      assert all[p] == 1;
    }
  }

  /** Each stream keeps demux order from the file to the free call, whatever the interleaving. */
  lemma StreamOrder(cfg: Config, s: State, k: Kind)
    requires Reachable(cfg, s)
    ensures s.Get(k).freed + Hand(s.Get(k)) + s.Get(k).queue + ReaderHand(s.reader, Some(k)) == Of(s.demuxed, Some(k))
  {
    FlowBalance(cfg, s, k);
  }

  lemma JoinedThreads(cfg: Config, s: State)
    requires Reachable(cfg, s) && s.main.MDone?
    ensures s.quit && s.reader.RDone? && s.a.pc.Done? && s.v.pc.Done?
  {
    ReachableInv(cfg, s);
  }

  lemma JoinedHands(s: State)
    requires s.reader.RDone? && s.a.pc.Done? && s.v.pc.Done?
    ensures Alive(s) == s.a.queue + s.v.queue
    ensures Hand(s.a) == Hand(s.v) == [] && forall kind :: ReaderHand(s.reader, kind) == []
  {
  }

  /** After the joins the packets not freed are exactly the leftovers of the two queues, at most 399. */
  lemma LeftoversAfterJoins(cfg: Config, s: State)
    requires Reachable(cfg, s) && s.main.MDone?
    ensures Alive(s) == s.a.queue + s.v.queue && |Alive(s)| <= 399
    ensures multiset(Freed(s)) == multiset(s.demuxed) - multiset(s.a.queue + s.v.queue)
  {
    JoinedThreads(cfg, s);
    JoinedHands(s);
    Backpressure(cfg, s);
    PlacesBalance(cfg, s);
    assert multiset(Freed(s)) == multiset(Alive(s)) + multiset(Freed(s)) - multiset(Alive(s));
  }

  /** What a finished player leaves in a queue is the tail of that stream; everything before it was freed in order. */
  lemma LeftoversAreTheTail(cfg: Config, s: State, k: Kind)
    requires Reachable(cfg, s) && s.main.MDone?
    ensures s.Get(k).freed + s.Get(k).queue == Of(s.demuxed, Some(k))
  {
    JoinedThreads(cfg, s);
    JoinedHands(s);
    FlowBalance(cfg, s, k);
  }

  // ---------------------------------------------------------------- wake-ups and locks

  /** A consumer sleeping on a non-empty queue is one the reader is just about to wake; no consumer pops an empty queue. */
  lemma NoLostPush(cfg: Config, s: State, k: Kind)
    requires Reachable(cfg, s)
    ensures s.Get(k).pc.Asleep? && s.Get(k).queue != [] ==> s.reader == RNotify(k) && s.Get(k).owner.ByReader?
    ensures !s.Get(k).pc.Faulted?
    ensures s.Get(k).pc.Decide? && s.Get(k).queue == [] ==> s.quit
  {
    ReachableLane(cfg, s, k);
  }

  predicate ConsumerWaits(l: Lane) {
    (l.pc.Lock? || l.pc.Woken?) && !l.owner.Free?
  }

  predicate ReaderCanStep(s: State) {
    ReaderCan(s, Quiet) || ReaderCan(s, Eof)
  }

  /** A consumer holds its mutex and is not held up itself. */
  predicate HolderCanStep(cfg: Config, k: Kind, l: Lane) {
    l.owner.ByConsumer? && ConsumerCan(cfg, k, l, Quiet)
  }

  /**
    No lock deadlock: the mutex the reader waits for is held by its consumer, which can step; the mutex a consumer waits for
    is held by the reader, which can step or waits for the mutex of the other consumer, which can.
    */
  lemma LockChain(cfg: Config, s: State)
    requires Reachable(cfg, s)
    ensures s.reader.RLockAudio? && !s.a.owner.Free? ==> HolderCanStep(cfg, Audio, s.a)
    ensures s.reader.RLockVideo? && !s.v.owner.Free? ==> HolderCanStep(cfg, Video, s.v)
    ensures s.reader.RLock? && !s.Get(s.reader.k).owner.Free? ==> HolderCanStep(cfg, s.reader.k, s.Get(s.reader.k))
    ensures forall k :: ConsumerWaits(s.Get(k)) ==>
              && s.Get(k).owner.ByReader?
              && (ReaderCanStep(s) || (k.Audio? && s.reader.RLockVideo? && HolderCanStep(cfg, Video, s.v)))
  {
    ReachableLane(cfg, s, Audio);
    ReachableLane(cfg, s, Video);
  }

  // ---------------------------------------------------------------- the audio clock

  /** While only others act, a thread at work stays where it is. */
  lemma {:induction false} VideoUntouched(cfg: Config, s: State, acts: seq<Action>)
    requires Legal(cfg, s, acts) && s.v.pc.Working?
    requires forall i :: 0 <= i < |acts| ==> !(acts[i].Consumer? && acts[i].k.Video?)
    ensures Exec(cfg, s, acts).v.pc == s.v.pc
    decreases |acts|
  {
    if acts != [] {
      assert Do(cfg, s, acts[0]).v.pc == s.v.pc;
      VideoUntouched(cfg, Do(cfg, s, acts[0]), acts[1..]);
    }
  }

  /** The byte value get_audio_clock computes in state t, when the video thread has sampled the device queue in state s. */
  function ClockValue(s: State, t: State): int {
    t.written - s.queued
  }

  /**
    get_audio_clock reads the device queue and the byte counter at different instants. Whatever the other threads and the
    device do in between, its value is not below the bytes played and refused at the first instant minus the chunk then in
    flight, not above the bytes played then, those taken in between and those ever refused, and exactly the bytes played
    and refused when nothing is in flight or offered meanwhile. Bytes that SDL_QueueAudio refuses are counted as written;
    the clock tells the bytes played, within the bounds of one read, as long as there are none.
    */
  lemma ClockReadBounds(cfg: Config, s: State, acts: seq<Action>)
    requires Reachable(cfg, s) && s.v.pc.Working? && s.v.pc.work.SampleQueue?
    requires Legal(cfg, Do(cfg, s, Consumer(Video, Quiet)), acts)
    requires forall i :: 0 <= i < |acts| ==> !(acts[i].Consumer? && acts[i].k.Video?)
    ensures
      var t := Exec(cfg, Do(cfg, s, Consumer(Video, Quiet)), acts);
      var clock := ClockValue(s, t);
      && Enabled(cfg, t, Consumer(Video, Quiet))
      && var pc := Do(cfg, t, Consumer(Video, Quiet)).v.pc;
      && pc.Working? && pc.work.Compare? && pc.work.clock == clock
      && InFlight(s.a) <= 192000 && s.refused <= t.refused
      && s.played + s.refused - InFlight(s.a) <= clock
      && clock <= s.played + (t.Offered().taken - s.Offered().taken) + t.refused
      && (InFlight(s.a) == 0 && t.Offered() == s.Offered() ==> clock == s.played + s.refused)
  {
    SampleThenRun(cfg, s, acts);
    var t := Exec(cfg, Do(cfg, s, Consumer(Video, Quiet)), acts);
    var sample := Sample(s.queued, s.Offered(), InFlight(s.a));
    ReadWrittenStep(cfg, t, sample);
    ReadBounds(cfg, t, sample);
  }

  lemma SampleThenRun(cfg: Config, s: State, acts: seq<Action>)
    requires Reachable(cfg, s) && s.v.pc.Working? && s.v.pc.work.SampleQueue?
    requires Legal(cfg, Do(cfg, s, Consumer(Video, Quiet)), acts)
    requires forall i :: 0 <= i < |acts| ==> !(acts[i].Consumer? && acts[i].k.Video?)
    ensures InFlight(s.a) <= AUDIO_BUF_BYTES
    ensures
      var t := Exec(cfg, Do(cfg, s, Consumer(Video, Quiet)), acts);
      && ClockInv(cfg, t)
      && t.v.pc == Working(s.v.pc.p, s.v.pc.f, ReadWritten(Sample(s.queued, s.Offered(), InFlight(s.a))))
  {
    ReachableInv(cfg, s);
    AudioInFlight(cfg, s);
    SampleTaken(cfg, s);
    RunKeepsInv(cfg, Do(cfg, s, Consumer(Video, Quiet)), acts);
    VideoUntouched(cfg, Do(cfg, s, Consumer(Video, Quiet)), acts);
  }

  /** Undisturbed, the clock is the bytes played and refused: those played, exactly as long as none has been refused. */
  lemma QuietReadExact(cfg: Config, s: State, acts: seq<Action>)
    requires Reachable(cfg, s) && s.v.pc.Working? && s.v.pc.work.SampleQueue?
    requires Legal(cfg, Do(cfg, s, Consumer(Video, Quiet)), acts)
    requires forall i :: 0 <= i < |acts| ==> !(acts[i].Consumer? && acts[i].k.Video?)
    requires InFlight(s.a) == 0 && Exec(cfg, Do(cfg, s, Consumer(Video, Quiet)), acts).Offered() == s.Offered()
    ensures
      var clock := ClockValue(s, Exec(cfg, Do(cfg, s, Consumer(Video, Quiet)), acts));
      clock == s.played + s.refused && (clock == s.played <==> s.refused == 0)
  {
    ClockReadBounds(cfg, s, acts);
  }

  lemma SampleTaken(cfg: Config, s: State)
    requires Inv(cfg, s) && s.v.pc.Working? && s.v.pc.work.SampleQueue?
    ensures
      var s1 := Do(cfg, s, Consumer(Video, Quiet));
      && Inv(cfg, s1)
      && s1.v.pc == Working(s.v.pc.p, s.v.pc.f, ReadWritten(Sample(s.queued, s.Offered(), InFlight(s.a))))
  {
    Step(cfg, s, Consumer(Video, Quiet));
  }

  lemma AudioInFlight(cfg: Config, s: State)
    requires Inv(cfg, s)
    ensures InFlight(s.a) <= AUDIO_BUF_BYTES
  {
  }

  lemma ReadBounds(cfg: Config, t: State, sample: Sample)
    requires ClockInv(cfg, t) && t.v.pc.Working? && t.v.pc.work == ReadWritten(sample)
    ensures sample.offers.Total() - sample.inFlight <= t.written <= t.Sent()
    ensures Upto(sample.offers, t.Offered())
  {
  }

  lemma ReadWrittenStep(cfg: Config, t: State, sample: Sample)
    requires t.v.pc.Working? && t.v.pc.work == ReadWritten(sample)
    ensures Enabled(cfg, t, Consumer(Video, Quiet))
    ensures Do(cfg, t, Consumer(Video, Quiet)).v.pc
            == Working(t.v.pc.p, t.v.pc.f, Compare(t.written - sample.queued, sample, t.Offered()))
  {
  }

  /** The bytes the last clock read of a shown frame can have counted: played when it began, taken during it, or refused. */
  function HeardBytes(x: Shown): int {
    x.sample.Played() + (x.offers.taken - x.sample.offers.taken) + x.offers.refused
  }

  /**
    A/V sync: a frame that reached the screen other than by quit is at most 0.02 s ahead of the bytes really played when its
    last clock read began plus the bytes taken by the device during that read plus those ever refused; in integers, for a
    frame with a presentation time of p time base units.
    */
  lemma AvSync(cfg: Config, s: State, x: Shown)
    requires Reachable(cfg, s) && x in s.shown && !x.byQuit
    ensures x.sample.Played() <= s.played && x.offers.refused <= s.refused
    ensures cfg.PtsSeconds(x.f) <= cfg.ClockSeconds(HeardBytes(x)) + 0.02
    ensures x.f.pts.Some? ==>
              var p, rate := x.f.pts.value, cfg.channels * 2 * cfg.freq;
              50 * (p * cfg.tbNum * rate) <= 50 * (cfg.tbDen * HeardBytes(x)) + cfg.tbDen * rate
  {
    ReachableShown(cfg, s, x);
    ClockMonotone(cfg, x.clock, HeardBytes(x));
    if x.f.pts.Some? {
      AheadExact(cfg, x.f, x.f.pts.value, HeardBytes(x));
    }
  }

  lemma ReachableShown(cfg: Config, s: State, x: Shown)
    requires Reachable(cfg, s) && x in s.shown
    ensures ShownOk(cfg, x) && x.sample.Played() <= s.played && x.offers.refused <= s.refused
  {
    ReachableInv(cfg, s);
  }

  // ---------------------------------------------------------------- what a stream delivers

  /** Feeding one more packet only adds frames at the end. */
  ghost predicate Cumulative(decode: Decode) {
    forall ps, p :: decode(ps) <= decode(ps + [p])
  }

  lemma {:induction false} CumulativePrefix(decode: Decode, ps: seq<Packet>, qs: seq<Packet>)
    requires Cumulative(decode)
    ensures decode(ps) <= decode(ps + qs)
    decreases |qs|
  {
    if qs == [] {
      assert ps + qs == ps;
    } else {
      var n := |qs| - 1;
      CumulativePrefix(decode, ps, qs[..n]);
      assert ps + qs == (ps + qs[..n]) + [qs[n]];
    }
  }

  /**
    Refinement: as long as no call has failed, no send was refused, and what the thread has received is a prefix, in order,
    of decoding all demuxed packets of its stream one after the other.
    */
  lemma DeliversSequentialDecode(cfg: Config, s: State, k: Kind)
    requires Reachable(cfg, s) && Cumulative(cfg.Decoding(k)) && !s.Get(k).decoder.failed
    ensures s.Get(k).decoder.refused == 0 && !Enabled(cfg, s, Consumer(k, SendAgain))
    ensures s.Get(k).decoder.delivered <= cfg.Decoding(k)(Of(s.demuxed, Some(k)))
  {
    ReachableLane(cfg, s, k);
    AcceptedSoFar(s, k);
    var l, d := s.Get(k), s.Get(k).decoder;
    CumulativePrefix(cfg.Decoding(k), d.accepted, Unsent(l) + l.queue + ReaderHand(s.reader, Some(k)));
  }

  lemma AcceptedSoFar(s: State, k: Kind)
    requires FlowInv(s, k) && s.Get(k).decoder.accepted + Unsent(s.Get(k)) == s.Get(k).popped
    ensures
      var l := s.Get(k);
      l.decoder.accepted + (Unsent(l) + l.queue + ReaderHand(s.reader, Some(k))) == Of(s.demuxed, Some(k))
  {
  }

  /** Frames are received only after a packet that was accepted, and that packet is in hand. */
  lemma ReceivesAccepted(cfg: Config, s: State, k: Kind)
    requires Reachable(cfg, s) && (s.Get(k).pc.Receive? || s.Get(k).pc.Working?)
    ensures
      var accepted := s.Get(k).decoder.accepted;
      accepted != [] && accepted[|accepted| - 1] == s.Get(k).pc.p
  {
    ReachableLane(cfg, s, k);
  }

  /** The screen shows the frames of that decode in order, without gap or repetition. */
  lemma ShowsSequentialDecode(cfg: Config, s: State)
    requires Reachable(cfg, s) && Cumulative(cfg.decodeVideo) && !s.v.decoder.failed
    ensures Frames(s.shown) <= cfg.decodeVideo(Of(s.demuxed, Some(Video)))
    ensures |s.v.decoder.delivered| <= |s.shown| + 1
  {
    DeliversSequentialDecode(cfg, s, Video);
    ReceivedIsShown(cfg, s);
  }

  lemma ReceivedIsShown(cfg: Config, s: State)
    requires Reachable(cfg, s)
    ensures Frames(s.shown) + (if s.v.pc.Working? then [s.v.pc.f] else []) == s.v.decoder.delivered
  {
    ReachableInv(cfg, s);
  }
}
