/**
  The schedule that stalls: the reader runs ahead until the video queue is full, the
  audio thread and the device keep up with it, and the video thread shows a frame
  only when the queue is full. On a file that can stall it gets to a stall.
  */
module PlayerFileStall {
  import opened Options
  import opened PlayerModel
  import opened PlayerInvariant
  import opened PlayerSafety
  import opened PlayerTime
  import opened PlayerStall
  import opened PlayerFile

  // ---------------------------------------------------------------- the reader

  /** s with one more packet read and put where it belongs. */
  function Read(s: State, kind: Option<Kind>): State {
    var p := Packet(|s.demuxed|, kind);
    match kind
    case None => s.(demuxed := s.demuxed + [p], dropped := s.dropped + [p])
    case Some(k) => s.(demuxed := s.demuxed + [p]).Put(k, s.Get(k).(queue := s.Get(k).queue + [p]))
  }

  predicate ReadyToRead(s: State) {
    s.reader.RTop? && !s.quit && s.a.owner.Free? && s.v.owner.Free? && !s.a.pc.Asleep? && !s.v.pc.Asleep?
  }

  lemma FindsRoom(cfg: Config, s: State)
    requires Reachable(cfg, s) && ReadyToRead(s) && !Full(s)
    ensures Reachable(cfg, s.(reader := RFetch))
  {
    ReachableStep(cfg, s, Reader(Quiet));
    ReachableStep(cfg, s.(reader := RLockAudio), Reader(Quiet));
    var s1 := s.(reader := RLockVideo, a := s.a.(owner := ByReader));
    ReachableStep(cfg, s1, Reader(Quiet));
    var s2 := s1.(reader := RCheck, v := s.v.(owner := ByReader));
    ReachableStep(cfg, s2, Reader(Quiet));
    ReachableStep(cfg, s2.(reader := RUnlockAudio(false)), Reader(Quiet));
    ReachableStep(cfg, s2.(reader := RUnlockVideo(false), a := s.a), Reader(Quiet));
    assert s2.(reader := RFetch, a := s.a, v := s.v) == s.(reader := RFetch);
  }

  lemma Fetches(cfg: Config, s: State, kind: Option<Kind>)
    requires Reachable(cfg, s) && s.reader.RFetch?
    ensures
      var p := Packet(|s.demuxed|, kind);
      Reachable(cfg, s.(reader := RRoute(p), demuxed := s.demuxed + [p]))
  {
    ReachableStep(cfg, s, Reader(Demuxed(kind)));
  }

  lemma Locks(cfg: Config, s: State, p: Packet, k: Kind)
    requires Reachable(cfg, s) && s.reader == RRoute(p) && p.kind == Some(k) && s.Get(k).owner.Free?
    ensures Reachable(cfg, s.Put(k, s.Get(k).(owner := ByReader)).(reader := RPush(k, p)))
  {
    ReachableStep(cfg, s, Reader(Quiet));
    ReachableStep(cfg, s.(reader := RLock(k, p)), Reader(Quiet));
  }

  lemma Pushes(cfg: Config, s: State, p: Packet, k: Kind)
    requires Reachable(cfg, s) && s.reader == RRoute(p) && p.kind == Some(k) && s.Get(k).owner.Free?
    ensures
      var l := s.Get(k);
      Reachable(cfg, s.Put(k, l.(owner := ByReader, queue := l.queue + [p])).(reader := RNotify(k)))
  {
    Locks(cfg, s, p, k);
    ReachableStep(cfg, s.Put(k, s.Get(k).(owner := ByReader)).(reader := RPush(k, p)), Reader(Quiet));
  }

  /** A notification that wakes nobody. */
  lemma Notifies(cfg: Config, s: State, k: Kind)
    requires Reachable(cfg, s) && s.reader == RNotify(k) && !s.Get(k).pc.Asleep?
    ensures Reachable(cfg, s.Put(k, s.Get(k).(owner := Free)).(reader := RTop))
  {
    ReachableStep(cfg, s, Reader(Quiet));
    ReachableStep(cfg, s.(reader := RUnlock(k)), Reader(Quiet));
  }

  lemma Queues(cfg: Config, s: State, p: Packet, k: Kind)
    requires Reachable(cfg, s) && s.reader == RRoute(p) && p.kind == Some(k)
    requires s.Get(k).owner.Free? && !s.Get(k).pc.Asleep?
    ensures Reachable(cfg, s.Put(k, s.Get(k).(queue := s.Get(k).queue + [p])).(reader := RTop))
  {
    var l := s.Get(k);
    Pushes(cfg, s, p, k);
    Notifies(cfg, s.Put(k, l.(owner := ByReader, queue := l.queue + [p])).(reader := RNotify(k)), k);
  }

  lemma Reads(cfg: Config, s: State, kind: Option<Kind>)
    requires Reachable(cfg, s) && ReadyToRead(s) && !Full(s)
    ensures Reachable(cfg, Read(s, kind))
  {
    FindsRoom(cfg, s);
    Fetches(cfg, s.(reader := RFetch), kind);
    var p := Packet(|s.demuxed|, kind);
    var s1 := s.(reader := RRoute(p), demuxed := s.demuxed + [p]);
    match kind
    case None => ReachableStep(cfg, s1, Reader(Quiet));
    case Some(k) => Queues(cfg, s1, p, k);
  }

  // ---------------------------------------------------------------- both consumers

  lemma LaneReach(cfg: Config, s: State, k: Kind, c: Choice)
    requires Reachable(cfg, s) && !s.Get(k).pc.Working? && ConsumerCan(cfg, k, s.Get(k), c)
    ensures Reachable(cfg, s.Put(k, LaneNext(cfg, k, s.Get(k), s.quit, !NotifyPending(s, k), c)))
  {
    ReachableStep(cfg, s, Consumer(k, c));
  }

  function Taken(l: Lane): Lane
    requires l.queue != []
  {
    l.(pc := Send(l.queue[0]), queue := l.queue[1..], popped := l.popped + [l.queue[0]])
  }

  lemma Takes(cfg: Config, s: State, k: Kind)
    requires Reachable(cfg, s) && !s.quit
    requires s.Get(k).pc.Top? && s.Get(k).owner.Free? && s.Get(k).queue != []
    ensures Reachable(cfg, s.Put(k, Taken(s.Get(k))))
  {
    var l := s.Get(k);
    LaneReach(cfg, s, k, Quiet);
    LaneReach(cfg, s.Put(k, l.(pc := Lock)), k, Quiet);
    LaneReach(cfg, s.Put(k, l.(pc := Eval, owner := ByConsumer)), k, Quiet);
    LaneReach(cfg, s.Put(k, l.(pc := Decide, owner := ByConsumer)), k, Quiet);
    LaneReach(cfg, s.Put(k, Taken(l).(pc := Leave(Some(l.queue[0])), owner := ByConsumer)), k, Quiet);
  }

  function Fed(decode: Decode, l: Lane, p: Packet): Lane
    requires l.decoder.delivered <= decode(l.decoder.accepted + [p])
  {
    var all := decode(l.decoder.accepted + [p]);
    l.(pc := Receive(p),
    decoder := l.decoder.(accepted := l.decoder.accepted + [p], pending := all[|l.decoder.delivered|..]))
  }

  lemma Feeds(cfg: Config, s: State, k: Kind, p: Packet)
    requires Reachable(cfg, s) && Cumulative(cfg.Decoding(k)) && s.Get(k).pc == Send(p) && !s.Get(k).decoder.failed
    ensures s.Get(k).decoder.delivered <= cfg.Decoding(k)(s.Get(k).decoder.accepted + [p])
    ensures Reachable(cfg, s.Put(k, Fed(cfg.Decoding(k), s.Get(k), p)))
  {
    ReachableLane(cfg, s, k);
    var d := s.Get(k).decoder;
    assert d.delivered + d.pending == d.delivered;
    var all := cfg.Decoding(k)(d.accepted + [p]);
    LaneReach(cfg, s, k, SendOk(all[|d.delivered|..]));
  }

  /** After the receive loop has been gone round once: another frame, or the next packet. */
  function Received(k: Kind, l: Lane): Lane
    requires l.pc.Receive?
  {
    var p, d := l.pc.p, l.decoder;
    if d.pending == [] then l.(pc := Top, freed := l.freed + [p])
    else l.(pc := Working(p, d.pending[0], if k.Audio? then Convert else SampleQueue),
      decoder := d.(delivered := d.delivered + [d.pending[0]], pending := d.pending[1..]))
  }

  lemma Receives(cfg: Config, s: State, k: Kind)
    requires Reachable(cfg, s) && s.Get(k).pc.Receive?
    ensures Reachable(cfg, s.Put(k, Received(k, s.Get(k))))
  {
    var l := s.Get(k);
    if l.decoder.pending == [] {
      LaneReach(cfg, s, k, NeedInput);
      LaneReach(cfg, s.Put(k, l.(pc := Release(l.pc.p))), k, Quiet);
    } else {
      LaneReach(cfg, s, k, Got);
    }
  }

  // ---------------------------------------------------------------- audio

  /** t differs from s in the audio lane and the device only. */
  predicate OnlyAudio(s: State, t: State) {
    t == s.(a := t.a, queued := t.queued, played := t.played, refused := t.refused, written := t.written)
  }

  /** One frame is converted, queued on the device, counted and played. */
  lemma Sounds(cfg: Config, s: State) returns (t: State)
    requires Reachable(cfg, s) && s.a.pc.Working? && s.a.pc.work.Convert? && s.queued == 0
    ensures Reachable(cfg, t) && OnlyAudio(s, t) && t.queued == 0
    ensures t.a == s.a.(pc := Receive(s.a.pc.p))
  {
    var p, f, n := s.a.pc.p, s.a.pc.f, cfg.DataSize(s.a.decoder.delivered);
    ReachableStep(cfg, s, Consumer(Audio, Quiet));
    if n > 0 {
      t := Enqueues(cfg, s.(a := s.a.(pc := Working(p, f, Enqueue(n)))), n);
    } else {
      t := s.(a := s.a.(pc := Receive(p)));
    }
  }

  lemma Enqueues(cfg: Config, s: State, n: nat) returns (t: State)
    requires Reachable(cfg, s) && s.a.pc.Working? && s.a.pc.work == Enqueue(n) && s.queued == 0 && n > 0
    ensures Reachable(cfg, t) && OnlyAudio(s, t) && t.queued == 0
    ensures t.a == s.a.(pc := Receive(s.a.pc.p))
  {
    ReachableStep(cfg, s, Consumer(Audio, Quiet));
    var s1 := s.(a := s.a.(pc := Working(s.a.pc.p, s.a.pc.f, Account(n))), queued := n);
    ReachableStep(cfg, s1, Consumer(Audio, Quiet));
    var s2 := s1.(a := s.a.(pc := Receive(s.a.pc.p)), written := s.written + n);
    ReachableStep(cfg, s2, Device(n));
    t := s2.(queued := 0, played := s.played + n);
  }

  lemma {:induction false} FinishesPacket(cfg: Config, s: State) returns (t: State)
    requires Reachable(cfg, s) && s.a.pc.Receive? && !s.a.decoder.failed && s.queued == 0
    ensures Reachable(cfg, t) && OnlyAudio(s, t) && t.queued == 0
    ensures t.a.pc.Top? && !t.a.decoder.failed && t.a.queue == s.a.queue && t.a.owner == s.a.owner
    decreases |s.a.decoder.pending|
  {
    Receives(cfg, s, Audio);
    var s1 := s.(a := Received(Audio, s.a));
    assert s1 == s.Put(Audio, Received(Audio, s.Get(Audio)));
    if s.a.decoder.pending == [] {
      t := s1;
    } else {
      t := Sounds(cfg, s1);
      t := FinishesPacket(cfg, t);
    }
  }

  lemma KeepsUp(cfg: Config, s: State) returns (t: State)
    requires Reachable(cfg, s) && Cumulative(cfg.decodeAudio) && !s.quit && s.queued == 0
    requires s.a.pc.Top? && s.a.owner.Free? && |s.a.queue| == 1 && !s.a.decoder.failed
    ensures Reachable(cfg, t) && OnlyAudio(s, t) && t.queued == 0
    ensures t.a.pc.Top? && !t.a.decoder.failed && t.a.queue == [] && t.a.owner.Free?
  {
    Takes(cfg, s, Audio);
    var s1 := s.Put(Audio, Taken(s.Get(Audio)));
    Feeds(cfg, s1, Audio, s.a.queue[0]);
    t := FinishesPacket(cfg, s1.Put(Audio, Fed(cfg.decodeAudio, s1.Get(Audio), s.a.queue[0])));
  }

  // ---------------------------------------------------------------- video

  lemma ClockIsRead(cfg: Config, s: State, sample: Sample)
    requires Reachable(cfg, s) && s.v.pc.Working? && s.v.pc.work.SampleQueue?
    requires sample == Sample(s.queued, s.Offered(), InFlight(s.a))
    ensures
      var read := Compare(s.written - s.queued, sample, s.Offered());
      Reachable(cfg, s.(v := s.v.(pc := Working(s.v.pc.p, s.v.pc.f, read))))
  {
    ReachableStep(cfg, s, Consumer(Video, Quiet));
    ReachableStep(cfg, s.(v := s.v.(pc := Working(s.v.pc.p, s.v.pc.f, ReadWritten(sample)))), Consumer(Video, Quiet));
  }

  lemma Passes(cfg: Config, s: State, clock: int, sample: Sample, offers: Offers)
    requires Reachable(cfg, s) && s.v.pc.Working? && s.v.pc.work == Compare(clock, sample, offers)
    requires !s.quit && !cfg.Ahead(s.v.pc.f, clock)
    ensures Reachable(cfg, s.(v := s.v.(pc := Receive(s.v.pc.p)),
                              shown := s.shown + [Shown(s.v.pc.f, clock, sample, offers, false)]))
  {
    ReachableStep(cfg, s, Consumer(Video, Quiet));
    var present := Present(clock, sample, offers, false);
    ReachableStep(cfg, s.(v := s.v.(pc := Working(s.v.pc.p, s.v.pc.f, present))), Consumer(Video, Quiet));
  }

  /** A frame that is not ahead of the clock is shown. */
  lemma Shows(cfg: Config, s: State) returns (t: State)
    requires Reachable(cfg, s) && s.v.pc.Working? && s.v.pc.work.SampleQueue?
    requires !s.quit && s.queued == 0 && !cfg.Ahead(s.v.pc.f, s.written)
    ensures Reachable(cfg, t) && |t.shown| == |s.shown| + 1
    ensures t == s.(v := s.v.(pc := Receive(s.v.pc.p)), shown := t.shown)
  {
    var p, f, sample := s.v.pc.p, s.v.pc.f, Sample(s.queued, s.Offered(), InFlight(s.a));
    ClockIsRead(cfg, s, sample);
    Passes(cfg, s.(v := s.v.(pc := Working(p, f, Compare(s.written, sample, s.Offered())))), s.written, sample, s.Offered());
    t := s.(v := s.v.(pc := Receive(p)), shown := s.shown + [Shown(f, s.written, sample, s.Offered(), false)]);
  }

  // ---------------------------------------------------------------- the whole schedule

  /** Where the schedule is between two moves: everybody but the video thread is at the top of his loop. */
  ghost predicate OthersAtRest(file: seq<Packet>, s: State) {
    && ErrorFree(s) && s.demuxed <= file && !s.quit
    && s.reader.RTop? && s.a.pc.Top? && s.a.queue == [] && s.queued == 0
    && s.a.owner.Free? && s.v.owner.Free?
  }

  ghost predicate AtRest(cfg: Config, file: seq<Packet>, s: State) {
    && Reachable(cfg, s) && OthersAtRest(file, s)
    && (s.v.pc.Top? || (s.v.pc.Working? && s.v.pc.work.SampleQueue?))
  }

  ghost predicate WellNumbered(file: seq<Packet>) {
    forall i :: 0 <= i < |file| ==> file[i].id == i
  }

  lemma NextPrefix(file: seq<Packet>, ps: seq<Packet>)
    requires ps <= file && |ps| < |file| && WellNumbered(file)
    ensures ps + [Packet(|ps|, file[|ps|].kind)] <= file
  {
    assert file[|ps|] == Packet(|ps|, file[|ps|].kind);
  }

  /** The reader reads one packet and the audio side keeps up. */
  lemma MoveReader(cfg: Config, file: seq<Packet>, s: State) returns (t: State)
    requires AtRest(cfg, file, s) && !Full(s) && |s.demuxed| < |file| && WellNumbered(file) && Cumulative(cfg.decodeAudio)
    ensures AtRest(cfg, file, t) && |t.demuxed| == |s.demuxed| + 1 && t.shown == s.shown
  {
    var kind := file[|s.demuxed|].kind;
    Reads(cfg, s, kind);
    NextPrefix(file, s.demuxed);
    t := Read(s, kind);
    if kind == Some(Audio) {
      t := KeepsUp(cfg, t);
    }
  }

  /** The video thread goes on from a packet it has fed or a frame it has shown. */
  lemma MoveOn(cfg: Config, file: seq<Packet>, s: State) returns (t: State)
    requires Reachable(cfg, s) && OthersAtRest(file, s) && s.v.pc.Receive?
    ensures AtRest(cfg, file, t) && t.demuxed == s.demuxed && t.shown == s.shown && t.v.queue == s.v.queue
    ensures |t.v.decoder.pending| <= |s.v.decoder.pending|
    ensures t.v.pc.Working? ==> |t.v.decoder.pending| < |s.v.decoder.pending|
  {
    Receives(cfg, s, Video);
    t := s.Put(Video, Received(Video, s.Get(Video)));
  }

  /** The video thread takes the next packet. */
  lemma MoveToPacket(cfg: Config, file: seq<Packet>, s: State) returns (t: State)
    requires AtRest(cfg, file, s) && s.v.pc.Top? && s.v.queue != [] && Cumulative(cfg.decodeVideo)
    ensures AtRest(cfg, file, t) && t.demuxed == s.demuxed && t.shown == s.shown && |t.v.queue| < |s.v.queue|
  {
    Takes(cfg, s, Video);
    var s1, p := s.Put(Video, Taken(s.Get(Video))), s.v.queue[0];
    Feeds(cfg, s1, Video, p);
    t := MoveOn(cfg, file, s1.Put(Video, Fed(cfg.decodeVideo, s1.Get(Video), p)));
  }

  /** The video thread shows the frame it holds. */
  lemma MoveToFrame(cfg: Config, file: seq<Packet>, s: State) returns (t: State)
    requires AtRest(cfg, file, s) && s.v.pc.Working? && !cfg.Ahead(s.v.pc.f, s.written)
    ensures AtRest(cfg, file, t) && t.demuxed == s.demuxed && |t.shown| == |s.shown| + 1 && t.v.queue == s.v.queue
    ensures |t.v.decoder.pending| <= |s.v.decoder.pending|
    ensures t.v.pc.Working? ==> |t.v.decoder.pending| < |s.v.decoder.pending|
  {
    var s1 := Shows(cfg, s);
    t := MoveOn(cfg, file, s1);
  }

  // ---------------------------------------------------------------- why it cannot miss the place

  lemma {:induction false} OfPrefix(ps: seq<Packet>, qs: seq<Packet>, kind: Option<Kind>)
    requires ps <= qs
    ensures Of(ps, kind) <= Of(qs, kind)
    decreases |qs|
  {
    if |ps| < |qs| {
      OfPrefix(ps, Before(qs), kind);
    } else {
      assert ps == qs;
    }
  }

  lemma {:induction false} SoundPrefix(cfg: Config, fs: seq<Frame>, gs: seq<Frame>)
    requires fs <= gs
    ensures cfg.Sound(fs) <= cfg.Sound(gs)
    decreases |gs|
  {
    if |fs| < |gs| {
      SoundPrefix(cfg, fs, gs[..|gs| - 1]);
    } else {
      assert fs == gs;
    }
  }

  lemma DecodePrefix(decode: Decode, ps: seq<Packet>, qs: seq<Packet>)
    requires ps <= qs && Cumulative(decode)
    ensures decode(ps) <= decode(qs)
  {
    CumulativePrefix(decode, ps, qs[|ps|..]);
    assert ps + qs[|ps|..] == qs;
  }

  /** The part of a file read so far has no more sound than all of it. */
  lemma LessSound(cfg: Config, ps: seq<Packet>, file: seq<Packet>)
    requires ps <= file && Cumulative(cfg.decodeAudio)
    ensures SoundOf(cfg, ps) <= SoundOf(cfg, file)
  {
    OfPrefix(ps, file, Some(Audio));
    DecodePrefix(cfg.decodeAudio, AudioOf(ps), AudioOf(file));
    SoundPrefix(cfg, cfg.decodeAudio(AudioOf(ps)), cfg.decodeAudio(AudioOf(file)));
  }

  /** The frame held is the one that comes after those shown, of all the frames of the file. */
  lemma FrameHeld(cfg: Config, file: seq<Packet>, s: State)
    requires AtRest(cfg, file, s) && s.v.pc.Working? && Cumulative(cfg.decodeVideo)
    ensures
      var all := cfg.decodeVideo(VideoOf(file));
      |s.shown| < |all| && all[|s.shown|] == s.v.pc.f
  {
    DeliversSequentialDecode(cfg, s, Video);
    ReceivedIsShown(cfg, s);
    OfPrefix(s.demuxed, file, Some(Video));
    DecodePrefix(cfg.decodeVideo, VideoOf(s.demuxed), VideoOf(file));
    var d := s.Get(Video).decoder.delivered;
    assert d[|s.shown|] == s.v.pc.f;
  }

  lemma HeldTooFarAhead(cfg: Config, file: seq<Packet>, s: State, j: nat)
    requires AtRest(cfg, file, s) && s.v.pc.Working? && |s.shown| == j && TooFarAhead(cfg, file, j)
    requires Cumulative(cfg.decodeAudio) && Cumulative(cfg.decodeVideo)
    ensures cfg.Ahead(s.v.pc.f, s.written)
  {
    FrameHeld(cfg, file, s);
    var video := VideoOf(file);
    DecodePrefix(cfg.decodeVideo, video[..|video| - 200], video);
    SoundAtRest(cfg, s);
    LessSound(cfg, s.demuxed, file);
    ClockMonotone(cfg, s.written, SoundOf(cfg, file));
  }

  /** All frames of the packets before the one in hand have been shown. */
  lemma ShownAtTop(cfg: Config, s: State)
    requires Reachable(cfg, s) && !s.v.decoder.failed && s.v.pc.Top?
    ensures |s.shown| == |cfg.decodeVideo(s.v.popped)|
  {
    ReachableLane(cfg, s, Video);
    ReceivedIsShown(cfg, s);
    var d := s.Get(Video).decoder;
    assert d.accepted == s.Get(Video).popped && d.delivered == d.delivered + d.pending;
  }

  lemma ShownAtWork(cfg: Config, s: State)
    requires Reachable(cfg, s) && !s.v.decoder.failed && ClockLoop(s.v)
    ensures s.v.popped != [] && |s.shown| >= |cfg.decodeVideo(Before(s.v.popped))|
  {
    FrameInHand(cfg, s);
    ReceivedIsShown(cfg, s);
  }

  /** While the frame has not been shown, everything has not been read or the video queue is full. */
  lemma FullInTime(cfg: Config, file: seq<Packet>, s: State, j: nat)
    requires AtRest(cfg, file, s) && s.demuxed == file && |s.shown| <= j && TooFarAhead(cfg, file, j)
    requires Cumulative(cfg.decodeVideo)
    ensures Full(s)
  {
    PoppedAndQueue(cfg, s, Video);
    var video, l := VideoOf(file), s.Get(Video);
    var upto := video[..|video| - 200];
    if s.v.pc.Top? {
      ShownAtTop(cfg, s);
    } else {
      ShownAtWork(cfg, s);
    }
    if |l.queue| < 200 {
      assert upto <= Before(l.popped) <= l.popped;
      DecodePrefix(cfg.decodeVideo, upto, l.popped);
      DecodePrefix(cfg.decodeVideo, upto, Before(l.popped));
      assert false;
    }
  }

  // ---------------------------------------------------------------- the stall

  lemma {:induction false} RunsIntoStall(cfg: Config, file: seq<Packet>, s: State, j: nat) returns (t: State)
    requires AtRest(cfg, file, s) && |s.shown| <= j && TooFarAhead(cfg, file, j) && WellNumbered(file)
    requires Cumulative(cfg.decodeAudio) && Cumulative(cfg.decodeVideo)
    ensures Reachable(cfg, t) && Stalled(cfg, t) && !t.quit && ErrorFree(t) && t.demuxed <= file
    decreases |file| - |s.demuxed|, |s.v.queue|, |s.v.decoder.pending|, if s.v.pc.Working? then 1 else 0
  {
    if !Full(s) {
      if |s.demuxed| == |file| {
        FullInTime(cfg, file, s, j);
      }
      t := MoveReader(cfg, file, s);
      t := RunsIntoStall(cfg, file, t, j);
    } else if s.v.pc.Top? {
      t := MoveToPacket(cfg, file, s);
      t := RunsIntoStall(cfg, file, t, j);
    } else if cfg.Ahead(s.v.pc.f, s.written) {
      t := s;
    } else {
      if |s.shown| == j {
        HeldTooFarAhead(cfg, file, s, j);
      }
      t := MoveToFrame(cfg, file, s);
      t := RunsIntoStall(cfg, file, t, j);
    }
  }

  /** The state is a stall in a run that plays the file without decoder errors. */
  ghost predicate StallOf(cfg: Config, file: seq<Packet>, s: State) {
    Reachable(cfg, s) && Stalled(cfg, s) && !s.quit && ErrorFree(s) && s.demuxed <= file
  }

  lemma StartAtRest(cfg: Config, file: seq<Packet>)
    ensures AtRest(cfg, file, Init(0))
  {
    assert Legal(cfg, Init(0), []) && Exec(cfg, Init(0), []) == Init(0);
  }

  lemma StallIsReached(cfg: Config, file: seq<Packet>) returns (s: State)
    requires CanStall(cfg, file) && WellNumbered(file) && Cumulative(cfg.decodeAudio) && Cumulative(cfg.decodeVideo)
    ensures StallOf(cfg, file, s)
  {
    var n: nat, j: nat :| n <= |file| && TooFarAhead(cfg, file[..n], j);
    StartAtRest(cfg, file[..n]);
    s := RunsIntoStall(cfg, file[..n], Init(0), j);
  }

  /** Exactly the files with a frame too far ahead of the sound around it can stall the player. */
  lemma FileStallsExact(cfg: Config, file: seq<Packet>)
    requires WellNumbered(file) && Cumulative(cfg.decodeAudio) && Cumulative(cfg.decodeVideo)
    ensures CanStall(cfg, file) <==> exists s :: StallOf(cfg, file, s)
  {
    if CanStall(cfg, file) {
      var s := StallIsReached(cfg, file);
    }
    if exists s :: StallOf(cfg, file, s) {
      var s :| StallOf(cfg, file, s);
      StalledCanStall(cfg, file, s);
    }
  }
}
