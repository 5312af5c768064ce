/**
  What every action of the player keeps: who holds which mutex, what a sleeping
  consumer may assume, where every packet is, how full the queues are, what the
  decoders owe, and what the audio clock is worth.
  */
module PlayerInvariant {
  import opened Options
  import opened PlayerModel

  // ---------------------------------------------------------------- views of a state

  /** The packets of one stream, in demux order. */
  function Of(ps: seq<Packet>, kind: Option<Kind>): seq<Packet> {
    if ps == [] then []
    else
      var last := ps[|ps| - 1];
      Of(ps[..|ps| - 1], kind) + if last.kind == kind then [last] else []
  }

  /** The packet a consumer has popped and not yet freed. */
  function Hand(l: Lane): seq<Packet> {
    match l.pc
    case Leave(Some(p)) => [p]
    case Send(p) => [p]
    case Receive(p) => [p]
    case Working(p, _, _) => [p]
    case Release(p) => [p]
    case _ => []
  }

  /** The popped packet the decoder has not been offered yet. */
  function Unsent(l: Lane): seq<Packet> {
    match l.pc
    case Leave(Some(p)) => [p]
    case Send(p) => [p]
    case _ => []
  }

  /** The packet the reader has fetched and neither pushed nor freed. */
  function Held(r: ReaderPc): seq<Packet> {
    match r
    case RRoute(p) => [p]
    case RLock(_, p) => [p]
    case RPush(_, p) => [p]
    case _ => []
  }

  /** The same, if it is of the given stream. */
  function ReaderHand(r: ReaderPc, kind: Option<Kind>): seq<Packet> {
    if Held(r) != [] && Held(r)[0].kind == kind then Held(r) else []
  }

  predicate HoldsLock(pc: ConsumerPc) {
    pc.Eval? || pc.Block? || pc.Decide? || pc.Leave?
  }

  predicate ReaderHolds(r: ReaderPc, k: Kind) {
    match r
    case RLockVideo => k.Audio?
    case RCheck => true
    case RUnlockAudio(_) => true
    case RUnlockVideo(_) => k.Video?
    case RPush(k', _) => k' == k
    case RNotify(k') => k' == k
    case RUnlock(k') => k' == k
    case _ => false
  }

  /** The reader has seen room in both queues and has not pushed since. */
  predicate Committed(r: ReaderPc) {
    match r
    case RUnlockAudio(full) => !full
    case RUnlockVideo(full) => !full
    case RFetch => true
    case RRoute(_) => true
    case RLock(_, _) => true
    case RPush(_, _) => true
    case _ => false
  }

  // ---------------------------------------------------------------- the invariant

  /** All but the last. */
  function Before(ps: seq<Packet>): seq<Packet>
    requires ps != []
  {
    ps[..|ps| - 1]
  }

  /** Without errors a decoder owes exactly what it has accepted; between packets it owes nothing. The frame being worked
      on is one of the packet in hand. */
  ghost predicate DecoderInv(decode: Decode, l: Lane) {
    var d := l.decoder;
    && (l.pc.Working? ==> d.delivered != [] && d.delivered[|d.delivered| - 1] == l.pc.f)
    && (!d.failed ==>
          && d.refused == 0
          && d.accepted + Unsent(l) == l.popped
          && d.delivered + d.pending == decode(d.accepted)
          && (l.pc.Receive? || l.pc.Working? || d.pending == [])
          && (l.pc.Receive? || l.pc.Working? ==> d.accepted != [] && |decode(Before(d.accepted))| <= |d.delivered|)
          && (l.pc.Working? ==> |decode(Before(d.accepted))| < |d.delivered|))
  }

  /** What a consumer keeps about its own lane. */
  ghost predicate LaneInv(decode: Decode, quit: bool, l: Lane) {
    && (l.owner.ByConsumer? <==> HoldsLock(l.pc))
    && (l.pc.Block? ==> l.queue == [])
    && (l.pc.Decide? ==> l.queue != [] || quit)
    && (l.pc.Done? || l.pc == Leave(None) ==> quit)
    && (l.late ==> l.pc.Asleep?)
    && !l.pc.Faulted?
    && l.popped == l.freed + Hand(l)
    && (l.pc.Receive? || l.pc.Working? ==>
          l.decoder.accepted != [] && l.decoder.accepted[|l.decoder.accepted| - 1] == l.pc.p)
    && DecoderInv(decode, l)
  }

  /** What the rest of the player may rely on about lane k. */
  ghost predicate SharedInv(s: State, k: Kind) {
    var l := s.Get(k);
    && (l.owner.ByReader? <==> ReaderHolds(s.reader, k))
    && (l.pc.Asleep? ==> l.queue == [] || s.reader == RNotify(k))
    && (l.pc.Asleep? && !NotifyPending(s, k) ==> l.late)
  }

  /** Every packet of the stream has been popped, is queued, or is in the reader's hand, in demux order. */
  ghost predicate FlowInv(s: State, k: Kind) {
    s.Get(k).popped + s.Get(k).queue + ReaderHand(s.reader, Some(k)) == Of(s.demuxed, Some(k))
  }

  ghost predicate QuitInv(s: State) {
    && (s.reader.RNotifyAudio? || s.reader.RNotifyVideo? || s.reader.RDone? ==> s.quit)
    && (s.main.MNotifyAudio? || s.main.MNotifyVideo? ==> s.quit)
    && (s.main.MJoinReader? || s.main.MJoinAudio? || s.main.MJoinVideo? || s.main.MDone? ==> s.quit)
    && (s.main.MJoinAudio? || s.main.MJoinVideo? || s.main.MDone? ==> s.reader.RDone?)
    && (s.main.MJoinVideo? || s.main.MDone? ==> s.a.pc.Done?)
    && (s.main.MDone? ==> s.v.pc.Done?)
  }

  ghost predicate ReaderInv(s: State) {
    && (forall i :: 0 <= i < |s.demuxed| ==> s.demuxed[i].id == i)
    && (s.reader.RLock? ==> s.reader.p.kind == Some(s.reader.k))
    && (s.reader.RPush? ==> s.reader.p.kind == Some(s.reader.k))
    && s.dropped + ReaderHand(s.reader, None) == Of(s.demuxed, None)
  }

  ghost predicate CapacityInv(s: State) {
    && |s.a.queue| <= MAX_QUEUE_SIZE && |s.v.queue| <= MAX_QUEUE_SIZE
    && |s.a.queue| + |s.v.queue| < 2 * MAX_QUEUE_SIZE
    && (Committed(s.reader) ==> |s.a.queue| < MAX_QUEUE_SIZE && |s.v.queue| < MAX_QUEUE_SIZE)
  }

  /** The bounds of one clock read: sample was taken first, then clock + sample.queued bytes were found written
      when the offers had come to the second value. */
  ghost predicate ReadOk(clock: int, sample: Sample, offers: Offers) {
    && sample.queued <= sample.offers.taken <= offers.taken && sample.offers.refused <= offers.refused
    && sample.inFlight <= AUDIO_BUF_BYTES
    && sample.offers.Total() - sample.inFlight <= clock + sample.queued <= offers.Total()
  }

  /** Offers only grow. */
  predicate Upto(x: Offers, y: Offers) {
    x.taken <= y.taken && x.refused <= y.refused
  }

  ghost predicate ShownOk(cfg: Config, x: Shown) {
    ReadOk(x.clock, x.sample, x.offers) && (x.byQuit || !cfg.Ahead(x.f, x.clock))
  }

  ghost predicate WorkInv(cfg: Config, s: State, f: Frame, w: Work) {
    match w
    case Convert => true
    case Enqueue(n) => 0 < n <= AUDIO_BUF_BYTES
    case Account(n) => 0 < n <= AUDIO_BUF_BYTES
    case SampleQueue => true
    case ReadWritten(sample) =>
      && sample.queued <= sample.offers.taken && Upto(sample.offers, s.Offered())
      && sample.inFlight <= AUDIO_BUF_BYTES
      && sample.offers.Total() - sample.inFlight <= s.written
      && sample.Played() <= s.played
    case Compare(clock, sample, offers) =>
      && ReadOk(clock, sample, offers)
      && Upto(offers, s.Offered()) && clock + sample.queued <= s.written && sample.Played() <= s.played
    case Delay => true
    case Present(clock, sample, offers, byQuit) =>
      && ReadOk(clock, sample, offers)
      && Upto(offers, s.Offered()) && sample.Played() <= s.played
      && (if byQuit then s.quit else !cfg.Ahead(f, clock))
  }

  predicate AudioWork(w: Work) {
    w.Convert? || w.Enqueue? || w.Account?
  }

  ghost predicate ClockInv(cfg: Config, s: State) {
    && s.written + InFlight(s.a) == s.Sent()
    && (s.a.pc.Working? ==> AudioWork(s.a.pc.work) && WorkInv(cfg, s, s.a.pc.f, s.a.pc.work))
    && (s.v.pc.Working? ==> !AudioWork(s.v.pc.work) && WorkInv(cfg, s, s.v.pc.f, s.v.pc.work))
  }

  function Frames(xs: seq<Shown>): seq<Frame> {
    seq(|xs|, i requires 0 <= i < |xs| => xs[i].f)
  }

  ghost predicate ShownInv(cfg: Config, s: State) {
    && (forall x :: x in s.shown ==>
          ShownOk(cfg, x) && x.sample.Played() <= s.played && Upto(x.offers, s.Offered()) && (x.byQuit ==> s.quit))
    && Frames(s.shown) + (if s.v.pc.Working? then [s.v.pc.f] else []) == s.v.decoder.delivered
  }

  /** Bytes of the last frame received that are still to be offered to the device. */
  function Owed(cfg: Config, l: Lane): nat {
    if !l.pc.Working? then 0
    else
      match l.pc.work
      case Convert => cfg.Chunk(l.decoder.delivered)
      case Enqueue(n) => n
      case _ => 0
  }

  /** Every frame the audio thread has received has been offered to the device, the last one but for what is owed. */
  ghost predicate SoundInv(cfg: Config, s: State) {
    s.Sent() + Owed(cfg, s.a) == cfg.Sound(s.a.decoder.delivered)
  }

  /** Threads, mutexes and condition variables. */
  ghost predicate ThreadsInv(cfg: Config, s: State) {
    && LaneInv(cfg.decodeAudio, s.quit, s.a) && LaneInv(cfg.decodeVideo, s.quit, s.v)
    && SharedInv(s, Audio) && SharedInv(s, Video) && QuitInv(s)
  }

  /** Where the packets are. */
  ghost predicate PlacesInv(s: State) {
    FlowInv(s, Audio) && FlowInv(s, Video) && ReaderInv(s) && CapacityInv(s)
  }

  /** The audio device, the clock and the screen. */
  ghost predicate TimeInv(cfg: Config, s: State) {
    ClockInv(cfg, s) && ShownInv(cfg, s) && SoundInv(cfg, s)
  }

  ghost predicate Inv(cfg: Config, s: State) {
    ThreadsInv(cfg, s) && PlacesInv(s) && TimeInv(cfg, s)
  }

  // ---------------------------------------------------------------- a consumer's step

  /** All that the other threads can see of a consumer step that is not work on a frame. */
  ghost predicate Moves(k: Kind, l: Lane, late: bool, l': Lane) {
    && !l.pc.Working? && !l.pc.Done?
    && (l'.owner.ByReader? <==> l.owner.ByReader?)
    && l'.popped + l'.queue == l.popped + l.queue && |l'.queue| <= |l.queue|
    && (l'.pc.Asleep? ==> l'.queue == [] && l'.late == late)
    && (if l'.pc.Working?
        then l'.pc.work == (if k.Audio? then Convert else SampleQueue)
             && l'.decoder.delivered == l.decoder.delivered + [l'.pc.f]
        else l'.decoder.delivered == l.decoder.delivered)
  }

  lemma LaneNextMoves(cfg: Config, k: Kind, l: Lane, quit: bool, late: bool, c: Choice)
    requires LaneInv(cfg.Decoding(k), quit, l) && ConsumerCan(cfg, k, l, c) && !l.pc.Working?
    ensures Moves(k, l, late, LaneNext(cfg, k, l, quit, late, c))
  {
    if l.pc.Decide? && l.queue != [] {
      assert l.queue == [l.queue[0]] + l.queue[1..];
    }
  }

  lemma SendKeeps(decode: Decode, quit: bool, l: Lane, p: Packet, c: Choice)
    requires LaneInv(decode, quit, l) && l.pc == Send(p) && SendAllowed(decode, l.decoder, p, c)
    ensures LaneInv(decode, quit, SendNext(l, p, c))
  {
    assert Before(l.decoder.accepted + [p]) == l.decoder.accepted;
  }

  lemma ReceiveKeeps(decode: Decode, quit: bool, k: Kind, l: Lane, p: Packet, c: Choice)
    requires LaneInv(decode, quit, l) && l.pc == Receive(p) && ReceiveAllowed(l.decoder, c)
    ensures LaneInv(decode, quit, ReceiveNext(k, l, p, c))
  {
  }

  lemma LaneNextKeeps(cfg: Config, k: Kind, l: Lane, quit: bool, late: bool, c: Choice)
    requires LaneInv(cfg.Decoding(k), quit, l) && ConsumerCan(cfg, k, l, c) && !l.pc.Working?
    ensures LaneInv(cfg.Decoding(k), quit, LaneNext(cfg, k, l, quit, late, c))
  {
    if l.pc.Send? {
      SendKeeps(cfg.Decoding(k), quit, l, l.pc.p, c);
    } else if l.pc.Receive? {
      ReceiveKeeps(cfg.Decoding(k), quit, k, l, l.pc.p, c);
    }
  }

  lemma MovesKeepThreads(cfg: Config, s: State, k: Kind, l': Lane)
    requires ThreadsInv(cfg, s) && Moves(k, s.Get(k), !NotifyPending(s, k), l')
    requires LaneInv(cfg.Decoding(k), s.quit, l')
    ensures ThreadsInv(cfg, s.Put(k, l'))
  {
    MovesKeepShared(s, k, l', Audio);
    MovesKeepShared(s, k, l', Video);
  }

  lemma MovesKeepShared(s: State, k: Kind, l': Lane, k': Kind)
    requires SharedInv(s, k') && Moves(k, s.Get(k), !NotifyPending(s, k), l')
    ensures SharedInv(s.Put(k, l'), k')
  {
  }

  lemma MovesKeepPlaces(s: State, k: Kind, l': Lane)
    requires PlacesInv(s) && Moves(k, s.Get(k), !NotifyPending(s, k), l')
    ensures PlacesInv(s.Put(k, l'))
  {
  }

  lemma MovesKeepTime(cfg: Config, s: State, k: Kind, l': Lane)
    requires TimeInv(cfg, s) && Moves(k, s.Get(k), !NotifyPending(s, k), l')
    ensures TimeInv(cfg, s.Put(k, l'))
  {
  }

  lemma LaneStep(cfg: Config, s: State, k: Kind, c: Choice)
    requires Inv(cfg, s) && ConsumerCan(cfg, k, s.Get(k), c) && !s.Get(k).pc.Working?
    ensures Inv(cfg, s.Put(k, LaneNext(cfg, k, s.Get(k), s.quit, !NotifyPending(s, k), c)))
  {
    var late := !NotifyPending(s, k);
    var l' := LaneNext(cfg, k, s.Get(k), s.quit, late, c);
    LaneNextMoves(cfg, k, s.Get(k), s.quit, late, c);
    LaneNextKeeps(cfg, k, s.Get(k), s.quit, late, c);
    MovesKeepThreads(cfg, s, k, l');
    MovesKeepPlaces(s, k, l');
    MovesKeepTime(cfg, s, k, l');
  }

  // ---------------------------------------------------------------- work on a frame

  /** All that the other threads can see of a working lane's step. */
  ghost predicate Works(s: State, k: Kind, s': State) {
    var pc := s.Get(k).pc;
    var pc' := s'.Get(k).pc;
    && pc.Working? && (pc' == Receive(pc.p) || (pc'.Working? && pc'.p == pc.p && pc'.f == pc.f))
    && s' == s.Put(k, s.Get(k).(pc := pc')).(queued := s'.queued, refused := s'.refused,
                                             written := s'.written, shown := s'.shown)
  }

  lemma AudioWorks(cfg: Config, s: State, k: Kind, c: Choice)
    requires s.Get(k).pc.Working? && AudioWork(s.Get(k).pc.work) && WorkAllowed(s.Get(k).pc.work, c)
    ensures Works(s, k, WorkNext(cfg, s, k, c))
  {
  }

  predicate ReadsClock(w: Work) {
    w.SampleQueue? || w.ReadWritten?
  }

  lemma ReadWorks(cfg: Config, s: State, k: Kind, c: Choice)
    requires s.Get(k).pc.Working? && ReadsClock(s.Get(k).pc.work) && WorkAllowed(s.Get(k).pc.work, c)
    ensures Works(s, k, WorkNext(cfg, s, k, c))
  {
  }

  lemma WaitWorks(cfg: Config, s: State, k: Kind, c: Choice)
    requires s.Get(k).pc.Working? && WorkAllowed(s.Get(k).pc.work, c)
    requires !AudioWork(s.Get(k).pc.work) && !ReadsClock(s.Get(k).pc.work)
    ensures Works(s, k, WorkNext(cfg, s, k, c))
  {
  }

  lemma WorkNextWorks(cfg: Config, s: State, k: Kind, c: Choice)
    requires s.Get(k).pc.Working? && WorkAllowed(s.Get(k).pc.work, c)
    ensures Works(s, k, WorkNext(cfg, s, k, c))
  {
    if AudioWork(s.Get(k).pc.work) {
      AudioWorks(cfg, s, k, c);
    } else if ReadsClock(s.Get(k).pc.work) {
      ReadWorks(cfg, s, k, c);
    } else {
      WaitWorks(cfg, s, k, c);
    }
  }

  lemma WorksKeepsThreads(cfg: Config, s: State, k: Kind, s': State)
    requires ThreadsInv(cfg, s) && Works(s, k, s')
    ensures ThreadsInv(cfg, s')
  {
  }

  lemma WorksKeepsPlaces(s: State, k: Kind, s': State)
    requires Works(s, k, s') && PlacesInv(s)
    ensures PlacesInv(s')
  {
  }

  lemma ConvertKeepsClock(cfg: Config, s: State)
    requires s.a.pc.Working? && s.a.pc.work.Convert? && ClockInv(cfg, s)
    ensures ClockInv(cfg, WorkNext(cfg, s, Audio, Quiet))
  {
    var p, f, size := s.a.pc.p, s.a.pc.f, cfg.DataSize(s.a.decoder.delivered);
    ChunkFits(cfg, s.a.decoder.delivered);
    MovedKeepsClock(cfg, s, if size > 0 then Working(p, f, Enqueue(size)) else Receive(p));
  }

  lemma MovedKeepsClock(cfg: Config, s: State, pc: ConsumerPc)
    requires s.a.pc.Working? && s.a.pc.work.Convert? && ClockInv(cfg, s)
    requires pc.Receive? || (pc.Working? && pc.work.Enqueue? && 0 < pc.work.bytes <= AUDIO_BUF_BYTES)
    ensures ClockInv(cfg, s.(a := s.a.(pc := pc)))
  {
  }

  lemma EnqueueKeepsClock(cfg: Config, s: State, c: Choice)
    requires s.a.pc.Working? && s.a.pc.work.Enqueue? && WorkAllowed(s.a.pc.work, c) && ClockInv(cfg, s)
    ensures ClockInv(cfg, WorkNext(cfg, s, Audio, c))
  {
  }

  lemma AccountKeepsClock(cfg: Config, s: State)
    requires s.a.pc.Working? && s.a.pc.work.Account? && ClockInv(cfg, s)
    ensures ClockInv(cfg, WorkNext(cfg, s, Audio, Quiet))
  {
  }

  lemma AudioKeepsClock(cfg: Config, s: State, c: Choice)
    requires s.a.pc.Working? && WorkAllowed(s.a.pc.work, c) && ClockInv(cfg, s)
    ensures ClockInv(cfg, WorkNext(cfg, s, Audio, c))
  {
    match s.a.pc.work
    case Convert => ConvertKeepsClock(cfg, s);
    case Enqueue(_) => EnqueueKeepsClock(cfg, s, c);
    case Account(_) => AccountKeepsClock(cfg, s);
    case _ =>
  }

  lemma AudioKeepsShown(cfg: Config, s: State, c: Choice)
    requires s.a.pc.Working? && AudioWork(s.a.pc.work) && WorkAllowed(s.a.pc.work, c) && ShownInv(cfg, s)
    ensures ShownInv(cfg, WorkNext(cfg, s, Audio, c))
  {
  }

  lemma AudioKeepsSound(cfg: Config, s: State, c: Choice)
    requires s.a.pc.Working? && AudioWork(s.a.pc.work) && WorkAllowed(s.a.pc.work, c) && SoundInv(cfg, s)
    ensures SoundInv(cfg, WorkNext(cfg, s, Audio, c))
  {
  }

  lemma ChunkFits(cfg: Config, frames: seq<Frame>)
    ensures cfg.DataSize(frames) <= AUDIO_BUF_BYTES
  {
    var fit := AUDIO_BUF_BYTES / cfg.channels / 2;
    var n := if cfg.resample(frames) <= fit then cfg.resample(frames) else fit;
    FitIsEnough(n, cfg.channels);
  }

  lemma FitIsEnough(n: int, channels: nat)
    requires channels > 0 && n <= AUDIO_BUF_BYTES / channels / 2
    ensures n * channels * 2 <= AUDIO_BUF_BYTES
  {
    var each := AUDIO_BUF_BYTES / channels;
    assert channels * each <= AUDIO_BUF_BYTES;
    assert (each - 2 * n) * channels >= 0;
  }

  /** The statements of the clock read. */
  lemma ReadKeepsWork(cfg: Config, s: State)
    requires s.v.pc.Working? && ReadsClock(s.v.pc.work)
    requires s.written + InFlight(s.a) == s.Sent()
    requires s.a.pc.Working? ==> WorkInv(cfg, s, s.a.pc.f, s.a.pc.work)
    requires WorkInv(cfg, s, s.v.pc.f, s.v.pc.work)
    ensures
      var s' := WorkNext(cfg, s, Video, Quiet);
      s'.v.pc.Working? && !AudioWork(s'.v.pc.work) && WorkInv(cfg, s', s'.v.pc.f, s'.v.pc.work)
  {
  }

  /** The statements of the wait loop and behind it. */
  lemma WaitKeepsWork(cfg: Config, s: State)
    requires s.v.pc.Working? && (s.v.pc.work.Compare? || s.v.pc.work.Delay? || s.v.pc.work.Present?)
    requires WorkInv(cfg, s, s.v.pc.f, s.v.pc.work)
    ensures
      var s' := WorkNext(cfg, s, Video, Quiet);
      s'.v.pc.Working? ==> !AudioWork(s'.v.pc.work) && WorkInv(cfg, s', s'.v.pc.f, s'.v.pc.work)
  {
  }

  lemma VideoKeepsWork(cfg: Config, s: State, c: Choice)
    requires s.v.pc.Working? && WorkAllowed(s.v.pc.work, c) && ClockInv(cfg, s)
    ensures
      var s' := WorkNext(cfg, s, Video, c);
      s'.v.pc.Working? ==> !AudioWork(s'.v.pc.work) && WorkInv(cfg, s', s'.v.pc.f, s'.v.pc.work)
  {
    if ReadsClock(s.v.pc.work) {
      ReadKeepsWork(cfg, s);
    } else {
      WaitKeepsWork(cfg, s);
    }
  }

  lemma VideoKeepsDevice(cfg: Config, s: State, c: Choice)
    requires s.v.pc.Working? && !AudioWork(s.v.pc.work) && WorkAllowed(s.v.pc.work, c)
    ensures
      var s' := WorkNext(cfg, s, Video, c);
      s' == s.(v := s'.v, shown := s'.shown)
  {
  }

  lemma PresentKeepsShown(cfg: Config, s: State)
    requires s.v.pc.Working? && s.v.pc.work.Present? && ClockInv(cfg, s) && ShownInv(cfg, s)
    ensures ShownInv(cfg, WorkNext(cfg, s, Video, Quiet))
  {
  }

  lemma VideoKeepsShown(cfg: Config, s: State, c: Choice)
    requires s.v.pc.Working? && WorkAllowed(s.v.pc.work, c) && ClockInv(cfg, s) && ShownInv(cfg, s)
    ensures ShownInv(cfg, WorkNext(cfg, s, Video, c))
  {
    if s.v.pc.work.Present? {
      PresentKeepsShown(cfg, s);
    }
  }

  lemma AudioKeepsTime(cfg: Config, s: State, c: Choice)
    requires s.a.pc.Working? && WorkAllowed(s.a.pc.work, c) && TimeInv(cfg, s)
    ensures TimeInv(cfg, WorkNext(cfg, s, Audio, c))
  {
    AudioKeepsClock(cfg, s, c);
    AudioKeepsShown(cfg, s, c);
    AudioKeepsSound(cfg, s, c);
  }

  lemma VideoKeepsTime(cfg: Config, s: State, c: Choice)
    requires s.v.pc.Working? && WorkAllowed(s.v.pc.work, c) && TimeInv(cfg, s)
    ensures TimeInv(cfg, WorkNext(cfg, s, Video, c))
  {
    VideoKeepsWork(cfg, s, c);
    VideoKeepsDevice(cfg, s, c);
    VideoKeepsShown(cfg, s, c);
  }

  lemma WorkStep(cfg: Config, s: State, k: Kind, c: Choice)
    requires Inv(cfg, s) && s.Get(k).pc.Working? && WorkAllowed(s.Get(k).pc.work, c)
    ensures Inv(cfg, WorkNext(cfg, s, k, c))
  {
    var s' := WorkNext(cfg, s, k, c);
    WorkNextWorks(cfg, s, k, c);
    WorksKeepsThreads(cfg, s, k, s');
    WorksKeepsPlaces(s, k, s');
    if k.Audio? {
      AudioKeepsTime(cfg, s, c);
    } else {
      VideoKeepsTime(cfg, s, c);
    }
  }

  // ---------------------------------------------------------------- the other actors

  /** What the reader and main may do to a lane. */
  ghost predicate Touched(l: Lane, l': Lane) {
    || l' == l || l' == Wake(l)
    || (l.owner.Free? && l' == l.(owner := ByReader))
    || (l.owner.ByReader? && l' == l.(owner := Free))
    || (l.owner.ByReader? && |l'.queue| == |l.queue| + 1 && l' == l.(queue := l'.queue))
  }

  lemma TouchedKeeps(decode: Decode, quit: bool, l: Lane, quit': bool, l': Lane)
    requires LaneInv(decode, quit, l) && (quit ==> quit') && Touched(l, l')
    ensures LaneInv(decode, quit', l')
  {
  }

  /** Lanes touched at most; the device and the frames shown left alone. */
  ghost predicate Tends(s: State, s': State) {
    && Touched(s.a, s'.a) && Touched(s.v, s'.v) && (s.quit ==> s'.quit)
    && s'.queued == s.queued && s'.played == s.played && s'.refused == s.refused
    && s'.written == s.written && s'.shown == s.shown
  }

  lemma TendsKeepsLanes(cfg: Config, s: State, s': State)
    requires ThreadsInv(cfg, s) && Tends(s, s')
    ensures LaneInv(cfg.decodeAudio, s'.quit, s'.a) && LaneInv(cfg.decodeVideo, s'.quit, s'.v)
  {
    TouchedKeeps(cfg.decodeAudio, s.quit, s.a, s'.quit, s'.a);
    TouchedKeeps(cfg.decodeVideo, s.quit, s.v, s'.quit, s'.v);
  }

  lemma TendsKeepsTime(cfg: Config, s: State, s': State)
    requires TimeInv(cfg, s) && Tends(s, s')
    ensures TimeInv(cfg, s')
  {
    TendsKeepsClock(cfg, s, s');
    TouchedKeepsWork(s.a, s'.a);
    TouchedKeepsWork(s.v, s'.v);
  }

  lemma TouchedKeepsWork(l: Lane, l': Lane)
    requires Touched(l, l')
    ensures l'.decoder == l.decoder && (l.pc.Working? || l'.pc.Working? ==> l'.pc == l.pc)
  {
  }

  lemma TendsKeepsClock(cfg: Config, s: State, s': State)
    requires ClockInv(cfg, s) && Tends(s, s')
    ensures ClockInv(cfg, s')
  {
    TouchedKeepsWork(s.a, s'.a);
    TouchedKeepsWork(s.v, s'.v);
  }

  lemma ReaderTouches(s: State, c: Choice, k: Kind)
    requires SharedInv(s, k) && ReaderCan(s, c)
    ensures Touched(s.Get(k), ReaderNext(s, c).Get(k))
  {
  }

  lemma ReaderTends(s: State, c: Choice)
    requires SharedInv(s, Audio) && SharedInv(s, Video) && ReaderCan(s, c)
    ensures Tends(s, ReaderNext(s, c))
  {
    ReaderTouches(s, c, Audio);
    ReaderTouches(s, c, Video);
    ReaderLeavesDevice(s, c);
  }

  lemma ReaderLeavesDevice(s: State, c: Choice)
    requires ReaderCan(s, c)
    ensures
      var s' := ReaderNext(s, c);
      && (s.quit ==> s'.quit) && s'.queued == s.queued && s'.played == s.played && s'.refused == s.refused
      && s'.written == s.written && s'.shown == s.shown
  {
  }

  /** The capacity loop, lines 209-224. */
  predicate ReaderPolls(r: ReaderPc) {
    || r.RTop? || r.RLockAudio? || r.RLockVideo? || r.RCheck?
    || r.RUnlockAudio? || r.RUnlockVideo? || r.RSleep?
  }

  lemma PollingKeepsShared(s: State, c: Choice, k: Kind)
    requires SharedInv(s, k) && ReaderCan(s, c) && ReaderPolls(s.reader)
    ensures SharedInv(ReaderNext(s, c), k)
  {
  }

  /** From the fetch to the end of the push. */
  predicate ReaderDelivers(r: ReaderPc) {
    r.RFetch? || r.RRoute? || r.RLock? || r.RPush? || r.RNotify? || r.RUnlock?
  }

  lemma FetchingKeepsShared(s: State, c: Choice, k: Kind)
    requires SharedInv(s, k) && ReaderCan(s, c) && (s.reader.RFetch? || s.reader.RRoute? || s.reader.RLock?)
    ensures SharedInv(ReaderNext(s, c), k)
  {
  }

  lemma PushingKeepsShared(s: State, c: Choice, k: Kind)
    requires SharedInv(s, k) && ReaderCan(s, c) && (s.reader.RPush? || s.reader.RNotify? || s.reader.RUnlock?)
    ensures SharedInv(ReaderNext(s, c), k)
  {
  }

  lemma DeliveringKeepsShared(s: State, c: Choice, k: Kind)
    requires SharedInv(s, k) && ReaderCan(s, c) && ReaderDelivers(s.reader)
    ensures SharedInv(ReaderNext(s, c), k)
  {
    if s.reader.RFetch? || s.reader.RRoute? || s.reader.RLock? {
      FetchingKeepsShared(s, c, k);
    } else {
      PushingKeepsShared(s, c, k);
    }
  }

  lemma LeavingKeepsShared(s: State, c: Choice, k: Kind)
    requires SharedInv(s, k) && ReaderCan(s, c) && !ReaderPolls(s.reader) && !ReaderDelivers(s.reader)
    ensures SharedInv(ReaderNext(s, c), k)
  {
  }

  lemma ReaderKeepsQuit(s: State, c: Choice)
    requires QuitInv(s) && ReaderCan(s, c)
    ensures QuitInv(ReaderNext(s, c))
  {
  }

  lemma ReaderKeepsThreads(cfg: Config, s: State, c: Choice)
    requires ThreadsInv(cfg, s) && ReaderCan(s, c)
    ensures ThreadsInv(cfg, ReaderNext(s, c)) && Tends(s, ReaderNext(s, c))
  {
    ReaderTends(s, c);
    TendsKeepsLanes(cfg, s, ReaderNext(s, c));
    ReaderKeepsShared(s, c, Audio);
    ReaderKeepsShared(s, c, Video);
    ReaderKeepsQuit(s, c);
  }

  lemma ReaderKeepsShared(s: State, c: Choice, k: Kind)
    requires SharedInv(s, k) && ReaderCan(s, c)
    ensures SharedInv(ReaderNext(s, c), k)
  {
    if ReaderPolls(s.reader) {
      PollingKeepsShared(s, c, k);
    } else if ReaderDelivers(s.reader) {
      DeliveringKeepsShared(s, c, k);
    } else {
      LeavingKeepsShared(s, c, k);
    }
  }

  lemma OfAppend(ps: seq<Packet>, p: Packet, kind: Option<Kind>)
    ensures Of(ps + [p], kind) == Of(ps, kind) + if p.kind == kind then [p] else []
  {
    assert (ps + [p])[..|ps|] == ps;
  }

  lemma FetchedFlow(s: State, p: Packet, k: Kind)
    requires FlowInv(s, k) && s.reader.RFetch?
    ensures FlowInv(s.(reader := RRoute(p), demuxed := s.demuxed + [p]), k)
  {
    OfAppend(s.demuxed, p, Some(k));
  }

  lemma FetchKeepsFlow(s: State, c: Choice, k: Kind)
    requires FlowInv(s, k) && ReaderCan(s, c) && s.reader.RFetch?
    ensures FlowInv(ReaderNext(s, c), k)
  {
    if c.Demuxed? {
      FetchedFlow(s, Packet(|s.demuxed|, c.kind), k);
    }
  }

  lemma PushKeepsFlow(s: State, c: Choice, k: Kind)
    requires FlowInv(s, k) && ReaderInv(s) && ReaderCan(s, c) && s.reader.RPush?
    ensures FlowInv(ReaderNext(s, c), k)
  {
  }

  /** Every other step of the reader leaves the packets of a stream where they are. */
  lemma ReaderLeavesPackets(s: State, c: Choice, k: Kind)
    requires ReaderCan(s, c) && !s.reader.RFetch? && !s.reader.RPush?
    ensures
      var s' := ReaderNext(s, c);
      && s'.Get(k).popped == s.Get(k).popped && s'.Get(k).queue == s.Get(k).queue && s'.demuxed == s.demuxed
      && ReaderHand(s'.reader, Some(k)) == ReaderHand(s.reader, Some(k))
  {
  }

  lemma ReaderKeepsFlow(s: State, c: Choice, k: Kind)
    requires FlowInv(s, k) && ReaderInv(s) && ReaderCan(s, c)
    ensures FlowInv(ReaderNext(s, c), k)
  {
    if s.reader.RFetch? {
      FetchKeepsFlow(s, c, k);
    } else if s.reader.RPush? {
      PushKeepsFlow(s, c, k);
    } else {
      ReaderLeavesPackets(s, c, k);
    }
  }

  lemma FetchKeepsReader(s: State, c: Choice)
    requires ReaderInv(s) && ReaderCan(s, c) && s.reader.RFetch?
    ensures ReaderInv(ReaderNext(s, c))
  {
    if c.Demuxed? {
      OfAppend(s.demuxed, Packet(|s.demuxed|, c.kind), None);
    }
  }

  lemma RestKeepsReader(s: State, c: Choice)
    requires ReaderInv(s) && ReaderCan(s, c) && !s.reader.RFetch?
    ensures ReaderInv(ReaderNext(s, c))
  {
  }

  lemma ReaderKeepsCapacity(s: State, c: Choice)
    requires CapacityInv(s) && ReaderCan(s, c)
    ensures CapacityInv(ReaderNext(s, c))
  {
  }

  lemma ReaderKeepsPlaces(s: State, c: Choice)
    requires PlacesInv(s) && ReaderCan(s, c)
    ensures PlacesInv(ReaderNext(s, c))
  {
    ReaderKeepsFlow(s, c, Audio);
    ReaderKeepsFlow(s, c, Video);
    if s.reader.RFetch? {
      FetchKeepsReader(s, c);
    } else {
      RestKeepsReader(s, c);
    }
    ReaderKeepsCapacity(s, c);
  }

  lemma ReaderStep(cfg: Config, s: State, c: Choice)
    requires Inv(cfg, s) && ReaderCan(s, c)
    ensures Inv(cfg, ReaderNext(s, c))
  {
    ReaderKeepsThreads(cfg, s, c);
    ReaderKeepsPlaces(s, c);
    TendsKeepsTime(cfg, s, ReaderNext(s, c));
  }

  lemma MainKeepsThreads(cfg: Config, s: State, c: Choice)
    requires ThreadsInv(cfg, s) && MainCan(s, c)
    ensures ThreadsInv(cfg, MainNext(s, c)) && Tends(s, MainNext(s, c))
  {
    TendsKeepsLanes(cfg, s, MainNext(s, c));
    MainKeepsShared(s, c, Audio);
    MainKeepsShared(s, c, Video);
  }

  lemma MainKeepsShared(s: State, c: Choice, k: Kind)
    requires SharedInv(s, k) && MainCan(s, c)
    ensures SharedInv(MainNext(s, c), k)
  {
  }

  lemma MainKeepsPlaces(s: State, c: Choice)
    requires PlacesInv(s) && MainCan(s, c)
    ensures PlacesInv(MainNext(s, c))
  {
  }

  lemma MainStep(cfg: Config, s: State, c: Choice)
    requires Inv(cfg, s) && MainCan(s, c)
    ensures Inv(cfg, MainNext(s, c))
  {
    MainKeepsThreads(cfg, s, c);
    MainKeepsPlaces(s, c);
    TendsKeepsTime(cfg, s, MainNext(s, c));
  }

  /** The device plays some of what is queued. */
  predicate Plays(s: State, s': State) {
    s'.queued <= s.queued && s' == s.(queued := s'.queued, played := s.played + (s.queued - s'.queued))
  }

  lemma DeviceStep(cfg: Config, s: State, s': State)
    requires Inv(cfg, s) && Plays(s, s')
    ensures Inv(cfg, s')
  {
    DeviceKeepsTime(cfg, s, s');
    DeviceKeepsRest(cfg, s, s');
  }

  lemma DeviceKeepsRest(cfg: Config, s: State, s': State)
    requires ThreadsInv(cfg, s) && PlacesInv(s) && Plays(s, s')
    ensures ThreadsInv(cfg, s') && PlacesInv(s')
  {
  }

  lemma DeviceKeepsTime(cfg: Config, s: State, s': State)
    requires TimeInv(cfg, s) && Plays(s, s')
    ensures TimeInv(cfg, s')
  {
  }

  /** A sleeper wakes up. */
  lemma SpuriousStep(cfg: Config, s: State, k: Kind, s': State)
    requires Inv(cfg, s) && s' == s.Put(k, Wake(s.Get(k)))
    ensures Inv(cfg, s')
  {
    WakingKeepsThreads(cfg, s, k, s');
    WakingKeepsPlaces(s, k, s');
    TendsKeepsTime(cfg, s, s');
  }

  lemma WakingKeepsThreads(cfg: Config, s: State, k: Kind, s': State)
    requires ThreadsInv(cfg, s) && s' == s.Put(k, Wake(s.Get(k)))
    ensures ThreadsInv(cfg, s') && Tends(s, s')
  {
    TendsKeepsLanes(cfg, s, s');
  }

  lemma WakingKeepsPlaces(s: State, k: Kind, s': State)
    requires PlacesInv(s) && s' == s.Put(k, Wake(s.Get(k)))
    ensures PlacesInv(s')
  {
  }

  lemma ConsumerStep(cfg: Config, s: State, k: Kind, c: Choice)
    requires Inv(cfg, s) && ConsumerCan(cfg, k, s.Get(k), c)
    ensures Inv(cfg, ConsumerNext(cfg, s, k, c))
  {
    if s.Get(k).pc.Working? {
      WorkStep(cfg, s, k, c);
    } else {
      LaneStep(cfg, s, k, c);
    }
  }

  lemma Step(cfg: Config, s: State, act: Action)
    requires Inv(cfg, s) && Enabled(cfg, s, act)
    ensures Inv(cfg, Do(cfg, s, act))
  {
    match act
    case Reader(c) => ReaderStep(cfg, s, c);
    case Consumer(k, c) => ConsumerStep(cfg, s, k, c);
    case Main(c) => MainStep(cfg, s, c);
    case Device(_) => DeviceStep(cfg, s, Do(cfg, s, act));
    case Spurious(k) => SpuriousStep(cfg, s, k, Do(cfg, s, act));
  }
}
