/**
  The playback pipeline of src/ffmpeg_player.cpp as a transition system.

  Four threads (reader, audio, video, main) and the audio device take turns; one
  action is one atomic statement of one thread. A lane is what the two consumer
  threads have in common: a queue with its mutex and condition variable, the
  program counter of the thread that drains it, and that thread's decoder.
  Calls out of the program (av_read_frame, avcodec_send_packet and
  avcodec_receive_frame, SDL_QueueAudio, SDL_PollEvent) return what the action's
  Choice says, within the contract of the callee; what swr_convert returns is a
  function of the frames it has been given so far.
  */
module PlayerModel {
  import opened Options

  const MAX_QUEUE_SIZE: nat := 200
  const AUDIO_BUF_BYTES: nat := 192000
  const SYNC_TOLERANCE: real := 0.02

  datatype Kind = Audio | Video

  /** A demuxed packet; id is its position in the file, kind is None for any other stream. */
  datatype Packet = Packet(id: nat, kind: Option<Kind>)

  /** A decoded frame; pts is None for AV_NOPTS_VALUE. */
  datatype Frame = Frame(content: int, pts: Option<int>)

  /** What the decoder of a stream makes of a packet sequence when it is fed and drained in order. */
  type Decode = seq<Packet> -> seq<Frame>

  /** What swr_convert returns for the last of the frames it has been given: samples, or an error if negative. */
  type Resample = seq<Frame> -> int

  datatype ConfigData = Config(channels: nat, freq: nat, tbNum: int, tbDen: nat,
                               decodeAudio: Decode, decodeVideo: Decode, resample: Resample) {
    function Decoding(k: Kind): Decode {
      if k.Audio? then decodeAudio else decodeVideo
    }

    function BytesPerSecond(): int {
      channels * 2 * freq
    }

    /** data_size: swr_convert is told how many samples fit the buffer. */
    function DataSize(frames: seq<Frame>): int
      requires channels > 0
    {
      var fit := AUDIO_BUF_BYTES / channels / 2;
      (if resample(frames) <= fit then resample(frames) else fit) * channels * 2
    }

    /** The bytes offered to the device for the last of the frames. */
    function Chunk(frames: seq<Frame>): nat
      requires channels > 0
    {
      if DataSize(frames) > 0 then DataSize(frames) else 0
    }

    /** The bytes offered to the device for all of the frames. */
    function Sound(frames: seq<Frame>): nat
      requires channels > 0
    {
      if frames == [] then 0 else Sound(frames[..|frames| - 1]) + Chunk(frames)
    }

    /** get_audio_clock's conversion from bytes to seconds. */
    function ClockSeconds(bytes: int): real {
      if BytesPerSecond() > 0 then bytes as real / BytesPerSecond() as real else 0.0
    }

    function PtsSeconds(f: Frame): real
      requires tbDen > 0
    {
      match f.pts
      case None => 0.0
      case Some(pts) => pts as real * (tbNum as real / tbDen as real)
    }

    /** The test of the wait loop: the frame is more than the tolerance ahead of the clock. */
    predicate Ahead(f: Frame, clock: int)
      requires tbDen > 0
    {
      PtsSeconds(f) > ClockSeconds(clock) + SYNC_TOLERANCE
    }
  }

  predicate ValidConfig(c: ConfigData) {
    && c.channels > 0 && c.freq > 0 && c.tbDen > 0
    && c.decodeAudio([]) == [] && c.decodeVideo([]) == []
  }

  type Config = c: ConfigData | ValidConfig(c) witness Config(2, 44100, 1, 1000, _ => [], _ => [], _ => 0)

  // ---------------------------------------------------------------- state

  datatype Owner = Free | ByReader | ByConsumer

  /** History: the bytes SDL_QueueAudio has taken and refused. */
  datatype Offers = Offers(taken: nat, refused: nat) {
    function Total(): nat { taken + refused }
  }

  /** What the clock read saw first: the device queue, and (as history) all offers and the chunk offered but not yet
      counted at that instant. */
  datatype Sample = Sample(queued: nat, offers: Offers, inFlight: nat) {
    function Played(): int { offers.taken - queued }
  }

  /** The statements a consumer runs on one received frame. */
  datatype Work =
    | Convert
    | Enqueue(bytes: nat)
    | Account(bytes: nat)
    | SampleQueue
    | ReadWritten(sample: Sample)
    | Compare(clock: int, sample: Sample, offers: Offers)
    | Delay
    | Present(clock: int, sample: Sample, offers: Offers, byQuit: bool)

  datatype ConsumerPc =
    | Top
    | Lock
    | Eval                            // the wait predicate, mutex held
    | Block                           // predicate was false, mutex still held
    | Asleep                          // on the condition variable, mutex released
    | Woken
    | Decide                          // line 256 / 299 and the pop
    | Leave(taken: Option<Packet>)    // end of the scope of the lock
    | Send(p: Packet)
    | Receive(p: Packet)
    | Working(p: Packet, f: Frame, work: Work)
    | Release(p: Packet)
    | Done
    | Faulted                         // front() of an empty queue

  /** failed: some call returned an error; refused: how many sends returned EAGAIN. */
  datatype Decoder = Decoder(accepted: seq<Packet>, delivered: seq<Frame>, pending: seq<Frame>,
                             refused: nat, failed: bool)

  /** late: the thread went to sleep after the last notify_all meant for it. */
  datatype Lane = Lane(queue: seq<Packet>, owner: Owner, pc: ConsumerPc, decoder: Decoder,
                       popped: seq<Packet>, freed: seq<Packet>, late: bool)

  datatype ReaderPc =
    | RTop
    | RLockAudio
    | RLockVideo
    | RCheck
    | RUnlockAudio(full: bool)
    | RUnlockVideo(full: bool)
    | RSleep
    | RFetch
    | RRoute(p: Packet)
    | RLock(k: Kind, p: Packet)
    | RPush(k: Kind, p: Packet)
    | RNotify(k: Kind)
    | RUnlock(k: Kind)
    | RStore
    | RNotifyAudio
    | RNotifyVideo
    | RDone

  datatype MainPc =
    | MTop
    | MPoll
    | MStore
    | MNotifyAudio
    | MNotifyVideo
    | MDelay
    | MJoinReader
    | MJoinAudio
    | MJoinVideo
    | MDone

  /** One frame put on the screen and the clock read that let it through. */
  datatype Shown = Shown(f: Frame, clock: int, sample: Sample, offers: Offers, byQuit: bool)

  /** events: how many more user events will arrive; demuxed, dropped, refused and shown are histories. */
  datatype State = State(quit: bool, a: Lane, v: Lane, reader: ReaderPc, main: MainPc, events: nat,
                         demuxed: seq<Packet>, dropped: seq<Packet>,
                         queued: nat, played: nat, refused: nat, written: int, shown: seq<Shown>) {
    function Get(k: Kind): Lane {
      if k.Audio? then a else v
    }

    function Put(k: Kind, l: Lane): State {
      if k.Audio? then this.(a := l) else this.(v := l)
    }

    /** All bytes ever offered to the device. */
    function Sent(): nat {
      played + queued + refused
    }

    function Offered(): Offers {
      Offers(played + queued, refused)
    }
  }

  function EmptyLane(): Lane {
    Lane([], Free, Top, Decoder([], [], [], 0, false), [], [], false)
  }

  function Init(events: nat): State {
    State(false, EmptyLane(), EmptyLane(), RTop, MTop, events, [], [], 0, 0, 0, 0, [])
  }

  // ---------------------------------------------------------------- actions

  datatype Choice =
    | Quiet
    | Eof
    | Demuxed(kind: Option<Kind>)
    | SendOk(pending: seq<Frame>)
    | SendAgain
    | SendFailed(pending: seq<Frame>)
    | Got
    | NeedInput
    | ReceiveFailed(pending: seq<Frame>)
    | Refused
    | NoEvent
    | OtherEvent
    | QuitEvent

  datatype Action =
    | Reader(c: Choice)
    | Consumer(k: Kind, c: Choice)
    | Main(c: Choice)
    | Device(bytes: nat)
    | Spurious(k: Kind)

  /** notify_one and notify_all: a lane's condition variable has at most one waiter. */
  function Wake(l: Lane): Lane {
    if l.pc.Asleep? then l.(pc := Woken, late := false) else l
  }

  /** Bytes offered to the device but not yet added to audio_written_bytes. */
  function InFlight(l: Lane): nat {
    if l.pc.Working? && l.pc.work.Account? then l.pc.work.bytes else 0
  }

  /** A notify_all of the shutdown that is still to be issued for lane k. */
  predicate NotifyPending(s: State, k: Kind) {
    || !(s.reader.RDone? || (k.Audio? && s.reader.RNotifyVideo?))
    || s.main.MStore? || s.main.MNotifyAudio? || (k.Video? && s.main.MNotifyVideo?)
  }

  // The send/receive contract: EAGAIN from one side only if the other side can proceed; without errors, what has been
  // delivered and what is pending is together the decoding of what was accepted.

  predicate SendAllowed(decode: Decode, d: Decoder, p: Packet, c: Choice) {
    match c
    case SendOk(pending) => d.failed || d.delivered + pending == decode(d.accepted + [p])
    case SendAgain => d.pending != []
    case SendFailed(_) => true
    case _ => false
  }

  predicate ReceiveAllowed(d: Decoder, c: Choice) {
    match c
    case Got => d.pending != []
    case NeedInput => d.pending == []
    case ReceiveFailed(_) => true
    case _ => false
  }

  /** SDL_QueueAudio can fail; its result is not looked at. */
  predicate WorkAllowed(w: Work, c: Choice) {
    c.Quiet? || (w.Enqueue? && c.Refused?)
  }

  predicate ConsumerCan(cfg: Config, k: Kind, l: Lane, c: Choice) {
    match l.pc
    case Lock => l.owner.Free? && c.Quiet?
    case Woken => l.owner.Free? && c.Quiet?
    case Send(p) => SendAllowed(cfg.Decoding(k), l.decoder, p, c)
    case Receive(_) => ReceiveAllowed(l.decoder, c)
    case Working(_, _, w) => WorkAllowed(w, c)
    case Asleep => false
    case Done => false
    case Faulted => false
    case _ => c.Quiet?
  }

  predicate ReaderCan(s: State, c: Choice) {
    match s.reader
    case RLockAudio => s.a.owner.Free? && c.Quiet?
    case RLockVideo => s.v.owner.Free? && c.Quiet?
    case RLock(k, _) => s.Get(k).owner.Free? && c.Quiet?
    case RFetch => c.Eof? || c.Demuxed?
    case RDone => false
    case _ => c.Quiet?
  }

  predicate MainCan(s: State, c: Choice) {
    match s.main
    case MPoll => c.NoEvent? || ((c.OtherEvent? || c.QuitEvent?) && s.events > 0)
    case MJoinReader => s.reader.RDone? && c.Quiet?
    case MJoinAudio => s.a.pc.Done? && c.Quiet?
    case MJoinVideo => s.v.pc.Done? && c.Quiet?
    case MDone => false
    case _ => c.Quiet?
  }

  predicate Enabled(cfg: Config, s: State, act: Action) {
    match act
    case Reader(c) => ReaderCan(s, c)
    case Consumer(k, c) => ConsumerCan(cfg, k, s.Get(k), c)
    case Main(c) => MainCan(s, c)
    case Device(n) => 0 < n <= s.queued
    case Spurious(k) => s.Get(k).pc.Asleep?
  }

  // ---------------------------------------------------------------- transitions

  function SendNext(l: Lane, p: Packet, c: Choice): Lane {
    var d := l.decoder;
    match c
    case SendOk(pending) => l.(pc := Receive(p), decoder := d.(accepted := d.accepted + [p], pending := pending))
    case SendAgain => l.(pc := Release(p), decoder := d.(refused := d.refused + 1))
    case SendFailed(pending) => l.(pc := Release(p), decoder := d.(pending := pending, failed := true))
    case _ => l
  }

  function ReceiveNext(k: Kind, l: Lane, p: Packet, c: Choice): Lane
    requires ReceiveAllowed(l.decoder, c)
  {
    var d := l.decoder;
    match c
    case Got =>
      var f := d.pending[0];
      l.(pc := Working(p, f, if k.Audio? then Convert else SampleQueue),
      decoder := d.(delivered := d.delivered + [f], pending := d.pending[1..]))
    case NeedInput => l.(pc := Release(p))
    case ReceiveFailed(pending) => l.(pc := Release(p), decoder := d.(pending := pending, failed := true))
    case _ => l
  }

  /** The consumer steps that concern only the lane and the quit flag. */
  function LaneNext(cfg: Config, k: Kind, l: Lane, quit: bool, late: bool, c: Choice): Lane
    requires ConsumerCan(cfg, k, l, c)
  {
    match l.pc
    case Top => l.(pc := if quit then Done else Lock)
    case Lock => l.(pc := Eval, owner := ByConsumer)
    case Eval => l.(pc := if l.queue != [] || quit then Decide else Block)
    case Block => l.(pc := Asleep, owner := Free, late := late)
    case Woken => l.(pc := Eval, owner := ByConsumer)
    case Decide =>
      if quit && l.queue == [] then l.(pc := Leave(None))
      else if l.queue == [] then l.(pc := Faulted)
      else l.(pc := Leave(Some(l.queue[0])), queue := l.queue[1..], popped := l.popped + [l.queue[0]])
    case Leave(taken) => l.(pc := if taken.Some? then Send(taken.value) else Done, owner := Free)
    case Send(p) => SendNext(l, p, c)
    case Receive(p) => ReceiveNext(k, l, p, c)
    case Release(p) => l.(pc := Top, freed := l.freed + [p])
    case _ => l
  }

  /** The consumer steps on a received frame: lines 263-272 for audio, 308-328 with get_audio_clock for video. */
  function WorkNext(cfg: Config, s: State, k: Kind, c: Choice): State
    requires s.Get(k).pc.Working? && WorkAllowed(s.Get(k).pc.work, c)
  {
    var l := s.Get(k);
    var Working(p, f, w) := l.pc;
    match w
    case Convert =>
      var size := cfg.DataSize(l.decoder.delivered);
      s.Put(k, l.(pc := if size > 0 then Working(p, f, Enqueue(size)) else Receive(p)))
    case Enqueue(n) =>
      var s' := s.Put(k, l.(pc := Working(p, f, Account(n))));
      if c.Refused? then s'.(refused := s.refused + n) else s'.(queued := s.queued + n)
    case Account(n) => s.Put(k, l.(pc := Receive(p))).(written := s.written + n)
    case SampleQueue =>
      s.Put(k, l.(pc := Working(p, f, ReadWritten(Sample(s.queued, s.Offered(), InFlight(s.a))))))
    case ReadWritten(sample) =>
      s.Put(k, l.(pc := Working(p, f, Compare(s.written - sample.queued, sample, s.Offered()))))
    case Compare(clock, sample, offers) =>
      s.Put(k, l.(pc := Working(p, f,
        if !s.quit && cfg.Ahead(f, clock) then Delay else Present(clock, sample, offers, s.quit))))
    case Delay => s.Put(k, l.(pc := Working(p, f, SampleQueue)))
    case Present(clock, sample, offers, byQuit) =>
      s.Put(k, l.(pc := Receive(p))).(shown := s.shown + [Shown(f, clock, sample, offers, byQuit)])
  }

  predicate Full(s: State) {
    |s.a.queue| >= MAX_QUEUE_SIZE || |s.v.queue| >= MAX_QUEUE_SIZE
  }

  function ReaderNext(s: State, c: Choice): State
    requires ReaderCan(s, c)
  {
    match s.reader
    case RTop => s.(reader := if s.quit then RStore else RLockAudio)
    case RLockAudio => s.(reader := RLockVideo, a := s.a.(owner := ByReader))
    case RLockVideo => s.(reader := RCheck, v := s.v.(owner := ByReader))
    case RCheck => s.(reader := RUnlockAudio(Full(s)))
    case RUnlockAudio(full) => s.(reader := RUnlockVideo(full), a := s.a.(owner := Free))
    case RUnlockVideo(full) => s.(reader := if full then RSleep else RFetch, v := s.v.(owner := Free))
    case RSleep => s.(reader := RTop)
    case RFetch =>
      if c.Eof? then s.(reader := RStore)
      else
        var p := Packet(|s.demuxed|, c.kind);
        s.(reader := RRoute(p), demuxed := s.demuxed + [p])
    case RRoute(p) =>
      if p.kind.Some? then s.(reader := RLock(p.kind.value, p))
      else s.(reader := RTop, dropped := s.dropped + [p])
    case RLock(k, p) => s.Put(k, s.Get(k).(owner := ByReader)).(reader := RPush(k, p))
    case RPush(k, p) => s.Put(k, s.Get(k).(queue := s.Get(k).queue + [p])).(reader := RNotify(k))
    case RNotify(k) => s.Put(k, Wake(s.Get(k))).(reader := RUnlock(k))
    case RUnlock(k) => s.Put(k, s.Get(k).(owner := Free)).(reader := RTop)
    case RStore => s.(reader := RNotifyAudio, quit := true)
    case RNotifyAudio => s.(reader := RNotifyVideo, a := Wake(s.a))
    case RNotifyVideo => s.(reader := RDone, v := Wake(s.v))
    case RDone => s
  }

  function MainNext(s: State, c: Choice): State
    requires MainCan(s, c)
  {
    match s.main
    case MTop => s.(main := if s.quit then MJoinReader else MPoll)
    case MPoll =>
      if c.NoEvent? then s.(main := MDelay)
      else s.(main := if c.QuitEvent? then MStore else MPoll, events := s.events - 1)
    case MStore => s.(main := MNotifyAudio, quit := true)
    case MNotifyAudio => s.(main := MNotifyVideo, a := Wake(s.a))
    case MNotifyVideo => s.(main := MDelay, v := Wake(s.v))
    case MDelay => s.(main := MTop)
    case MJoinReader => s.(main := MJoinAudio)
    case MJoinAudio => s.(main := MJoinVideo)
    case MJoinVideo => s.(main := MDone)
    case MDone => s
  }

  function ConsumerNext(cfg: Config, s: State, k: Kind, c: Choice): State
    requires ConsumerCan(cfg, k, s.Get(k), c)
  {
    if s.Get(k).pc.Working? then WorkNext(cfg, s, k, c)
    else s.Put(k, LaneNext(cfg, k, s.Get(k), s.quit, !NotifyPending(s, k), c))
  }

  function Do(cfg: Config, s: State, act: Action): State
    requires Enabled(cfg, s, act)
  {
    match act
    case Reader(c) => ReaderNext(s, c)
    case Consumer(k, c) => ConsumerNext(cfg, s, k, c)
    case Main(c) => MainNext(s, c)
    case Device(n) => s.(queued := s.queued - n, played := s.played + n)
    case Spurious(k) => s.Put(k, Wake(s.Get(k)))
  }

  // ---------------------------------------------------------------- runs

  ghost predicate Legal(cfg: Config, s: State, acts: seq<Action>)
    decreases |acts|
  {
    acts == [] || (Enabled(cfg, s, acts[0]) && Legal(cfg, Do(cfg, s, acts[0]), acts[1..]))
  }

  ghost function Exec(cfg: Config, s: State, acts: seq<Action>): State
    requires Legal(cfg, s, acts)
    decreases |acts|
  {
    if acts == [] then s else Exec(cfg, Do(cfg, s, acts[0]), acts[1..])
  }

  ghost predicate Reachable(cfg: Config, s: State) {
    exists events: nat, acts :: Legal(cfg, Init(events), acts) && s == Exec(cfg, Init(events), acts)
  }

  /** The i-th step of an infinite behaviour is one of the player's. */
  ghost predicate Follows(cfg: Config, ss: nat -> State, acts: nat -> Action, i: nat) {
    Enabled(cfg, ss(i), acts(i)) && ss(i + 1) == Do(cfg, ss(i), acts(i))
  }
}
