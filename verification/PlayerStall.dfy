/**
  When playback stalls. The reader polls queue sizes, the video thread polls the
  audio clock, the consumers wait on their queues; a stall is a state from which
  nothing but such polling can ever happen until the user quits. This module says
  exactly which reachable states those are.
  */
module PlayerStall {
  import opened Options
  import opened PlayerModel
  import opened PlayerInvariant
  import opened PlayerSafety
  import opened PlayerTime

  // ---------------------------------------------------------------- polling and progress

  /** On the way to, in, or back from the condition variable. */
  predicate Waiting(l: Lane) {
    l.pc.Top? || l.pc.Lock? || l.pc.Eval? || l.pc.Block? || l.pc.Asleep? || l.pc.Woken?
  }

  /** The A/V sync loop, lines 313-319. */
  predicate ClockLoop(l: Lane) {
    l.pc.Working? && (l.pc.work.SampleQueue? || l.pc.work.ReadWritten? || l.pc.work.Compare? || l.pc.work.Delay?)
  }

  /** An action that only goes round one of the waiting loops. */
  predicate Polls(cfg: Config, s: State, act: Action) {
    match act
    case Reader(_) => ReaderPolls(s.reader)
    case Consumer(k, _) =>
      var l := s.Get(k);
      || Waiting(l)
      || (ClockLoop(l) && (l.pc.work.Compare? ==> !s.quit && cfg.Ahead(l.pc.f, l.pc.work.clock)))
    case Main(_) => true
    case Device(_) => false
    case Spurious(_) => true
  }

  /** The user does not quit. */
  predicate Calm(s: State, act: Action) {
    act.Main? ==> !act.c.QuitEvent? && !s.main.MStore?
  }

  /** Everybody waits, and what each waits for is not there. */
  predicate Stalled(cfg: Config, s: State) {
    && ReaderPolls(s.reader) && Full(s)
    && Waiting(s.a) && s.a.queue == []
    && (|| (Waiting(s.v) && s.v.queue == [])
        || (ClockLoop(s.v) && cfg.Ahead(s.v.pc.f, s.written - s.queued)))
    && s.queued == 0
  }

  /** What the demuxer can give. */
  predicate IsFetch(next: Choice) {
    next.Eof? || next.Demuxed?
  }

  /** A fetch gives what the file has next. */
  predicate Gives(s: State, act: Action, next: Choice) {
    act.Reader? && s.reader.RFetch? ==> act.c == next
  }

  /** A run without quit and without spurious wake-ups whose last action is progress; the file has next to give. */
  ghost predicate ProgressRun(cfg: Config, s: State, next: Choice, acts: seq<Action>)
    decreases |acts|
  {
    && acts != [] && Enabled(cfg, s, acts[0]) && Calm(s, acts[0]) && Gives(s, acts[0], next) && !acts[0].Spurious?
    && if |acts| == 1 then !Polls(cfg, s, acts[0]) else ProgressRun(cfg, Do(cfg, s, acts[0]), next, acts[1..])
  }

  // ---------------------------------------------------------------- the capacity check

  /** From the check on, three statements of the reader. */
  function AfterCheck(s: State): ReaderPc
    requires s.reader.RCheck?
  {
    ReaderNext(ReaderNext(ReaderNext(s, Quiet), Quiet), Quiet).reader
  }

  /** With fewer than 200 packets in each queue the reader goes on to a fetch, with 200 in one of them it sleeps. */
  lemma CheckExact(s: State)
    requires s.reader.RCheck?
    ensures AfterCheck(s).RFetch? <==> |s.a.queue| < 200 && |s.v.queue| < 200
    ensures AfterCheck(s).RSleep? <==> |s.a.queue| >= 200 || |s.v.queue| >= 200
  {
  }

  // ---------------------------------------------------------------- the shape of a stall

  /**
    The only possible stall: the video queue is exactly full, the audio queue empty, the device has played every byte it
    ever took, and the video thread holds a frame beyond the clock of all bytes counted plus the tolerance.
    */
  lemma StallShape(cfg: Config, s: State)
    requires Reachable(cfg, s) && Stalled(cfg, s)
    ensures |s.v.queue| == 200 && s.a.queue == []
    ensures s.queued == 0 && s.written == s.played + s.refused
    ensures ClockLoop(s.v) && cfg.PtsSeconds(s.v.pc.f) > cfg.ClockSeconds(s.played + s.refused) + 0.02
  {
    ReachableInv(cfg, s);
  }

  lemma StallHands(s: State)
    requires ReaderPolls(s.reader) && Waiting(s.a) && ClockLoop(s.v)
    ensures Hand(s.a) == [] && Hand(s.v) == [s.v.pc.p] && forall kind :: ReaderHand(s.reader, kind) == []
  {
  }

  lemma BeforeTheLast(front: seq<Packet>, p: Packet, queue: seq<Packet>, all: seq<Packet>)
    requires front + [p] + queue == all
    ensures |all| > |queue| && p == all[|all| - |queue| - 1]
  {
    assert all[|front|] == p;
  }

  /** At a stall all audio demuxed so far has been used up and the frame held is of the video packet with exactly 200 behind it. */
  lemma StallInterleaving(cfg: Config, s: State)
    requires Reachable(cfg, s) && Stalled(cfg, s)
    ensures s.a.freed == Of(s.demuxed, Some(Audio))
    ensures
      var video := Of(s.demuxed, Some(Video));
      |video| > 200 && s.v.pc.p == video[|video| - 201]
  {
    StallShape(cfg, s);
    StallHands(s);
    StreamOrder(cfg, s, Audio);
    assert s.Get(Audio).freed == Of(s.demuxed, Some(Audio));
    StreamOrder(cfg, s, Video);
    assert s.Get(Video).freed + [s.v.pc.p] + s.v.queue == Of(s.demuxed, Some(Video));
    BeforeTheLast(s.v.freed, s.v.pc.p, s.v.queue, Of(s.demuxed, Some(Video)));
  }

  // ---------------------------------------------------------------- a stall is for good

  lemma StalledReader(s: State, c: Choice)
    requires ReaderPolls(s.reader) && Full(s) && CapacityInv(s) && !s.quit && ReaderCan(s, c)
    ensures
      var s' := ReaderNext(s, c);
      && ReaderPolls(s'.reader) && !s'.quit
      && s'.a == s.a.(owner := s'.a.owner) && s'.v == s.v.(owner := s'.v.owner)
      && s'.queued == s.queued && s'.written == s.written
  {
  }

  lemma StalledWaiter(cfg: Config, k: Kind, l: Lane, late: bool, c: Choice)
    requires Waiting(l) && l.queue == [] && ConsumerCan(cfg, k, l, c)
    ensures Waiting(LaneNext(cfg, k, l, false, late, c)) && LaneNext(cfg, k, l, false, late, c).queue == []
  {
  }

  lemma StalledClock(cfg: Config, s: State, c: Choice)
    requires ClockLoop(s.v) && cfg.Ahead(s.v.pc.f, s.written) && s.queued == 0 && !s.quit
    requires WorkInv(cfg, s, s.v.pc.f, s.v.pc.work) && ConsumerCan(cfg, Video, s.v, c)
    ensures Polls(cfg, s, Consumer(Video, c))
    ensures
      var s' := WorkNext(cfg, s, Video, c);
      && ClockLoop(s'.v) && s'.v.pc.f == s.v.pc.f && s' == s.(v := s'.v) && s'.v.queue == s.v.queue
  {
    if s.v.pc.work.Compare? {
      ClockMonotone(cfg, s.v.pc.work.clock, s.written);
    }
  }

  lemma StalledConsumer(cfg: Config, s: State, k: Kind, c: Choice)
    requires Inv(cfg, s) && !s.quit && Stalled(cfg, s) && ConsumerCan(cfg, k, s.Get(k), c)
    ensures Polls(cfg, s, Consumer(k, c)) && Stalled(cfg, ConsumerNext(cfg, s, k, c)) && !ConsumerNext(cfg, s, k, c).quit
  {
    if Waiting(s.Get(k)) {
      StalledWaiter(cfg, k, s.Get(k), !NotifyPending(s, k), c);
    } else {
      StalledClock(cfg, s, c);
    }
  }

  lemma StalledStays(cfg: Config, s: State, act: Action)
    requires Inv(cfg, s) && !s.quit && Stalled(cfg, s) && Enabled(cfg, s, act) && Calm(s, act)
    ensures Polls(cfg, s, act) && Stalled(cfg, Do(cfg, s, act)) && !Do(cfg, s, act).quit
  {
    match act
    case Reader(c) => StalledReader(s, c);
    case Consumer(k, c) => StalledConsumer(cfg, s, k, c);
    case _ =>
  }

  /** From a stall nothing but polling ever happens, in any run in which the user does not quit. */
  lemma {:induction false} StalledForever(cfg: Config, s: State, next: Choice, acts: seq<Action>)
    requires Inv(cfg, s) && !s.quit && Stalled(cfg, s)
    ensures !ProgressRun(cfg, s, next, acts)
    decreases |acts|
  {
    if acts != [] && Enabled(cfg, s, acts[0]) && Calm(s, acts[0]) {
      StalledStays(cfg, s, acts[0]);
      Step(cfg, s, acts[0]);
      StalledForever(cfg, Do(cfg, s, acts[0]), next, acts[1..]);
    }
  }

  // ---------------------------------------------------------------- anything else gets on

  /** An outcome the callees allow at this point, without an error where the decoder keeps its contract. */
  function Outcome(cfg: Config, k: Kind, l: Lane): Choice {
    match l.pc
    case Send(p) =>
      var all := cfg.Decoding(k)(l.decoder.accepted + [p]);
      if l.decoder.delivered <= all then SendOk(all[|l.decoder.delivered|..]) else SendFailed([])
    case Receive(_) => if l.decoder.pending != [] then Got else NeedInput
    case _ => Quiet
  }

  /** The step that takes the reader round its loop, or the consumer step that clears its way. */
  function ReaderForward(s: State): Action {
    if s.reader.RLockAudio? && s.a.owner.ByConsumer? then Consumer(Audio, Quiet)
    else if s.reader.RLockVideo? && s.v.owner.ByConsumer? then Consumer(Video, Quiet)
    else Reader(Quiet)
  }

  /** The step that takes a waiting consumer to its queue, or the step that clears its way. */
  function ConsumerForward(s: State, k: Kind): Action {
    var l := s.Get(k);
    if (l.pc.Lock? || l.pc.Woken?) && l.owner.ByReader? then ReaderForward(s) else Consumer(k, Quiet)
  }

  /** The reader outside its capacity loop. */
  function ReaderWork(s: State, next: Choice): Action {
    match s.reader
    case RFetch => Reader(next)
    case RLock(k, _) => if s.Get(k).owner.ByConsumer? then Consumer(k, Quiet) else Reader(Quiet)
    case _ => Reader(Quiet)
  }

  /** A schedule that reaches progress from any state that is not stalled. */
  function Forward(cfg: Config, s: State, next: Choice): Action {
    if s.queued > 0 then Device(s.queued)
    else if !Waiting(s.a) then Consumer(Audio, Outcome(cfg, Audio, s.a))
    else if !Waiting(s.v) && !ClockLoop(s.v) then Consumer(Video, Outcome(cfg, Video, s.v))
    else if !ReaderPolls(s.reader) then ReaderWork(s, next)
    else if s.a.queue != [] then ConsumerForward(s, Audio)
    else if Waiting(s.v) && s.v.queue != [] then ConsumerForward(s, Video)
    else if !Full(s) then ReaderForward(s)
    else Consumer(Video, Quiet)
  }

  /** How far the reader is from a fetch when there is room, from letting go of its mutexes when there is none. */
  function ReaderDistance(r: ReaderPc, full: bool): nat {
    match r
    case RSleep => if full then 0 else 8
    case RTop => if full then 0 else 7
    case RLockAudio => if full then 0 else 6
    case RLockVideo => if full then 4 else 5
    case RCheck => if full then 3 else 4
    case RUnlockAudio(b) => if full then 2 else if b then 10 else 3
    case RUnlockVideo(b) => if full then 1 else if b then 9 else 2
    case _ => 0
  }

  /** How far a consumer is from its queue or its sleep, or the video thread from a fresh comparison. */
  function LaneDistance(cfg: Config, s: State, l: Lane): nat {
    match l.pc
    case Top => 6
    case Lock => 5
    case Woken => 5
    case Eval => 4
    case Block => 3
    case Working(_, f, ReadWritten(sample)) => if cfg.Ahead(f, s.written - sample.queued) then 9 else 4
    case Working(_, f, Compare(clock, _, _)) => if cfg.Ahead(f, clock) then 8 else 3
    case Working(_, _, Delay) => 7
    case Working(_, _, SampleQueue) => 6
    case _ => 0
  }

  function Distance(cfg: Config, s: State): nat {
    ReaderDistance(s.reader, Full(s)) + LaneDistance(cfg, s, s.a) + LaneDistance(cfg, s, s.v)
  }

  /** One good step: progress, or polling that comes closer to it. */
  ghost predicate Good(cfg: Config, s: State, next: Choice, act: Action) {
    && Enabled(cfg, s, act) && Calm(s, act) && Gives(s, act, next) && !act.Spurious?
    && (|| !Polls(cfg, s, act)
        || (Distance(cfg, Do(cfg, s, act)) < Distance(cfg, s) && !Do(cfg, s, act).quit && !Stalled(cfg, Do(cfg, s, act))))
  }

  lemma OutcomeAllowed(cfg: Config, k: Kind, l: Lane)
    requires !Waiting(l) && !l.pc.Done? && !l.pc.Faulted?
    ensures ConsumerCan(cfg, k, l, Outcome(cfg, k, l))
  {
  }

  lemma WorkIsProgress(cfg: Config, s: State, next: Choice, k: Kind)
    requires LaneInv(cfg.Decoding(k), s.quit, s.Get(k)) && !s.quit && !Waiting(s.Get(k)) && !ClockLoop(s.Get(k))
    ensures Good(cfg, s, next, Consumer(k, Outcome(cfg, k, s.Get(k))))
  {
    OutcomeAllowed(cfg, k, s.Get(k));
    assert !Polls(cfg, s, Consumer(k, Outcome(cfg, k, s.Get(k))));
  }

  lemma WaiterIsGood(cfg: Config, s: State, next: Choice, k: Kind)
    requires LaneInv(cfg.Decoding(k), s.quit, s.Get(k)) && !s.quit && !Stalled(cfg, s)
    requires Waiting(s.Get(k)) && !s.Get(k).pc.Asleep?
    requires s.Get(k).pc.Lock? || s.Get(k).pc.Woken? ==> s.Get(k).owner.Free?
    ensures Good(cfg, s, next, Consumer(k, Quiet))
  {
  }

  /** A step of the reader's capacity loop changes two owners and its own place at most. */
  lemma ReaderPollsOnly(s: State)
    requires ReaderPolls(s.reader) && ReaderCan(s, Quiet) && !s.quit
    ensures
      var s' := ReaderNext(s, Quiet);
      s' == s.(reader := s'.reader, a := s.a.(owner := s'.a.owner), v := s.v.(owner := s'.v.owner))
  {
  }

  lemma ReaderComesCloser(s: State)
    requires CapacityInv(s) && !s.quit && ReaderPolls(s.reader) && ReaderCan(s, Quiet)
    requires !Full(s) || s.reader.RLockVideo? || s.reader.RCheck? || s.reader.RUnlockAudio? || s.reader.RUnlockVideo?
    ensures ReaderDistance(ReaderNext(s, Quiet).reader, Full(s)) < ReaderDistance(s.reader, Full(s))
  {
  }

  lemma ReaderIsGood(cfg: Config, s: State, next: Choice)
    requires CapacityInv(s) && !s.quit && !Stalled(cfg, s) && ReaderPolls(s.reader) && ReaderCan(s, Quiet)
    requires !Full(s) || s.reader.RLockVideo? || s.reader.RCheck? || s.reader.RUnlockAudio? || s.reader.RUnlockVideo?
    ensures Good(cfg, s, next, Reader(Quiet))
  {
    ReaderPollsOnly(s);
    ReaderComesCloser(s);
    var s' := ReaderNext(s, Quiet);
    assert s'.quit == s.quit && Full(s') == Full(s);
    assert LaneDistance(cfg, s', s'.a) == LaneDistance(cfg, s, s.a);
    assert LaneDistance(cfg, s', s'.v) == LaneDistance(cfg, s, s.v);
  }

  lemma ReaderForwardIsGood(cfg: Config, s: State, next: Choice)
    requires LaneInv(cfg.decodeAudio, s.quit, s.a) && LaneInv(cfg.decodeVideo, s.quit, s.v)
    requires SharedInv(s, Audio) && SharedInv(s, Video) && CapacityInv(s) && !s.quit && !Stalled(cfg, s)
    requires ReaderPolls(s.reader) && Waiting(s.a) && (Waiting(s.v) || ClockLoop(s.v))
    requires !Full(s) || s.reader.RLockVideo? || s.reader.RCheck? || s.reader.RUnlockAudio? || s.reader.RUnlockVideo?
    ensures Good(cfg, s, next, ReaderForward(s))
  {
    if s.reader.RLockAudio? && s.a.owner.ByConsumer? {
      WaiterIsGood(cfg, s, next, Audio);
    } else if s.reader.RLockVideo? && s.v.owner.ByConsumer? {
      WaiterIsGood(cfg, s, next, Video);
    } else {
      ReaderIsGood(cfg, s, next);
    }
  }

  lemma ClockIsGood(cfg: Config, s: State, next: Choice)
    requires !s.quit && !Stalled(cfg, s) && ClockLoop(s.v) && s.queued == 0 && !cfg.Ahead(s.v.pc.f, s.written)
    ensures Good(cfg, s, next, Consumer(Video, Quiet))
  {
  }

  lemma ConsumerForwardIsGood(cfg: Config, s: State, next: Choice, k: Kind)
    requires Inv(cfg, s) && !s.quit && !Stalled(cfg, s)
    requires ReaderPolls(s.reader) && Waiting(s.a) && (Waiting(s.v) || ClockLoop(s.v))
    requires Waiting(s.Get(k)) && s.Get(k).queue != []
    ensures Good(cfg, s, next, ConsumerForward(s, k))
  {
    var l := s.Get(k);
    if (l.pc.Lock? || l.pc.Woken?) && l.owner.ByReader? {
      ReaderForwardIsGood(cfg, s, next);
    } else {
      WaiterIsGood(cfg, s, next, k);
    }
  }

  lemma ReaderWorkIsGood(cfg: Config, s: State, next: Choice)
    requires Inv(cfg, s) && !s.quit && !Stalled(cfg, s) && !ReaderPolls(s.reader) && IsFetch(next)
    requires Waiting(s.a) && (Waiting(s.v) || ClockLoop(s.v))
    ensures Good(cfg, s, next, ReaderWork(s, next))
  {
    if s.reader.RLock? && s.Get(s.reader.k).owner.ByConsumer? {
      WaiterIsGood(cfg, s, next, s.reader.k);
    } else {
      assert Enabled(cfg, s, ReaderWork(s, next)) && !Polls(cfg, s, ReaderWork(s, next));
    }
  }

  lemma ForwardIsGood(cfg: Config, s: State, next: Choice)
    requires Inv(cfg, s) && !s.quit && !Stalled(cfg, s) && IsFetch(next)
    ensures Good(cfg, s, next, Forward(cfg, s, next))
  {
    if s.queued > 0 {
    } else if !Waiting(s.a) {
      WorkIsProgress(cfg, s, next, Audio);
    } else if !Waiting(s.v) && !ClockLoop(s.v) {
      WorkIsProgress(cfg, s, next, Video);
    } else if !ReaderPolls(s.reader) {
      ReaderWorkIsGood(cfg, s, next);
    } else if s.a.queue != [] {
      ConsumerForwardIsGood(cfg, s, next, Audio);
    } else if Waiting(s.v) && s.v.queue != [] {
      ConsumerForwardIsGood(cfg, s, next, Video);
    } else if !Full(s) {
      ReaderForwardIsGood(cfg, s, next);
    } else {
      ClockIsGood(cfg, s, next);
    }
  }

  lemma {:induction false} ProgressComes(cfg: Config, s: State, next: Choice) returns (acts: seq<Action>)
    requires Inv(cfg, s) && !s.quit && !Stalled(cfg, s) && IsFetch(next)
    ensures ProgressRun(cfg, s, next, acts)
    decreases Distance(cfg, s)
  {
    var act := Forward(cfg, s, next);
    ForwardIsGood(cfg, s, next);
    if Polls(cfg, s, act) {
      Step(cfg, s, act);
      var rest := ProgressComes(cfg, Do(cfg, s, act), next);
      acts := [act] + rest;
      assert acts[1..] == rest;
    } else {
      acts := [act];
    }
  }

  /** Some run without quit and without spurious wake-ups makes progress. */
  ghost predicate CanProgress(cfg: Config, s: State, next: Choice) {
    exists acts :: ProgressRun(cfg, s, next, acts)
  }

  lemma ProgressRunShows(cfg: Config, s: State, next: Choice, acts: seq<Action>)
    requires ProgressRun(cfg, s, next, acts)
    ensures CanProgress(cfg, s, next)
  {
  }

  /** Among all reachable states before quit exactly the stalled ones are stuck, whatever the file has next. */
  lemma StallExact(cfg: Config, s: State, next: Choice)
    requires Reachable(cfg, s) && !s.quit && IsFetch(next)
    ensures Stalled(cfg, s) <==> !CanProgress(cfg, s, next)
  {
    ReachableInv(cfg, s);
    if Stalled(cfg, s) {
      forall acts ensures !ProgressRun(cfg, s, next, acts) {
        StalledForever(cfg, s, next, acts);
      }
    } else {
      var acts := ProgressComes(cfg, s, next);
      ProgressRunShows(cfg, s, next, acts);
    }
  }
}
