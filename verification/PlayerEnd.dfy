/**
  That playback ends: a file that cannot stall is played on every fair schedule until
  quit is stored, and then every thread comes to its end or to the one sleep it cannot
  leave. Fair schedules exist.
  */
module PlayerEnd {
  import opened PlayerModel
  import opened PlayerInvariant
  import opened PlayerSafety
  import opened PlayerRely
  import opened PlayerShutdown
  import opened PlayerStall
  import opened PlayerProgress
  import opened PlayerFile

  // ---------------------------------------------------------------- what is left to do

  /** Packets queued, the place in the loop, frames to come, and the place in the work on a frame. */
  datatype LaneBacklog = LaneBacklog(packets: nat, place: nat, frames: nat, work: nat)

  datatype Backlog = Backlog(reading: nat, a: LaneBacklog, v: LaneBacklog, queued: nat)

  predicate LessLaneBacklog(x: LaneBacklog, y: LaneBacklog) {
    || x.packets < y.packets
    || (x.packets == y.packets && (x.place < y.place || (x.place == y.place &&
        (x.frames < y.frames || (x.frames == y.frames && x.work < y.work)))))
  }

  /** Lexicographic order: reader, audio, video, device. */
  predicate LessBacklog(x: Backlog, y: Backlog) {
    || x.reading < y.reading
    || (x.reading == y.reading && (LessLaneBacklog(x.a, y.a) || (x.a == y.a &&
        (LessLaneBacklog(x.v, y.v) || (x.v == y.v && x.queued < y.queued)))))
  }

  predicate NoMoreBacklog(x: Backlog, y: Backlog) {
    x == y || LessBacklog(x, y)
  }

  lemma LessThenNoMore(x: Backlog, y: Backlog, z: Backlog)
    requires NoMoreBacklog(y, z)
    ensures LessBacklog(x, y) ==> LessBacklog(x, z)
    ensures NoMoreBacklog(x, y) ==> NoMoreBacklog(x, z)
  {
  }

  function ReadingPlace(r: ReaderPc): nat {
    match r
    case RRoute(_) => 15
    case RLock(_, _) => 14
    case RPush(_, _) => 13
    case RNotify(_) => 12
    case RUnlock(_) => 11
    case RStore => 5
    case _ => 6
  }

  function LanePlace(pc: ConsumerPc): nat {
    match pc
    case Leave(_) => 9
    case Send(_) => 8
    case Receive(_) => 7
    case Working(_, _, _) => 7
    case Release(_) => 6
    case Done => 0
    case Faulted => 0
    case _ => 5
  }

  function WorkPlace(pc: ConsumerPc): nat {
    if !pc.Working? then 0
    else
      match pc.work
      case Convert => 3
      case Enqueue(_) => 2
      case Account(_) => 1
      case Present(_, _, _, _) => 1
      case _ => 2
  }

  function BacklogOfLane(l: Lane): LaneBacklog {
    LaneBacklog(|l.queue|, LanePlace(l.pc), |l.decoder.pending|, WorkPlace(l.pc))
  }

  function BacklogOf(file: seq<Packet>, s: State): Backlog
    requires s.demuxed <= file
  {
    Backlog(10 * (|file| - |s.demuxed|) + ReadingPlace(s.reader), BacklogOfLane(s.a), BacklogOfLane(s.v), s.queued)
  }

  lemma LaneShrinks(cfg: Config, k: Kind, l: Lane, late: bool, c: Choice)
    requires LaneInv(cfg.Decoding(k), false, l) && !l.pc.Working? && ConsumerCan(cfg, k, l, c)
    ensures
      var l' := LaneNext(cfg, k, l, false, late, c);
      if Waiting(l) then BacklogOfLane(l') == BacklogOfLane(l) else LessLaneBacklog(BacklogOfLane(l'), BacklogOfLane(l))
  {
  }

  lemma FrameShrinks(cfg: Config, s: State, k: Kind, c: Choice)
    requires !s.quit && s.Get(k).pc.Working? && ConsumerCan(cfg, k, s.Get(k), c)
    ensures
      var l, l' := s.Get(k), WorkNext(cfg, s, k, c).Get(k);
      if Polls(cfg, s, Consumer(k, c)) then BacklogOfLane(l') == BacklogOfLane(l) else LessLaneBacklog(BacklogOfLane(l'), BacklogOfLane(l))
  {
  }

  /** What of the rest a consumer's step leaves alone. */
  lemma ConsumerLeavesRest(cfg: Config, s: State, k: Kind, c: Choice)
    requires ConsumerCan(cfg, k, s.Get(k), c) && (s.Get(k).pc.Working? ==> (k.Audio? <==> AudioWork(s.Get(k).pc.work)))
    ensures
      var s' := ConsumerNext(cfg, s, k, c);
      && s'.reader == s.reader && s'.demuxed == s.demuxed
      && (if k.Audio? then s'.v == s.v else s'.a == s.a && s'.queued == s.queued)
  {
    if s.Get(k).pc.Working? {
      WorkNextWorks(cfg, s, k, c);
    }
  }

  lemma ConsumerShrinks(cfg: Config, file: seq<Packet>, s: State, k: Kind, c: Choice)
    requires LaneInv(cfg.Decoding(k), s.quit, s.Get(k)) && !s.quit && ConsumerCan(cfg, k, s.Get(k), c) && s.demuxed <= file
    requires s.Get(k).pc.Working? ==> (k.Audio? <==> AudioWork(s.Get(k).pc.work))
    ensures
      var s' := ConsumerNext(cfg, s, k, c);
      && s'.demuxed <= file
      && (if Polls(cfg, s, Consumer(k, c)) then s'.queued == s.queued ==> BacklogOf(file, s') == BacklogOf(file, s)
          else LessBacklog(BacklogOf(file, s'), BacklogOf(file, s)))
  {
    ConsumerLeavesRest(cfg, s, k, c);
    if s.Get(k).pc.Working? {
      FrameShrinks(cfg, s, k, c);
    } else {
      LaneShrinks(cfg, k, s.Get(k), !NotifyPending(s, k), c);
    }
  }

  lemma ReaderShrinks(file: seq<Packet>, s: State, c: Choice)
    requires !s.quit && ReaderCan(s, c) && !ReaderPolls(s.reader) && QuitInv(s)
    requires !ReaderNext(s, c).quit && s.demuxed <= file && ReaderNext(s, c).demuxed <= file
    ensures LessBacklog(BacklogOf(file, ReaderNext(s, c)), BacklogOf(file, s))
  {
  }

  lemma PollingKeepsBacklog(cfg: Config, file: seq<Packet>, s: State, act: Action, s': State)
    requires PollStep(cfg, s, act, s') && s.demuxed <= file
    ensures s'.demuxed <= file && BacklogOf(file, s') == BacklogOf(file, s)
  {
    PollsRest(cfg, s, act, s');
    match act
    case Reader(c) => ReaderPollsOnly(s);
    case Consumer(k, c) =>
      ReachableLane(cfg, s, k);
      WorkKinds(cfg, s, k);
      ConsumerShrinks(cfg, file, s, k, c);
    case Main(c) => QuitFacts(cfg, s); MainPolls(s, c);
    case _ =>
  }

  lemma WorkKinds(cfg: Config, s: State, k: Kind)
    requires Reachable(cfg, s)
    ensures s.Get(k).pc.Working? ==> (k.Audio? <==> AudioWork(s.Get(k).pc.work))
  {
    ReachableInv(cfg, s);
    assert ClockInv(cfg, s);
  }

  lemma ProgressShrinks(cfg: Config, file: seq<Packet>, s: State, act: Action)
    requires Reachable(cfg, s) && !s.quit && Enabled(cfg, s, act) && !Do(cfg, s, act).quit && !Polls(cfg, s, act)
    requires s.demuxed <= file && Do(cfg, s, act).demuxed <= file
    ensures LessBacklog(BacklogOf(file, Do(cfg, s, act)), BacklogOf(file, s))
  {
    match act
    case Reader(c) => QuitFacts(cfg, s); ReaderShrinks(file, s, c);
    case Consumer(k, c) =>
      ReachableLane(cfg, s, k);
      WorkKinds(cfg, s, k);
      ConsumerShrinks(cfg, file, s, k, c);
    case _ =>
  }

  // ---------------------------------------------------------------- playing to the end

  /** At the j-th state no decoder has failed and what has been read is of the file. */
  ghost predicate PlaysFileAt(file: seq<Packet>, ss: nat -> State, j: nat) {
    ErrorFree(ss(j)) && ss(j).demuxed <= file
  }

  ghost predicate PlaysFile(file: seq<Packet>, ss: nat -> State) {
    forall j: nat :: PlaysFileAt(file, ss, j)
  }

  lemma StepBacklog(cfg: Config, file: seq<Packet>, ss: nat -> State, acts: nat -> Action, i: nat)
    requires RunsAt(cfg, ss, acts, i) && Reachable(cfg, ss(i)) && !ss(i).quit && !ss(i + 1).quit
    requires PlaysFileAt(file, ss, i) && PlaysFileAt(file, ss, i + 1)
    ensures NoMoreBacklog(BacklogOf(file, ss(i + 1)), BacklogOf(file, ss(i)))
    ensures !Polls(cfg, ss(i), acts(i)) ==> LessBacklog(BacklogOf(file, ss(i + 1)), BacklogOf(file, ss(i)))
  {
    StillFollows(cfg, ss, acts, i);
    if Polls(cfg, ss(i), acts(i)) {
      PollingKeepsBacklog(cfg, file, ss(i), acts(i), ss(i + 1));
    } else {
      ProgressShrinks(cfg, file, ss(i), acts(i));
    }
  }

  lemma {:induction false} BacklogNeverGrows(cfg: Config, file: seq<Packet>, ss: nat -> State, acts: nat -> Action, i: nat, m: nat)
    requires Behaviour(cfg, ss, acts) && PlaysFile(file, ss) && i <= m && !QuitAfter(ss, i)
    ensures PlaysFileAt(file, ss, i) && PlaysFileAt(file, ss, m)
    ensures NoMoreBacklog(BacklogOf(file, ss(m)), BacklogOf(file, ss(i)))
    decreases m - i
  {
    if i < m {
      BehaviourReachable(cfg, ss, acts, i);
      assert PlaysFileAt(file, ss, i + 1);
      StepBacklog(cfg, file, ss, acts, i);
      BacklogNeverGrows(cfg, file, ss, acts, i + 1, m);
      LessThenNoMore(BacklogOf(file, ss(m)), BacklogOf(file, ss(i + 1)), BacklogOf(file, ss(i)));
    }
  }

  /** Progress comes, and there is less left to do behind it. */
  lemma LessIsLeft(cfg: Config, file: seq<Packet>, ss: nat -> State, acts: nat -> Action, i: nat) returns (m: nat)
    requires FairPlay(cfg, ss, acts) && PlaysFile(file, ss) && !CanStall(cfg, file) && !QuitAfter(ss, i)
    ensures i < m && PlaysFileAt(file, ss, i) && PlaysFileAt(file, ss, m)
    ensures LessBacklog(BacklogOf(file, ss(m)), BacklogOf(file, ss(i)))
  {
    assert PlaysFileAt(file, ss, i);
    PlaysOn(cfg, file, ss, acts, i);
    var j: nat :| i <= j && !Polls(cfg, ss(j), acts(j));
    m := j + 1;
    BacklogNeverGrows(cfg, file, ss, acts, i, j);
    BehaviourReachable(cfg, ss, acts, j);
    assert PlaysFileAt(file, ss, m);
    StepBacklog(cfg, file, ss, acts, j);
    LessThenNoMore(BacklogOf(file, ss(m)), BacklogOf(file, ss(j)), BacklogOf(file, ss(i)));
  }

  lemma {:induction false} QuitComes(cfg: Config, file: seq<Packet>, ss: nat -> State, acts: nat -> Action, i: nat)
    requires FairPlay(cfg, ss, acts) && PlaysFile(file, ss) && !CanStall(cfg, file) && PlaysFileAt(file, ss, i)
    ensures QuitAfter(ss, 0)
    decreases BacklogOf(file, ss(i)).reading,
      BacklogOf(file, ss(i)).a.packets, BacklogOf(file, ss(i)).a.place, BacklogOf(file, ss(i)).a.frames, BacklogOf(file, ss(i)).a.work,
      BacklogOf(file, ss(i)).v.packets, BacklogOf(file, ss(i)).v.place, BacklogOf(file, ss(i)).v.frames, BacklogOf(file, ss(i)).v.work,
      BacklogOf(file, ss(i)).queued
  {
    if !QuitAfter(ss, i) {
      var m := LessIsLeft(cfg, file, ss, acts, i);
      QuitComes(cfg, file, ss, acts, m);
    }
  }

  /** A file that cannot stall is played to its end, or until the user quits, on every fair schedule. */
  lemma PlaysToTheEnd(cfg: Config, file: seq<Packet>, ss: nat -> State, acts: nat -> Action)
    requires FairPlay(cfg, ss, acts) && PlaysFile(file, ss) && !CanStall(cfg, file)
    ensures QuitAfter(ss, 0)
  {
    assert PlaysFileAt(file, ss, 0);
    QuitComes(cfg, file, ss, acts, 0);
  }

  /** And everything comes to rest: main past its joins exactly when no consumer sleeps for good. */
  lemma PlaybackEnds(cfg: Config, file: seq<Packet>, ss: nat -> State, acts: nat -> Action) returns (i: nat)
    requires FairPlay(cfg, ss, acts) && PlaysFile(file, ss) && !CanStall(cfg, file)
    ensures Settled(cfg, ss(i)) && ss(i).quit && ss(i).reader.RDone?
    ensures ss(i).main.MDone? <==> !ss(i).a.late && !ss(i).v.late
  {
    PlaysToTheEnd(cfg, file, ss, acts);
    var q: nat :| ss(q).quit;
    i := SettlesAfterQuit(cfg, ss, acts, q);
    BehaviourReachable(cfg, ss, acts, i);
    ShutdownOutcome(cfg, ss(i));
  }

  lemma SettlesAfterQuit(cfg: Config, ss: nat -> State, acts: nat -> Action, q: nat) returns (i: nat)
    requires Behaviour(cfg, ss, acts) && ss(q).quit
    ensures Settled(cfg, ss(i))
  {
    var tt: nat -> State, bcts: nat -> Action := (n: nat) => ss(q + n), (n: nat) => acts(q + n);
    BehaviourReachable(cfg, ss, acts, q);
    ShutdownTerminates(cfg, tt, bcts);
    var n: nat :| !Follows(cfg, tt, bcts, n);
    i := q + n;
    assert RunsAt(cfg, ss, acts, i);
  }

  // ---------------------------------------------------------------- fair schedules exist

  lemma SettledIsFair(cfg: Config, s: State) returns (ss: nat -> State, acts: nat -> Action)
    requires Reachable(cfg, s) && Settled(cfg, s)
    ensures FairPlay(cfg, ss, acts) && ss(0) == s
  {
    ss, acts := (n: nat) => s, (n: nat) => Main(Quiet);
    ShutdownOutcome(cfg, s);
    forall i: nat
      ensures RunsAt(cfg, ss, acts, i)
    {
    }
    forall me: Thread
      ensures Fair(cfg, ss, acts, me)
    {
      assert !ReadyAfter(cfg, ss, me, 0);
    }
    forall i: nat
      ensures !LoadedFrom(ss, i)
    {
      assert ss(i).queued == 0;
    }
  }

  /** A fair schedule with one more step in front. */
  lemma OneStepBefore(cfg: Config, s: State, act: Action, ss: nat -> State, acts: nat -> Action)
    returns (tt: nat -> State, bcts: nat -> Action)
    requires Reachable(cfg, s) && Enabled(cfg, s, act) && !act.Spurious?
    requires FairPlay(cfg, ss, acts) && ss(0) == Do(cfg, s, act)
    ensures FairPlay(cfg, tt, bcts) && tt(0) == s
  {
    tt := (n: nat) => if n == 0 then s else ss(n - 1);
    bcts := (n: nat) => if n == 0 then act else acts(n - 1);
    forall i: nat
      ensures RunsAt(cfg, tt, bcts, i)
    {
      if i == 0 {
        assert Follows(cfg, tt, bcts, 0);
      } else {
        LaterStep(cfg, ss, acts, tt, bcts, i);
      }
    }
    LaterFairDevice(ss, acts, tt, bcts);
    LaterFair(cfg, ss, acts, tt, bcts, TheReader);
    LaterFair(cfg, ss, acts, tt, bcts, TheConsumer(Audio));
    LaterFair(cfg, ss, acts, tt, bcts, TheConsumer(Video));
  }

  /** The second behaviour is the first one, a step later. */
  ghost predicate Later(ss: nat -> State, acts: nat -> Action, tt: nat -> State, bcts: nat -> Action) {
    forall n: nat :: tt(n + 1) == ss(n) && bcts(n + 1) == acts(n)
  }

  lemma LaterStep(cfg: Config, ss: nat -> State, acts: nat -> Action, tt: nat -> State, bcts: nat -> Action, i: nat)
    requires Later(ss, acts, tt, bcts) && i > 0 && RunsAt(cfg, ss, acts, i - 1)
    ensures RunsAt(cfg, tt, bcts, i)
  {
    assert tt((i - 1) + 1) == ss(i - 1) && tt(i + 1) == ss(i) && bcts((i - 1) + 1) == acts(i - 1);
  }

  lemma LaterFair(cfg: Config, ss: nat -> State, acts: nat -> Action, tt: nat -> State, bcts: nat -> Action, me: Thread)
    requires Later(ss, acts, tt, bcts) && Fair(cfg, ss, acts, me)
    ensures Fair(cfg, tt, bcts, me)
  {
    if forall i: nat :: ReadyAfter(cfg, tt, me, i) {
      forall i: nat
        ensures ReadyAfter(cfg, ss, me, i)
      {
        assert ReadyAfter(cfg, tt, me, i + 1);
        var j: nat :| i + 1 <= j && CanAct(cfg, tt(j), me);
        assert tt((j - 1) + 1) == ss(j - 1);
      }
      forall i: nat
        ensures ActsAfter(bcts, me, i)
      {
        assert ActsAfter(acts, me, i);
        var j: nat :| i <= j && Own(me, acts(j));
        assert bcts(j + 1) == acts(j);
      }
    }
  }

  lemma LaterFairDevice(ss: nat -> State, acts: nat -> Action, tt: nat -> State, bcts: nat -> Action)
    requires Later(ss, acts, tt, bcts) && FairDevice(ss, acts)
    ensures FairDevice(tt, bcts)
  {
    forall i: nat | LoadedFrom(tt, i)
      ensures PlaysAfter(bcts, i)
    {
      forall j: nat | i <= j
        ensures ss(j).queued > 0
      {
        assert tt(j + 1) == ss(j);
      }
      assert LoadedFrom(ss, i) && PlaysAfter(acts, i);
      var j: nat :| i <= j && acts(j).Device?;
      assert bcts(j + 1) == acts(j);
    }
  }

  lemma {:induction false} FairAfterQuit(cfg: Config, s: State) returns (ss: nat -> State, acts: nat -> Action)
    requires Reachable(cfg, s) && s.quit
    ensures FairPlay(cfg, ss, acts) && ss(0) == s
    decreases RankOf(s).reader,
      RankOf(s).a.stage, RankOf(s).a.frames, RankOf(s).a.work,
      RankOf(s).v.stage, RankOf(s).v.frames, RankOf(s).v.work,
      RankOf(s).events, RankOf(s).main, RankOf(s).queued
  {
    if Settled(cfg, s) {
      ss, acts := SettledIsFair(cfg, s);
    } else {
      var act :| Enabled(cfg, s, act) && !act.Spurious?;
      ReachableInv(cfg, s);
      StepLowersRank(cfg, s, act);
      FetchesLeftShrink(cfg, s, act);
      ReachableStep(cfg, s, act);
      ss, acts := FairAfterQuit(cfg, Do(cfg, s, act));
      ss, acts := OneStepBefore(cfg, s, act, ss, acts);
    }
  }

  /** How far main is from storing quit, if its next event is to quit. */
  function QuitDistance(m: MainPc): nat {
    match m
    case MDelay => 3
    case MTop => 2
    case MPoll => 1
    case _ => 0
  }

  lemma MainTowardsQuit(cfg: Config, s: State) returns (act: Action)
    requires QuitInv(s) && !s.quit && s.events > 0
    ensures Enabled(cfg, s, act) && !act.Spurious?
    ensures Do(cfg, s, act).quit
            || (s.main.MPoll? && Do(cfg, s, act).main.MStore?)
            || (QuitDistance(Do(cfg, s, act).main) < QuitDistance(s.main) && Do(cfg, s, act).events > 0)
  {
    act := Main(if s.main.MPoll? then QuitEvent else Quiet);
  }

  /** From every reachable state from which the player can be quit there is a fair schedule. */
  lemma {:induction false} FairPlayExists(cfg: Config, s: State) returns (ss: nat -> State, acts: nat -> Action)
    requires Reachable(cfg, s) && (s.quit || s.main.MStore? || s.events > 0)
    ensures FairPlay(cfg, ss, acts) && ss(0) == s
    decreases !s.quit, !s.main.MStore?, QuitDistance(s.main)
  {
    if s.quit {
      ss, acts := FairAfterQuit(cfg, s);
    } else {
      var act: Action;
      if s.main.MStore? {
        act := Main(Quiet);
      } else {
        QuitFacts(cfg, s);
        act := MainTowardsQuit(cfg, s);
      }
      ReachableStep(cfg, s, act);
      ss, acts := FairPlayExists(cfg, Do(cfg, s, act));
      ss, acts := OneStepBefore(cfg, s, act, ss, acts);
    }
  }
}
