/**
  Fair schedules: when every thread that can act again and again does act again and
  again, either quit is stored or progress comes from every state that is not stalled,
  whatever the demuxer, the decoders and the device answer.
  */
module PlayerProgress {
  import opened PlayerModel
  import opened PlayerInvariant
  import opened PlayerSafety
  import opened PlayerStall
  import opened PlayerRely
  import opened PlayerShutdown

  // ---------------------------------------------------------------- fairness

  ghost predicate CanAct(cfg: Config, s: State, me: Thread) {
    exists act :: Own(me, act) && Enabled(cfg, s, act)
  }

  ghost predicate ReadyAfter(cfg: Config, ss: nat -> State, me: Thread, i: nat) {
    exists j: nat :: i <= j && CanAct(cfg, ss(j), me)
  }

  ghost predicate ActsAfter(acts: nat -> Action, me: Thread, i: nat) {
    exists j: nat :: i <= j && Own(me, acts(j))
  }

  /** A thread that is ready infinitely often acts infinitely often. */
  ghost predicate Fair(cfg: Config, ss: nat -> State, acts: nat -> Action, me: Thread) {
    (forall i: nat :: ReadyAfter(cfg, ss, me, i)) ==> forall i: nat :: ActsAfter(acts, me, i)
  }

  ghost predicate PlaysAfter(acts: nat -> Action, i: nat) {
    exists j: nat :: i <= j && acts(j).Device?
  }

  ghost predicate LoadedFrom(ss: nat -> State, i: nat) {
    forall j: nat :: i <= j ==> ss(j).queued > 0
  }

  /** A device that has something to play from some point on plays something. */
  ghost predicate FairDevice(ss: nat -> State, acts: nat -> Action) {
    forall i: nat :: LoadedFrom(ss, i) ==> PlaysAfter(acts, i)
  }

  /** A step of the player that is no spurious wake-up; where nothing can happen any more the last state goes on for ever. */
  ghost predicate RunsAt(cfg: Config, ss: nat -> State, acts: nat -> Action, i: nat) {
    || (Follows(cfg, ss, acts, i) && !acts(i).Spurious?)
    || (Settled(cfg, ss(i)) && ss(i + 1) == ss(i))
  }

  ghost predicate Behaviour(cfg: Config, ss: nat -> State, acts: nat -> Action) {
    Reachable(cfg, ss(0)) && forall i: nat :: RunsAt(cfg, ss, acts, i)
  }

  ghost predicate FairPlay(cfg: Config, ss: nat -> State, acts: nat -> Action) {
    && Behaviour(cfg, ss, acts) && FairDevice(ss, acts)
    && Fair(cfg, ss, acts, TheReader) && Fair(cfg, ss, acts, TheConsumer(Audio)) && Fair(cfg, ss, acts, TheConsumer(Video))
  }

  // ---------------------------------------------------------------- one polling step

  ghost predicate PollStep(cfg: Config, s: State, act: Action, s': State) {
    && Reachable(cfg, s) && !s.quit && !s'.quit && Enabled(cfg, s, act) && s' == Do(cfg, s, act)
    && Polls(cfg, s, act) && !act.Spurious?
  }

  predicate Busy(l: Lane) {
    !Waiting(l) && !ClockLoop(l)
  }

  /** How far a waiting consumer is from its queue or its sleep. */
  function WaitRank(pc: ConsumerPc): nat {
    match pc
    case Top => 6
    case Lock => 5
    case Woken => 5
    case Eval => 4
    case Block => 3
    case _ => 0
  }

  /** What a polling step may do to a lane. */
  ghost predicate LanePolls(l: Lane, own: bool, l': Lane) {
    && l'.queue == l.queue
    && if own
       then
         && !Busy(l)
         && (Waiting(l) ==> (Waiting(l') || l'.pc.Decide?) && WaitRank(l'.pc) < WaitRank(l.pc))
         && (ClockLoop(l) ==> ClockLoop(l') && l'.pc.f == l.pc.f)
       else l' == l.(owner := l'.owner)
  }

  lemma WaiterPolls(cfg: Config, k: Kind, l: Lane, late: bool, c: Choice)
    requires Waiting(l) && ConsumerCan(cfg, k, l, c)
    ensures LanePolls(l, true, LaneNext(cfg, k, l, false, late, c))
  {
  }

  lemma ClockPolls(cfg: Config, s: State, k: Kind, c: Choice)
    requires ClockLoop(s.Get(k)) && ConsumerCan(cfg, k, s.Get(k), c) && Polls(cfg, s, Consumer(k, c))
    ensures
      var l' := WorkNext(cfg, s, k, c).Get(k);
      LanePolls(s.Get(k), true, l') && WorkNext(cfg, s, k, c) == s.Put(k, l')
  {
  }

  lemma ConsumerPolls(cfg: Config, s: State, k: Kind, c: Choice)
    requires !s.quit && ConsumerCan(cfg, k, s.Get(k), c) && Polls(cfg, s, Consumer(k, c))
    ensures
      var s' := ConsumerNext(cfg, s, k, c);
      s' == s.Put(k, s'.Get(k)) && LanePolls(s.Get(k), true, s'.Get(k))
  {
    if Waiting(s.Get(k)) {
      WaiterPolls(cfg, k, s.Get(k), !NotifyPending(s, k), c);
    } else {
      ClockPolls(cfg, s, k, c);
    }
  }

  /** Before quit main touches nothing the others look at. */
  lemma MainPolls(s: State, c: Choice)
    requires QuitInv(s) && !s.quit && MainCan(s, c) && !MainNext(s, c).quit
    ensures
      var s' := MainNext(s, c);
      s' == s.(main := s'.main, events := s'.events)
  {
  }

  lemma PollsLane(cfg: Config, s: State, act: Action, s': State, k: Kind)
    requires PollStep(cfg, s, act, s')
    ensures LanePolls(s.Get(k), Own(TheConsumer(k), act), s'.Get(k))
  {
    match act
    case Reader(c) => ReaderPollsOnly(s);
    case Consumer(k', c) => ConsumerPolls(cfg, s, k', c);
    case Main(c) => QuitFacts(cfg, s); MainPolls(s, c);
    case _ =>
  }

  lemma QuitFacts(cfg: Config, s: State)
    requires Reachable(cfg, s)
    ensures QuitInv(s)
  {
    ReachableInv(cfg, s);
  }

  /** The reader moves only round its capacity loop, towards the fetch if there is room; the device and the counter stand still. */
  lemma PollsRest(cfg: Config, s: State, act: Action, s': State)
    requires PollStep(cfg, s, act, s')
    ensures s'.queued == s.queued && s'.written == s.written
    ensures if act.Reader? then ReaderPolls(s.reader) && s' == ReaderNext(s, Quiet) else s'.reader == s.reader
  {
    match act
    case Reader(c) => ReaderPollsOnly(s);
    case Consumer(k', c) => ConsumerPolls(cfg, s, k', c);
    case Main(c) => QuitFacts(cfg, s); MainPolls(s, c);
    case _ =>
  }

  // ---------------------------------------------------------------- polling for ever

  ghost predicate PollsAt(cfg: Config, ss: nat -> State, acts: nat -> Action, j: nat) {
    PollStep(cfg, ss(j), acts(j), ss(j + 1))
  }

  ghost predicate PollsFrom(cfg: Config, ss: nat -> State, acts: nat -> Action, i: nat) {
    forall j: nat :: i <= j ==> PollsAt(cfg, ss, acts, j)
  }

  /** The first action of the thread at or after i. */
  lemma {:induction false} FirstAct(acts: nat -> Action, me: Thread, i: nat) returns (b: nat)
    requires ActsAfter(acts, me, i)
    ensures i <= b && Own(me, acts(b)) && forall j: nat :: i <= j < b ==> !Own(me, acts(j))
  {
    var last: nat :| i <= last && Own(me, acts(last));
    b := FirstActUpTo(acts, me, i, last);
  }

  lemma {:induction false} FirstActUpTo(acts: nat -> Action, me: Thread, i: nat, last: nat) returns (b: nat)
    requires i <= last && Own(me, acts(last))
    ensures i <= b <= last && Own(me, acts(b)) && forall j: nat :: i <= j < b ==> !Own(me, acts(j))
    decreases last - i
  {
    if Own(me, acts(i)) {
      b := i;
    } else {
      b := FirstActUpTo(acts, me, i + 1, last);
    }
  }

  /** While its thread does not act a lane keeps its program counter; queues, device and counter never change. */
  lemma {:induction false} LaneRests(cfg: Config, ss: nat -> State, acts: nat -> Action, i: nat, m: nat, k: Kind)
    requires PollsFrom(cfg, ss, acts, i) && i <= m
    requires forall j: nat :: i <= j < m ==> !Own(TheConsumer(k), acts(j))
    ensures ss(m).Get(k).pc == ss(i).Get(k).pc
    decreases m - i
  {
    if i < m {
      assert PollsAt(cfg, ss, acts, i);
      PollsLane(cfg, ss(i), acts(i), ss(i + 1), k);
      LaneRests(cfg, ss, acts, i + 1, m, k);
    }
  }

  lemma {:induction false} ReaderRests(cfg: Config, ss: nat -> State, acts: nat -> Action, i: nat, m: nat)
    requires PollsFrom(cfg, ss, acts, i) && i <= m
    requires forall j: nat :: i <= j < m ==> !Own(TheReader, acts(j))
    ensures ss(m).reader == ss(i).reader
    decreases m - i
  {
    if i < m {
      assert PollsAt(cfg, ss, acts, i);
      PollsRest(cfg, ss(i), acts(i), ss(i + 1));
      ReaderRests(cfg, ss, acts, i + 1, m);
    }
  }

  predicate SameStock(s: State, t: State) {
    t.queued == s.queued && t.written == s.written && t.a.queue == s.a.queue && t.v.queue == s.v.queue
  }

  lemma {:induction false} StockRests(cfg: Config, ss: nat -> State, acts: nat -> Action, i: nat, m: nat)
    requires PollsFrom(cfg, ss, acts, i) && i <= m
    ensures SameStock(ss(i), ss(m))
    decreases m - i
  {
    if i < m {
      assert PollsAt(cfg, ss, acts, i);
      PollsRest(cfg, ss(i), acts(i), ss(i + 1));
      PollsLane(cfg, ss(i), acts(i), ss(i + 1), Audio);
      PollsLane(cfg, ss(i), acts(i), ss(i + 1), Video);
      StockRests(cfg, ss, acts, i + 1, m);
    }
  }

  lemma BusyIsReady(cfg: Config, s: State, k: Kind)
    requires Reachable(cfg, s) && !s.quit && Busy(s.Get(k))
    ensures CanAct(cfg, s, TheConsumer(k))
  {
    ReachableLane(cfg, s, k);
    OutcomeAllowed(cfg, k, s.Get(k));
    var act := Consumer(k, Outcome(cfg, k, s.Get(k)));
    assert Own(TheConsumer(k), act) && Enabled(cfg, s, act);
  }

  /** A thread that is ready all the time acts. */
  lemma ReadyActs(cfg: Config, ss: nat -> State, acts: nat -> Action, me: Thread, i: nat)
    requires Fair(cfg, ss, acts, me)
    requires forall m: nat :: i <= m ==> CanAct(cfg, ss(m), me)
    ensures ActsAfter(acts, me, i)
  {
    forall n: nat
      ensures ReadyAfter(cfg, ss, me, n)
    {
      var m: nat := if i <= n then n else i;
      assert CanAct(cfg, ss(m), me);
    }
  }

  lemma StaysBusy(cfg: Config, ss: nat -> State, acts: nat -> Action, i: nat, k: Kind)
    requires PollsFrom(cfg, ss, acts, i) && Busy(ss(i).Get(k)) && !ActsAfter(acts, TheConsumer(k), i)
    ensures forall m: nat :: i <= m ==> CanAct(cfg, ss(m), TheConsumer(k))
  {
    forall m: nat | i <= m
      ensures CanAct(cfg, ss(m), TheConsumer(k))
    {
      LaneRests(cfg, ss, acts, i, m, k);
      assert PollsAt(cfg, ss, acts, m);
      BusyIsReady(cfg, ss(m), k);
    }
  }

  lemma BusyNeverActs(cfg: Config, ss: nat -> State, acts: nat -> Action, i: nat, k: Kind)
    requires PollsFrom(cfg, ss, acts, i) && Busy(ss(i).Get(k))
    ensures !ActsAfter(acts, TheConsumer(k), i)
  {
    if ActsAfter(acts, TheConsumer(k), i) {
      var b := FirstAct(acts, TheConsumer(k), i);
      LaneRests(cfg, ss, acts, i, b, k);
      assert PollsAt(cfg, ss, acts, b);
      PollsLane(cfg, ss(b), acts(b), ss(b + 1), k);
      assert false;
    }
  }

  /** A consumer with something to do would do it. */
  lemma NeverBusy(cfg: Config, ss: nat -> State, acts: nat -> Action, i: nat, k: Kind)
    requires PollsFrom(cfg, ss, acts, i) && Fair(cfg, ss, acts, TheConsumer(k))
    ensures !Busy(ss(i).Get(k))
  {
    if Busy(ss(i).Get(k)) {
      BusyNeverActs(cfg, ss, acts, i, k);
      StaysBusy(cfg, ss, acts, i, k);
      ReadyActs(cfg, ss, acts, TheConsumer(k), i);
    }
  }

  // ---------------------------------------------------------------- the consumers come to rest

  lemma {:induction false} KeepsWaiting(cfg: Config, ss: nat -> State, acts: nat -> Action, i: nat, m: nat, k: Kind)
    requires PollsFrom(cfg, ss, acts, i) && Fair(cfg, ss, acts, TheConsumer(k)) && i <= m && Waiting(ss(i).Get(k))
    ensures Waiting(ss(m).Get(k)) && WaitRank(ss(m).Get(k).pc) <= WaitRank(ss(i).Get(k).pc)
    decreases m - i
  {
    if i < m {
      assert PollsAt(cfg, ss, acts, i);
      PollsLane(cfg, ss(i), acts(i), ss(i + 1), k);
      NeverBusy(cfg, ss, acts, i + 1, k);
      KeepsWaiting(cfg, ss, acts, i + 1, m, k);
    }
  }

  /** A waiting consumer acts only so often. */
  lemma {:induction false} StopsActing(cfg: Config, ss: nat -> State, acts: nat -> Action, i: nat, k: Kind) returns (m: nat)
    requires PollsFrom(cfg, ss, acts, i) && Fair(cfg, ss, acts, TheConsumer(k)) && Waiting(ss(i).Get(k))
    ensures i <= m && !ActsAfter(acts, TheConsumer(k), m)
    decreases WaitRank(ss(i).Get(k).pc)
  {
    if ActsAfter(acts, TheConsumer(k), i) {
      var b := FirstAct(acts, TheConsumer(k), i);
      KeepsWaiting(cfg, ss, acts, i, b, k);
      assert PollsAt(cfg, ss, acts, b);
      PollsLane(cfg, ss(b), acts(b), ss(b + 1), k);
      KeepsWaiting(cfg, ss, acts, b, b + 1, k);
      m := StopsActing(cfg, ss, acts, b + 1, k);
    } else {
      m := i;
    }
  }

  /** From then on it is not ready. */
  lemma StopsBeingReady(cfg: Config, ss: nat -> State, acts: nat -> Action, i: nat, k: Kind) returns (m: nat)
    requires PollsFrom(cfg, ss, acts, i) && Fair(cfg, ss, acts, TheConsumer(k)) && Waiting(ss(i).Get(k))
    ensures i <= m && forall j: nat :: m <= j ==> !CanAct(cfg, ss(j), TheConsumer(k))
  {
    var m0 := StopsActing(cfg, ss, acts, i, k);
    var m1: nat :| !ReadyAfter(cfg, ss, TheConsumer(k), m1);
    m := if m0 <= m1 then m1 else m0;
  }

  /** Asleep, or kept from its mutex by the reader. */
  lemma NotReadyWaits(cfg: Config, s: State, k: Kind)
    requires Reachable(cfg, s) && Waiting(s.Get(k)) && !CanAct(cfg, s, TheConsumer(k))
    ensures s.Get(k).pc.Asleep? || ReaderHolds(s.reader, k)
    ensures !s.Get(k).owner.ByConsumer?
  {
    ReachableLane(cfg, s, k);
    var act := Consumer(k, Quiet);
    assert Own(TheConsumer(k), act) && !Enabled(cfg, s, act);
  }

  lemma ClockLoopHoldsNothing(cfg: Config, s: State, k: Kind)
    requires Reachable(cfg, s) && ClockLoop(s.Get(k))
    ensures !s.Get(k).owner.ByConsumer?
  {
    ReachableLane(cfg, s, k);
  }

  /** From m on neither consumer holds a mutex, and each waits without being ready or reads the clock. */
  ghost predicate LanesRest(cfg: Config, ss: nat -> State, acts: nat -> Action, m: nat) {
    && PollsFrom(cfg, ss, acts, m)
    && forall j: nat, k :: m <= j ==> LaneRested(cfg, ss(j), k)
  }

  ghost predicate LaneRested(cfg: Config, s: State, k: Kind) {
    && !s.Get(k).owner.ByConsumer?
    && (ClockLoop(s.Get(k)) || (Waiting(s.Get(k)) && (s.Get(k).pc.Asleep? || ReaderHolds(s.reader, k))))
  }

  lemma {:induction false} KeepsReadingClock(cfg: Config, ss: nat -> State, acts: nat -> Action, i: nat, m: nat, k: Kind)
    requires PollsFrom(cfg, ss, acts, i) && i <= m && ClockLoop(ss(i).Get(k))
    ensures ClockLoop(ss(m).Get(k)) && ss(m).Get(k).pc.f == ss(i).Get(k).pc.f
    decreases m - i
  {
    if i < m {
      assert PollsAt(cfg, ss, acts, i);
      PollsLane(cfg, ss(i), acts(i), ss(i + 1), k);
      KeepsReadingClock(cfg, ss, acts, i + 1, m, k);
    }
  }

  lemma LaneComesToRest(cfg: Config, ss: nat -> State, acts: nat -> Action, i: nat, k: Kind) returns (m: nat)
    requires PollsFrom(cfg, ss, acts, i) && Fair(cfg, ss, acts, TheConsumer(k))
    ensures i <= m && forall j: nat :: m <= j ==> LaneRested(cfg, ss(j), k)
  {
    NeverBusy(cfg, ss, acts, i, k);
    if ClockLoop(ss(i).Get(k)) {
      m := i;
      forall j: nat | m <= j
        ensures LaneRested(cfg, ss(j), k)
      {
        KeepsReadingClock(cfg, ss, acts, i, j, k);
        assert PollsAt(cfg, ss, acts, j);
        ClockLoopHoldsNothing(cfg, ss(j), k);
      }
    } else {
      m := StopsBeingReady(cfg, ss, acts, i, k);
      forall j: nat | m <= j
        ensures LaneRested(cfg, ss(j), k)
      {
        KeepsWaiting(cfg, ss, acts, i, j, k);
        assert PollsAt(cfg, ss, acts, j);
        NotReadyWaits(cfg, ss(j), k);
      }
    }
  }

  lemma LanesComeToRest(cfg: Config, ss: nat -> State, acts: nat -> Action, i: nat) returns (m: nat)
    requires PollsFrom(cfg, ss, acts, i)
    requires Fair(cfg, ss, acts, TheConsumer(Audio)) && Fair(cfg, ss, acts, TheConsumer(Video))
    ensures i <= m && LanesRest(cfg, ss, acts, m)
  {
    var m1 := LaneComesToRest(cfg, ss, acts, i, Audio);
    var m2 := LaneComesToRest(cfg, ss, acts, i, Video);
    m := if m1 <= m2 then m2 else m1;
  }

  // ---------------------------------------------------------------- the reader goes round

  /** With both mutexes left to it the reader is always ready. */
  lemma ReaderIsReady(cfg: Config, s: State)
    requires Reachable(cfg, s) && !s.quit && !s.a.owner.ByConsumer? && !s.v.owner.ByConsumer?
    ensures CanAct(cfg, s, TheReader)
  {
    ReachableLane(cfg, s, Audio);
    ReachableLane(cfg, s, Video);
    QuitFacts(cfg, s);
    assert Own(TheReader, Reader(Quiet)) && Own(TheReader, Reader(Eof));
    assert Enabled(cfg, s, Reader(Quiet)) || Enabled(cfg, s, Reader(Eof));
  }

  lemma ReaderActs(cfg: Config, ss: nat -> State, acts: nat -> Action, i: nat)
    requires LanesRest(cfg, ss, acts, i) && Fair(cfg, ss, acts, TheReader)
    ensures ActsAfter(acts, TheReader, i)
  {
    forall m: nat | i <= m
      ensures CanAct(cfg, ss(m), TheReader)
    {
      assert PollsAt(cfg, ss, acts, m) && LaneRested(cfg, ss(m), Audio) && LaneRested(cfg, ss(m), Video);
      ReaderIsReady(cfg, ss(m));
    }
    ReadyActs(cfg, ss, acts, TheReader, i);
  }

  /** Its next action, and what it finds until then. */
  lemma ReaderTurn(cfg: Config, ss: nat -> State, acts: nat -> Action, i: nat) returns (b: nat)
    requires LanesRest(cfg, ss, acts, i) && Fair(cfg, ss, acts, TheReader)
    ensures i <= b && ReaderPolls(ss(i).reader) && ss(b).reader == ss(i).reader
    ensures ReaderCan(ss(b), Quiet) && !ss(b).quit && Reachable(cfg, ss(b)) && ss(b + 1) == ReaderNext(ss(b), Quiet)
    ensures SameStock(ss(i), ss(b)) && LanesRest(cfg, ss, acts, b + 1)
  {
    ReaderActs(cfg, ss, acts, i);
    b := FirstAct(acts, TheReader, i);
    ReaderRests(cfg, ss, acts, i, b);
    StockRests(cfg, ss, acts, i, b);
    assert PollsAt(cfg, ss, acts, b);
    PollsRest(cfg, ss(b), acts(b), ss(b + 1));
  }

  /** Actions until the reader holds no mutex. */
  function HoldRank(r: ReaderPc): nat {
    match r
    case RLockVideo => 4
    case RCheck => 3
    case RUnlockAudio(_) => 2
    case RUnlockVideo(_) => 1
    case _ => 0
  }

  lemma ReaderLetsGo(s: State, k: Kind)
    requires ReaderPolls(s.reader) && ReaderCan(s, Quiet) && !s.quit && ReaderHolds(s.reader, k)
    ensures HoldRank(ReaderNext(s, Quiet).reader) < HoldRank(s.reader)
  {
  }

  lemma {:induction false} ReaderReleases(cfg: Config, ss: nat -> State, acts: nat -> Action, i: nat, k: Kind) returns (m: nat)
    requires LanesRest(cfg, ss, acts, i) && Fair(cfg, ss, acts, TheReader)
    ensures i <= m && !ReaderHolds(ss(m).reader, k)
    decreases HoldRank(ss(i).reader)
  {
    if ReaderHolds(ss(i).reader, k) {
      var b := ReaderTurn(cfg, ss, acts, i);
      ReaderLetsGo(ss(b), k);
      m := ReaderReleases(cfg, ss, acts, b + 1, k);
    } else {
      m := i;
    }
  }

  lemma {:induction false} ReaderFindsRoom(cfg: Config, ss: nat -> State, acts: nat -> Action, i: nat)
    requires LanesRest(cfg, ss, acts, i) && Fair(cfg, ss, acts, TheReader)
    ensures Full(ss(i))
    decreases ReaderDistance(ss(i).reader, false)
  {
    if !Full(ss(i)) {
      var b := ReaderTurn(cfg, ss, acts, i);
      CapacityFacts(cfg, ss(b));
      ReaderComesCloser(ss(b));
      StockRests(cfg, ss, acts, i, b + 1);
      ReaderFindsRoom(cfg, ss, acts, b + 1);
    }
  }

  lemma CapacityFacts(cfg: Config, s: State)
    requires Reachable(cfg, s)
    ensures CapacityInv(s)
  {
    ReachableInv(cfg, s);
  }

  // ---------------------------------------------------------------- what is left is a stall

  lemma AsleepOnNothing(cfg: Config, s: State, k: Kind)
    requires Reachable(cfg, s) && s.Get(k).pc.Asleep? && ReaderPolls(s.reader)
    ensures s.Get(k).queue == []
  {
    ReachableLane(cfg, s, k);
  }

  lemma WaitsOnNothing(cfg: Config, ss: nat -> State, acts: nat -> Action, i: nat, m: nat, k: Kind)
    requires PollsFrom(cfg, ss, acts, i) && i <= m && LanesRest(cfg, ss, acts, m) && Waiting(ss(i).Get(k))
    requires Fair(cfg, ss, acts, TheReader) && Fair(cfg, ss, acts, TheConsumer(k))
    ensures ss(i).Get(k).queue == []
  {
    var n := ReaderReleases(cfg, ss, acts, m, k);
    KeepsWaiting(cfg, ss, acts, i, n, k);
    assert LaneRested(cfg, ss(n), k) && PollsAt(cfg, ss, acts, n);
    assert LanesRest(cfg, ss, acts, n);
    var b := ReaderTurn(cfg, ss, acts, n);
    AsleepOnNothing(cfg, ss(n), k);
    StockRests(cfg, ss, acts, i, n);
  }

  lemma ClockComesCloser(cfg: Config, s: State, c: Choice)
    requires ClockLoop(s.v) && ConsumerCan(cfg, Video, s.v, c) && Polls(cfg, s, Consumer(Video, c)) && !s.quit
    requires s.queued == 0 && !cfg.Ahead(s.v.pc.f, s.written)
    ensures LaneDistance(cfg, s, WorkNext(cfg, s, Video, c).v) < LaneDistance(cfg, s, s.v)
  {
  }

  lemma ClockActs(cfg: Config, ss: nat -> State, acts: nat -> Action, i: nat)
    requires PollsFrom(cfg, ss, acts, i) && Fair(cfg, ss, acts, TheConsumer(Video)) && ClockLoop(ss(i).v)
    ensures ActsAfter(acts, TheConsumer(Video), i)
  {
    forall m: nat | i <= m
      ensures CanAct(cfg, ss(m), TheConsumer(Video))
    {
      assert ss(i).Get(Video) == ss(i).v && ss(m).Get(Video) == ss(m).v;
      KeepsReadingClock(cfg, ss, acts, i, m, Video);
      var act := Consumer(Video, Quiet);
      assert Own(TheConsumer(Video), act) && Enabled(cfg, ss(m), act);
    }
    ReadyActs(cfg, ss, acts, TheConsumer(Video), i);
  }

  /** The next statement of the wait loop: the distance to a comparison that lets the frame through has shrunk. */
  lemma ClockTurn(cfg: Config, ss: nat -> State, acts: nat -> Action, i: nat) returns (b: nat)
    requires PollsFrom(cfg, ss, acts, i) && Fair(cfg, ss, acts, TheConsumer(Video)) && ClockLoop(ss(i).v)
    requires ss(i).queued == 0 && !cfg.Ahead(ss(i).v.pc.f, ss(i).written)
    ensures i <= b && ClockLoop(ss(b).v) && ss(b).v.pc.f == ss(i).v.pc.f && SameStock(ss(i), ss(b))
    ensures LaneDistance(cfg, ss(b), ss(b).v) < LaneDistance(cfg, ss(i), ss(i).v)
  {
    ClockActs(cfg, ss, acts, i);
    var a := FirstAct(acts, TheConsumer(Video), i);
    b := a + 1;
    assert ss(i).Get(Video) == ss(i).v && ss(a).Get(Video) == ss(a).v && ss(b).Get(Video) == ss(b).v;
    LaneRests(cfg, ss, acts, i, a, Video);
    StockRests(cfg, ss, acts, i, a);
    StockRests(cfg, ss, acts, i, b);
    KeepsReadingClock(cfg, ss, acts, i, b, Video);
    assert PollsAt(cfg, ss, acts, a);
    ClockStep(cfg, ss(a), acts(a), ss(b));
  }

  lemma ClockStep(cfg: Config, s: State, act: Action, s': State)
    requires PollStep(cfg, s, act, s') && Own(TheConsumer(Video), act) && ClockLoop(s.v)
    requires s.queued == 0 && !cfg.Ahead(s.v.pc.f, s.written)
    ensures LaneDistance(cfg, s', s'.v) < LaneDistance(cfg, s, s.v)
  {
    ClockComesCloser(cfg, s, act.c);
    PollsRest(cfg, s, act, s');
  }

  /** A frame that is waited for for ever is ahead of all that has been counted. */
  lemma {:induction false} WaitsForSound(cfg: Config, ss: nat -> State, acts: nat -> Action, i: nat)
    requires PollsFrom(cfg, ss, acts, i) && Fair(cfg, ss, acts, TheConsumer(Video)) && ClockLoop(ss(i).v) && ss(i).queued == 0
    ensures cfg.Ahead(ss(i).v.pc.f, ss(i).written)
    decreases LaneDistance(cfg, ss(i), ss(i).v)
  {
    if !cfg.Ahead(ss(i).v.pc.f, ss(i).written) {
      var b := ClockTurn(cfg, ss, acts, i);
      WaitsForSound(cfg, ss, acts, b);
    }
  }

  lemma {:induction false} ReaderPolledBefore(cfg: Config, ss: nat -> State, acts: nat -> Action, i: nat, m: nat)
    requires PollsFrom(cfg, ss, acts, i) && i <= m && ReaderPolls(ss(m).reader)
    ensures ReaderPolls(ss(i).reader)
    decreases m - i
  {
    if i < m {
      ReaderPolledBefore(cfg, ss, acts, i + 1, m);
      assert PollsAt(cfg, ss, acts, i);
      PollsRest(cfg, ss(i), acts(i), ss(i + 1));
    }
  }

  lemma DeviceNeverActs(cfg: Config, ss: nat -> State, acts: nat -> Action, i: nat)
    requires PollsFrom(cfg, ss, acts, i)
    ensures !PlaysAfter(acts, i)
  {
    forall j: nat | i <= j
      ensures !acts(j).Device?
    {
      assert PollsAt(cfg, ss, acts, j);
    }
  }

  lemma DeviceIsDrained(cfg: Config, ss: nat -> State, acts: nat -> Action, i: nat)
    requires PollsFrom(cfg, ss, acts, i) && FairDevice(ss, acts)
    ensures ss(i).queued == 0
  {
    DeviceNeverActs(cfg, ss, acts, i);
    if ss(i).queued > 0 {
      forall j: nat | i <= j
        ensures ss(j).queued > 0
      {
        StockRests(cfg, ss, acts, i, j);
      }
      assert LoadedFrom(ss, i);
    }
  }

  lemma AudioReadsNoClock(cfg: Config, s: State)
    requires Reachable(cfg, s)
    ensures !ClockLoop(s.a)
  {
    ReachableInv(cfg, s);
    assert ClockInv(cfg, s);
  }

  lemma ReaderIsFull(cfg: Config, ss: nat -> State, acts: nat -> Action, i: nat, m: nat)
    requires PollsFrom(cfg, ss, acts, i) && i <= m && LanesRest(cfg, ss, acts, m) && Fair(cfg, ss, acts, TheReader)
    ensures ReaderPolls(ss(i).reader) && Full(ss(i))
  {
    ReaderFindsRoom(cfg, ss, acts, m);
    StockRests(cfg, ss, acts, i, m);
    var b := ReaderTurn(cfg, ss, acts, m);
    ReaderPolledBefore(cfg, ss, acts, i, m);
  }

  lemma AudioHasNothing(cfg: Config, ss: nat -> State, acts: nat -> Action, i: nat, m: nat)
    requires PollsFrom(cfg, ss, acts, i) && i <= m && LanesRest(cfg, ss, acts, m)
    requires Fair(cfg, ss, acts, TheReader) && Fair(cfg, ss, acts, TheConsumer(Audio))
    ensures Waiting(ss(i).a) && ss(i).a.queue == []
  {
    NeverBusy(cfg, ss, acts, i, Audio);
    assert ss(i).Get(Audio) == ss(i).a && PollsAt(cfg, ss, acts, i);
    AudioReadsNoClock(cfg, ss(i));
    WaitsOnNothing(cfg, ss, acts, i, m, Audio);
  }

  lemma VideoHasNothing(cfg: Config, ss: nat -> State, acts: nat -> Action, i: nat, m: nat)
    requires PollsFrom(cfg, ss, acts, i) && i <= m && LanesRest(cfg, ss, acts, m) && ss(i).queued == 0
    requires Fair(cfg, ss, acts, TheReader) && Fair(cfg, ss, acts, TheConsumer(Video))
    ensures (Waiting(ss(i).v) && ss(i).v.queue == [])
            || (ClockLoop(ss(i).v) && cfg.Ahead(ss(i).v.pc.f, ss(i).written))
  {
    NeverBusy(cfg, ss, acts, i, Video);
    assert ss(i).Get(Video) == ss(i).v;
    if Waiting(ss(i).v) {
      WaitsOnNothing(cfg, ss, acts, i, m, Video);
    } else {
      WaitsForSound(cfg, ss, acts, i);
    }
  }

  lemma OnlyStallsPoll(cfg: Config, ss: nat -> State, acts: nat -> Action, i: nat)
    requires FairPlay(cfg, ss, acts) && PollsFrom(cfg, ss, acts, i)
    ensures Stalled(cfg, ss(i))
  {
    var m := LanesComeToRest(cfg, ss, acts, i);
    ReaderIsFull(cfg, ss, acts, i, m);
    DeviceIsDrained(cfg, ss, acts, i);
    AudioHasNothing(cfg, ss, acts, i, m);
    VideoHasNothing(cfg, ss, acts, i, m);
  }

  // ---------------------------------------------------------------- progress

  lemma {:induction false} BehaviourReachable(cfg: Config, ss: nat -> State, acts: nat -> Action, i: nat)
    requires Behaviour(cfg, ss, acts)
    ensures Reachable(cfg, ss(i))
  {
    if i > 0 {
      BehaviourReachable(cfg, ss, acts, i - 1);
      NextReachable(cfg, ss, acts, i - 1);
    }
  }

  lemma NextReachable(cfg: Config, ss: nat -> State, acts: nat -> Action, i: nat)
    requires RunsAt(cfg, ss, acts, i) && Reachable(cfg, ss(i))
    ensures Reachable(cfg, ss(i + 1))
  {
    if Follows(cfg, ss, acts, i) {
      ReachableStep(cfg, ss(i), acts(i));
    }
  }

  /** Before quit main at least can act, so the behaviour goes on. */
  lemma StillFollows(cfg: Config, ss: nat -> State, acts: nat -> Action, i: nat)
    requires RunsAt(cfg, ss, acts, i) && Reachable(cfg, ss(i)) && !ss(i).quit
    ensures Follows(cfg, ss, acts, i) && !acts(i).Spurious?
  {
    QuitFacts(cfg, ss(i));
    MainCanAct(cfg, ss(i));
  }

  lemma MainCanAct(cfg: Config, s: State)
    requires QuitInv(s) && !s.quit
    ensures !Settled(cfg, s)
  {
    assert Enabled(cfg, s, Main(Quiet)) || Enabled(cfg, s, Main(NoEvent));
  }

  /** Some action from i on is more than polling. */
  ghost predicate ProgressAfter(cfg: Config, ss: nat -> State, acts: nat -> Action, i: nat) {
    exists j: nat :: i <= j && !Polls(cfg, ss(j), acts(j))
  }

  ghost predicate QuitAfter(ss: nat -> State, i: nat) {
    exists j: nat :: i <= j && ss(j).quit
  }

  lemma PollsThere(cfg: Config, ss: nat -> State, acts: nat -> Action, j: nat)
    requires RunsAt(cfg, ss, acts, j) && Reachable(cfg, ss(j)) && Polls(cfg, ss(j), acts(j))
    requires !ss(j).quit && !ss(j + 1).quit
    ensures PollsAt(cfg, ss, acts, j)
  {
    StillFollows(cfg, ss, acts, j);
  }

  lemma WithoutProgress(cfg: Config, ss: nat -> State, acts: nat -> Action, i: nat)
    requires Behaviour(cfg, ss, acts) && !ProgressAfter(cfg, ss, acts, i) && !QuitAfter(ss, i)
    ensures PollsFrom(cfg, ss, acts, i)
  {
    forall j: nat | i <= j
      ensures PollsAt(cfg, ss, acts, j)
    {
      BehaviourReachable(cfg, ss, acts, j);
      PollsThere(cfg, ss, acts, j);
    }
  }

  /**
    Progress is inevitable: on every fair schedule, from each state that is not stalled, some thread or the device gets on
    unless quit is stored, whatever the callees answer.
    */
  lemma FairProgress(cfg: Config, ss: nat -> State, acts: nat -> Action, i: nat)
    requires FairPlay(cfg, ss, acts) && !Stalled(cfg, ss(i))
    ensures ProgressAfter(cfg, ss, acts, i) || QuitAfter(ss, i)
  {
    if !ProgressAfter(cfg, ss, acts, i) && !QuitAfter(ss, i) {
      WithoutProgress(cfg, ss, acts, i);
      OnlyStallsPoll(cfg, ss, acts, i);
    }
  }

  lemma MainKeepsStall(cfg: Config, s: State, c: Choice)
    requires QuitInv(s) && !s.quit && MainCan(s, c) && !MainNext(s, c).quit && Stalled(cfg, s)
    ensures Stalled(cfg, MainNext(s, c))
  {
    MainPolls(s, c);
  }

  lemma StallStep(cfg: Config, ss: nat -> State, acts: nat -> Action, i: nat)
    requires RunsAt(cfg, ss, acts, i) && Reachable(cfg, ss(i)) && Stalled(cfg, ss(i))
    requires !ss(i).quit && !ss(i + 1).quit
    ensures Stalled(cfg, ss(i + 1)) && Polls(cfg, ss(i), acts(i))
  {
    StillFollows(cfg, ss, acts, i);
    if acts(i).Main? {
      QuitFacts(cfg, ss(i));
      MainKeepsStall(cfg, ss(i), acts(i).c);
    } else {
      ReachableInv(cfg, ss(i));
      StalledStays(cfg, ss(i), acts(i));
    }
  }

  /** And from a stall there is none, on any schedule, until quit is stored. */
  lemma {:induction false} StallLasts(cfg: Config, ss: nat -> State, acts: nat -> Action, i: nat, m: nat)
    requires Behaviour(cfg, ss, acts) && Stalled(cfg, ss(i)) && i <= m && !QuitAfter(ss, i)
    ensures Stalled(cfg, ss(m)) && Polls(cfg, ss(m), acts(m))
    decreases m - i
  {
    BehaviourReachable(cfg, ss, acts, i);
    StallStep(cfg, ss, acts, i);
    if i < m {
      StallLasts(cfg, ss, acts, i + 1, m);
    }
  }

  /** On a fair schedule on which quit is not stored progress comes exactly from the states that are not stalled. */
  lemma FairProgressExact(cfg: Config, ss: nat -> State, acts: nat -> Action, i: nat)
    requires FairPlay(cfg, ss, acts) && !QuitAfter(ss, i)
    ensures ProgressAfter(cfg, ss, acts, i) <==> !Stalled(cfg, ss(i))
  {
    if Stalled(cfg, ss(i)) {
      forall j: nat | i <= j
        ensures Polls(cfg, ss(j), acts(j))
      {
        StallLasts(cfg, ss, acts, i, j);
      }
    } else {
      FairProgress(cfg, ss, acts, i);
    }
  }
}
