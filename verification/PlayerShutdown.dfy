/**
  From the store of quit to the joins: how much work is still done, why it ends,
  and exactly when it ends at the joins. Between a consumer's evaluation of its
  wait predicate and its going to sleep the flag can be stored and all
  notifications can be issued; such a consumer sleeps for good.
  */
module PlayerShutdown {
  import opened PlayerModel
  import opened PlayerInvariant
  import opened PlayerSafety

  // ---------------------------------------------------------------- how much is still done

  /** Packets the reader can still fetch once quit is stored. */
  function FetchesLeft(r: ReaderPc): nat {
    match r
    case RLockAudio => 1
    case RLockVideo => 1
    case RCheck => 1
    case RUnlockAudio(_) => 1
    case RUnlockVideo(_) => 1
    case RFetch => 1
    case _ => 0
  }

  /** Packets a consumer can still pop once quit is stored. */
  function PopsLeft(l: Lane): nat {
    if l.pc.Lock? || l.pc.Eval? || l.pc.Block? || l.pc.Asleep? || l.pc.Woken? || l.pc.Decide? then 1 else 0
  }

  lemma ReaderFetchesLeftShrink(s: State, c: Choice)
    requires s.quit && ReaderCan(s, c)
    ensures ReaderNext(s, c).quit
    ensures |ReaderNext(s, c).demuxed| + FetchesLeft(ReaderNext(s, c).reader) <= |s.demuxed| + FetchesLeft(s.reader)
  {
  }

  lemma OthersFetchNothing(cfg: Config, s: State, act: Action)
    requires s.quit && Enabled(cfg, s, act) && !act.Reader?
    ensures Do(cfg, s, act).quit && Do(cfg, s, act).demuxed == s.demuxed && Do(cfg, s, act).reader == s.reader
  {
  }

  lemma FetchesLeftShrink(cfg: Config, s: State, act: Action)
    requires s.quit && Enabled(cfg, s, act)
    ensures Do(cfg, s, act).quit
    ensures |Do(cfg, s, act).demuxed| + FetchesLeft(Do(cfg, s, act).reader) <= |s.demuxed| + FetchesLeft(s.reader)
  {
    if act.Reader? {
      ReaderFetchesLeftShrink(s, act.c);
    } else {
      OthersFetchNothing(cfg, s, act);
    }
  }

  lemma LanePopsLeftShrink(cfg: Config, k: Kind, l: Lane, late: bool, c: Choice)
    requires ConsumerCan(cfg, k, l, c) && !l.pc.Working?
    ensures
      var l' := LaneNext(cfg, k, l, true, late, c);
      |l'.popped| + PopsLeft(l') <= |l.popped| + PopsLeft(l)
  {
  }

  lemma WorkPopsNothing(cfg: Config, s: State, k': Kind, c: Choice, k: Kind)
    requires s.Get(k').pc.Working? && WorkAllowed(s.Get(k').pc.work, c)
    ensures
      var l, l' := s.Get(k), WorkNext(cfg, s, k', c).Get(k);
      l'.popped == l.popped && PopsLeft(l') == PopsLeft(l)
  {
    WorkNextWorks(cfg, s, k', c);
  }

  lemma ConsumerPopsLeftShrink(cfg: Config, s: State, k': Kind, c: Choice, k: Kind)
    requires s.quit && ConsumerCan(cfg, k', s.Get(k'), c)
    ensures
      var l, l' := s.Get(k), ConsumerNext(cfg, s, k', c).Get(k);
      |l'.popped| + PopsLeft(l') <= |l.popped| + PopsLeft(l)
  {
    if s.Get(k').pc.Working? {
      WorkPopsNothing(cfg, s, k', c, k);
    } else {
      LanePopsLeftShrink(cfg, k', s.Get(k'), !NotifyPending(s, k'), c);
    }
  }

  lemma PopsLeftShrink(cfg: Config, s: State, act: Action, k: Kind)
    requires s.quit && Enabled(cfg, s, act)
    ensures |Do(cfg, s, act).Get(k).popped| + PopsLeft(Do(cfg, s, act).Get(k)) <= |s.Get(k).popped| + PopsLeft(s.Get(k))
  {
    if act.Consumer? {
      ConsumerPopsLeftShrink(cfg, s, act.k, act.c, k);
    }
  }

  lemma {:induction false} WorkLeftShrinks(cfg: Config, s: State, acts: seq<Action>, k: Kind)
    requires s.quit && Legal(cfg, s, acts)
    ensures
      var t := Exec(cfg, s, acts);
      && t.quit
      && |t.demuxed| + FetchesLeft(t.reader) <= |s.demuxed| + FetchesLeft(s.reader)
      && |t.Get(k).popped| + PopsLeft(t.Get(k)) <= |s.Get(k).popped| + PopsLeft(s.Get(k))
    decreases |acts|
  {
    if acts != [] {
      FetchesLeftShrink(cfg, s, acts[0]);
      PopsLeftShrink(cfg, s, acts[0], k);
      WorkLeftShrinks(cfg, Do(cfg, s, acts[0]), acts[1..], k);
    }
  }

  /** Once quit is stored it stays; from then on at most one packet is fetched and one popped per queue. */
  lemma AtMostOneMore(cfg: Config, s: State, acts: seq<Action>, k: Kind)
    requires s.quit && Legal(cfg, s, acts)
    ensures Exec(cfg, s, acts).quit
    ensures |Exec(cfg, s, acts).demuxed| <= |s.demuxed| + 1
    ensures |Exec(cfg, s, acts).Get(k).popped| <= |s.Get(k).popped| + 1
  {
    WorkLeftShrinks(cfg, s, acts, k);
  }

  // ---------------------------------------------------------------- the ranking

  datatype LaneRank = LaneRank(stage: nat, frames: nat, work: nat)

  datatype Rank = Rank(reader: nat, a: LaneRank, v: LaneRank, events: nat, main: nat, queued: nat)

  predicate LaneLess(x: LaneRank, y: LaneRank) {
    || x.stage < y.stage
    || (x.stage == y.stage && (x.frames < y.frames || (x.frames == y.frames && x.work < y.work)))
  }

  predicate MainLess(x: Rank, y: Rank) {
    || x.events < y.events
    || (x.events == y.events && (x.main < y.main || (x.main == y.main && x.queued < y.queued)))
  }

  /** Lexicographic order: reader, audio, video, events, main, device. */
  predicate Less(x: Rank, y: Rank) {
    || x.reader < y.reader
    || (x.reader == y.reader &&
        (|| LaneLess(x.a, y.a)
         || (x.a == y.a && (LaneLess(x.v, y.v) || (x.v == y.v && MainLess(x, y))))))
  }

  function ReaderRank(r: ReaderPc): nat {
    match r
    case RLockAudio => 17
    case RLockVideo => 16
    case RCheck => 15
    case RUnlockAudio(_) => 14
    case RUnlockVideo(_) => 13
    case RFetch => 12
    case RRoute(_) => 11
    case RLock(_, _) => 10
    case RPush(_, _) => 9
    case RNotify(_) => 8
    case RUnlock(_) => 7
    case RSleep => 5
    case RTop => 4
    case RStore => 3
    case RNotifyAudio => 2
    case RNotifyVideo => 1
    case RDone => 0
  }

  function Stage(pc: ConsumerPc): nat {
    match pc
    case Block => 12
    case Asleep => 11
    case Woken => 10
    case Lock => 10
    case Eval => 9
    case Decide => 8
    case Leave(_) => 7
    case Send(_) => 6
    case Receive(_) => 5
    case Working(_, _, _) => 5
    case Release(_) => 4
    case Top => 3
    case Done => 0
    case Faulted => 0
  }

  function WorkRank(pc: ConsumerPc): nat {
    if !pc.Working? then 0 else
      match pc.work
      case Convert => 3
      case Enqueue(_) => 2
      case Account(_) => 1
      case Delay => 6
      case SampleQueue => 5
      case ReadWritten(_) => 4
      case Compare(_, _, _) => 3
      case Present(_, _, _, _) => 2
  }

  function RankOfLane(l: Lane): LaneRank {
    LaneRank(Stage(l.pc), |l.decoder.pending|, WorkRank(l.pc))
  }

  function MainRank(m: MainPc): nat {
    match m
    case MPoll => 9
    case MStore => 8
    case MNotifyAudio => 7
    case MNotifyVideo => 6
    case MDelay => 5
    case MTop => 4
    case MJoinReader => 3
    case MJoinAudio => 2
    case MJoinVideo => 1
    case MDone => 0
  }

  function RankOf(s: State): Rank {
    Rank(ReaderRank(s.reader), RankOfLane(s.a), RankOfLane(s.v), s.events, MainRank(s.main), s.queued)
  }

  lemma ReaderLowersRank(s: State, c: Choice)
    requires s.quit && ReaderCan(s, c)
    ensures Less(RankOf(ReaderNext(s, c)), RankOf(s))
  {
  }

  lemma LaneNextLowersRank(cfg: Config, k: Kind, l: Lane, late: bool, c: Choice)
    requires LaneInv(cfg.Decoding(k), true, l) && ConsumerCan(cfg, k, l, c) && !l.pc.Working?
    ensures LaneLess(RankOfLane(LaneNext(cfg, k, l, true, late, c)), RankOfLane(l))
  {
  }

  lemma WorkNextLowersRank(cfg: Config, s: State, k: Kind, c: Choice)
    requires s.quit && s.Get(k).pc.Working? && WorkAllowed(s.Get(k).pc.work, c)
    ensures LaneLess(RankOfLane(WorkNext(cfg, s, k, c).Get(k)), RankOfLane(s.Get(k)))
  {
  }

  /** A consumer step leaves everything the ranking looks at before its own lane alone. */
  lemma ConsumerLeavesOthers(cfg: Config, s: State, k: Kind, c: Choice)
    requires ConsumerCan(cfg, k, s.Get(k), c)
    ensures ConsumerNext(cfg, s, k, c).reader == s.reader && (k.Video? ==> ConsumerNext(cfg, s, k, c).a == s.a)
  {
  }

  lemma ConsumerLowersRank(cfg: Config, s: State, k: Kind, c: Choice)
    requires s.quit && LaneInv(cfg.Decoding(k), true, s.Get(k)) && ConsumerCan(cfg, k, s.Get(k), c)
    ensures Less(RankOf(ConsumerNext(cfg, s, k, c)), RankOf(s))
  {
    ConsumerLeavesOthers(cfg, s, k, c);
    if s.Get(k).pc.Working? {
      WorkNextLowersRank(cfg, s, k, c);
    } else {
      LaneNextLowersRank(cfg, k, s.Get(k), !NotifyPending(s, k), c);
    }
  }

  lemma MainLowersRank(s: State, c: Choice)
    requires s.quit && MainCan(s, c)
    ensures Less(RankOf(MainNext(s, c)), RankOf(s))
  {
  }

  /** After quit every action of every thread, of the device, and every spurious wake-up lowers the rank. */
  lemma StepLowersRank(cfg: Config, s: State, act: Action)
    requires Inv(cfg, s) && s.quit && Enabled(cfg, s, act)
    ensures Less(RankOf(Do(cfg, s, act)), RankOf(s))
  {
    match act
    case Reader(c) => ReaderLowersRank(s, c);
    case Consumer(k, c) => ConsumerLowersRank(cfg, s, k, c);
    case Main(c) => MainLowersRank(s, c);
    case _ =>
  }

  lemma {:induction false} NoInfiniteShutdown(cfg: Config, ss: nat -> State, acts: nat -> Action, i: nat)
    requires Inv(cfg, ss(i)) && ss(i).quit
    requires forall j :: i <= j ==> Follows(cfg, ss, acts, j)
    ensures false
    decreases RankOf(ss(i)).reader,
      RankOf(ss(i)).a.stage, RankOf(ss(i)).a.frames, RankOf(ss(i)).a.work,
      RankOf(ss(i)).v.stage, RankOf(ss(i)).v.frames, RankOf(ss(i)).v.work,
      RankOf(ss(i)).events, RankOf(ss(i)).main, RankOf(ss(i)).queued
  {
    assert Follows(cfg, ss, acts, i);
    Step(cfg, ss(i), acts(i));
    StepLowersRank(cfg, ss(i), acts(i));
    FetchesLeftShrink(cfg, ss(i), acts(i));
    NoInfiniteShutdown(cfg, ss, acts, i + 1);
  }

  /** Shutdown ends: no behaviour goes on for ever after quit, under any scheduling whatever. */
  lemma ShutdownTerminates(cfg: Config, ss: nat -> State, acts: nat -> Action)
    requires Reachable(cfg, ss(0)) && ss(0).quit
    ensures exists i: nat :: !Follows(cfg, ss, acts, i)
  {
    ReachableInv(cfg, ss(0));
    if forall i: nat :: Follows(cfg, ss, acts, i) {
      NoInfiniteShutdown(cfg, ss, acts, 0);
    }
  }

  // ---------------------------------------------------------------- where it ends

  /** Nothing can happen any more, short of a spurious wake-up. */
  ghost predicate Settled(cfg: Config, s: State) {
    forall act :: Enabled(cfg, s, act) ==> act.Spurious?
  }

  lemma SettledReader(cfg: Config, s: State)
    requires Reachable(cfg, s) && Settled(cfg, s)
    ensures s.reader.RDone?
  {
    ReachableLane(cfg, s, Audio);
    ReachableLane(cfg, s, Video);
    assert !Enabled(cfg, s, Reader(Quiet)) && !Enabled(cfg, s, Reader(Eof));
    assert !Enabled(cfg, s, Consumer(Audio, Quiet)) && !Enabled(cfg, s, Consumer(Video, Quiet));
  }

  lemma SettledLane(cfg: Config, s: State, k: Kind)
    requires Reachable(cfg, s) && Settled(cfg, s) && s.reader.RDone?
    ensures s.Get(k).pc.Done? || s.Get(k).pc.Asleep?
  {
    ReachableLane(cfg, s, k);
    assert !Enabled(cfg, s, Consumer(k, Quiet)) && !Enabled(cfg, s, Consumer(k, SendFailed([])));
    assert !Enabled(cfg, s, Consumer(k, ReceiveFailed([])));
  }

  lemma SettledMain(cfg: Config, s: State)
    requires Reachable(cfg, s) && Settled(cfg, s) && s.reader.RDone?
    ensures s.quit && s.queued == 0
    ensures s.main.MDone? || (s.main.MJoinAudio? && !s.a.pc.Done?) || (s.main.MJoinVideo? && !s.v.pc.Done?)
    ensures s.main.MDone? ==> s.a.pc.Done? && s.v.pc.Done?
  {
    ReachableInv(cfg, s);
    assert !Enabled(cfg, s, Main(Quiet)) && !Enabled(cfg, s, Main(NoEvent)) && !Enabled(cfg, s, Device(s.queued));
  }

  /**
    Where a run ends: the reader has returned and the device has played everything, and main has passed its joins exactly
    when neither consumer went to sleep after the last notify_all meant for it.
    */
  lemma ShutdownOutcome(cfg: Config, s: State)
    requires Reachable(cfg, s) && Settled(cfg, s)
    ensures s.quit && s.reader.RDone? && s.queued == 0
    ensures s.main.MDone? <==> !s.a.late && !s.v.late
  {
    SettledReader(cfg, s);
    SettledLane(cfg, s, Audio);
    SettledLane(cfg, s, Video);
    SettledMain(cfg, s);
    ReachableLane(cfg, s, Audio);
    ReachableLane(cfg, s, Video);
  }

  /** A consumer goes to sleep when no notification meant for it is under way any more. */
  predicate LateBlock(s: State, act: Action, k: Kind) {
    act.Consumer? && act.k == k && s.Get(k).pc.Block? && !NotifyPending(s, k)
  }

  lemma ConsumerLateness(cfg: Config, s: State, k': Kind, c: Choice, k: Kind)
    requires ConsumerCan(cfg, k', s.Get(k'), c) && (s.Get(k).late ==> s.Get(k).pc.Asleep?)
    ensures
      var l := ConsumerNext(cfg, s, k', c).Get(k);
      l.late <==> (k' == k && s.Get(k).pc.Block? && !NotifyPending(s, k)) || (s.Get(k).late && l.pc.Asleep?)
  {
  }

  lemma ReaderLateness(s: State, c: Choice, k: Kind)
    requires ReaderCan(s, c) && (s.Get(k).late ==> s.Get(k).pc.Asleep?)
    ensures ReaderNext(s, c).Get(k).late <==> s.Get(k).late && ReaderNext(s, c).Get(k).pc.Asleep?
  {
  }

  lemma MainLateness(s: State, c: Choice, k: Kind)
    requires MainCan(s, c) && (s.Get(k).late ==> s.Get(k).pc.Asleep?)
    ensures MainNext(s, c).Get(k).late <==> s.Get(k).late && MainNext(s, c).Get(k).pc.Asleep?
  {
  }

  /** A consumer is a late sleeper after a step exactly when it blocked late in it or was one before and has not been woken. */
  lemma Lateness(cfg: Config, s: State, act: Action, k: Kind)
    requires Enabled(cfg, s, act) && (s.Get(k).late ==> s.Get(k).pc.Asleep?)
    ensures
      var l := Do(cfg, s, act).Get(k);
      l.late <==> LateBlock(s, act, k) || (s.Get(k).late && l.pc.Asleep?)
  {
    match act
    case Consumer(k', c) => ConsumerLateness(cfg, s, k', c, k);
    case Reader(c) => ReaderLateness(s, c, k);
    case Main(c) => MainLateness(s, c, k);
    case _ =>
  }

  /** Nothing wakes the consumer during the run. */
  ghost predicate SleepsOn(cfg: Config, s: State, acts: seq<Action>, k: Kind)
    requires Legal(cfg, s, acts)
    decreases |acts|
  {
    s.Get(k).pc.Asleep? && (acts == [] || SleepsOn(cfg, Do(cfg, s, acts[0]), acts[1..], k))
  }

  /** At some point of the run the consumer goes to sleep with no notification under way, and nothing wakes it. */
  ghost predicate BlocksForGood(cfg: Config, s: State, acts: seq<Action>, k: Kind)
    requires Legal(cfg, s, acts)
    decreases |acts|
  {
    && acts != []
    && var s' := Do(cfg, s, acts[0]);
    || (LateBlock(s, acts[0], k) && SleepsOn(cfg, s', acts[1..], k))
    || BlocksForGood(cfg, s', acts[1..], k)
  }

  lemma {:induction false} LateAtTheEnd(cfg: Config, s: State, acts: seq<Action>, k: Kind)
    requires Inv(cfg, s) && Legal(cfg, s, acts)
    ensures Exec(cfg, s, acts).Get(k).late <==>
            BlocksForGood(cfg, s, acts, k) || (s.Get(k).late && SleepsOn(cfg, s, acts, k))
    decreases |acts|
  {
    LateSleeps(cfg, s, k);
    if acts != [] {
      var s' := Do(cfg, s, acts[0]);
      Lateness(cfg, s, acts[0], k);
      Step(cfg, s, acts[0]);
      LateSleeps(cfg, s', k);
      LateAtTheEnd(cfg, s', acts[1..], k);
    }
  }

  lemma LateSleeps(cfg: Config, s: State, k: Kind)
    requires Inv(cfg, s)
    ensures s.Get(k).late ==> s.Get(k).pc.Asleep?
  {
  }

  lemma LateFromTheStart(cfg: Config, events: nat, acts: seq<Action>, k: Kind)
    requires Legal(cfg, Init(events), acts)
    ensures Exec(cfg, Init(events), acts).Get(k).late <==> BlocksForGood(cfg, Init(events), acts, k)
  {
    InitInv(cfg, events);
    LateAtTheEnd(cfg, Init(events), acts, k);
  }

  /**
    A complete run fails to pass the joins exactly when in it some consumer went to sleep with no notification meant for it
    under way, and nothing has woken it since.
    */
  lemma ShutdownExact(cfg: Config, events: nat, acts: seq<Action>)
    requires Legal(cfg, Init(events), acts) && Settled(cfg, Exec(cfg, Init(events), acts))
    ensures !Exec(cfg, Init(events), acts).main.MDone? <==>
            BlocksForGood(cfg, Init(events), acts, Audio) || BlocksForGood(cfg, Init(events), acts, Video)
  {
    LateFromTheStart(cfg, events, acts, Audio);
    LateFromTheStart(cfg, events, acts, Video);
    var s := Exec(cfg, Init(events), acts);
    assert Reachable(cfg, s);
    ShutdownOutcome(cfg, s);
    assert s.Get(Audio).late == s.a.late && s.Get(Video).late == s.v.late;
  }

  // ---------------------------------------------------------------- notifications and events

  /** The action notifies the condition variable of lane k. */
  predicate Notifies(s: State, act: Action, k: Kind) {
    || (act.Reader? && (s.reader == RNotify(k) || (s.reader.RNotifyAudio? && k.Audio?) || (s.reader.RNotifyVideo? && k.Video?)))
    || (act.Main? && ((s.main.MNotifyAudio? && k.Audio?) || (s.main.MNotifyVideo? && k.Video?)))
  }

  ghost predicate SomeNotifies(cfg: Config, s: State, acts: seq<Action>, k: Kind)
    requires Legal(cfg, s, acts)
    decreases |acts|
  {
    acts != [] && (Notifies(s, acts[0], k) || SomeNotifies(cfg, Do(cfg, s, acts[0]), acts[1..], k))
  }

  lemma StaysUnderWay(cfg: Config, s: State, act: Action, k: Kind)
    requires Enabled(cfg, s, act) && NotifyPending(s, k) && !Notifies(s, act, k)
    ensures NotifyPending(Do(cfg, s, act), k)
  {
  }

  lemma SettledHasNoneUnderWay(cfg: Config, s: State, k: Kind)
    requires Reachable(cfg, s) && Settled(cfg, s)
    ensures !NotifyPending(s, k)
  {
    SettledReader(cfg, s);
    SettledMain(cfg, s);
  }

  /** A notification that is under way is issued in every run that is complete. */
  lemma {:induction false} UnderWayIsIssued(cfg: Config, s: State, acts: seq<Action>, k: Kind)
    requires Reachable(cfg, s) && Legal(cfg, s, acts) && Settled(cfg, Exec(cfg, s, acts)) && NotifyPending(s, k)
    ensures SomeNotifies(cfg, s, acts, k)
    decreases |acts|
  {
    if acts == [] {
      SettledHasNoneUnderWay(cfg, s, k);
    } else if !Notifies(s, acts[0], k) {
      StaysUnderWay(cfg, s, acts[0], k);
      ReachableStep(cfg, s, acts[0]);
      UnderWayIsIssued(cfg, Do(cfg, s, acts[0]), acts[1..], k);
    }
  }

  lemma NoneStarts(cfg: Config, s: State, act: Action, k: Kind)
    requires Enabled(cfg, s, act) && !NotifyPending(s, k) && act != Main(QuitEvent)
    ensures !Notifies(s, act, k) && !NotifyPending(Do(cfg, s, act), k)
  {
  }

  /** When none is under way none comes, unless the user quits once more. */
  lemma {:induction false} NoneComes(cfg: Config, s: State, acts: seq<Action>, k: Kind)
    requires Legal(cfg, s, acts) && !NotifyPending(s, k) && Main(QuitEvent) !in acts
    ensures !SomeNotifies(cfg, s, acts, k)
    decreases |acts|
  {
    if acts != [] {
      NoneStarts(cfg, s, acts[0], k);
      NoneComes(cfg, Do(cfg, s, acts[0]), acts[1..], k);
    }
  }

  /** Main goes to its delay only when there is no event left, or with quit stored. */
  lemma DelaysWhenIdle(cfg: Config, s: State, c: Choice)
    requires Reachable(cfg, s) && MainCan(s, c) && MainNext(s, c).main.MDelay?
    ensures c.NoEvent? || s.quit
  {
    ReachableInv(cfg, s);
    assert QuitInv(s);
  }

  lemma {:induction false} StoreIsNext(cfg: Config, s: State, acts: seq<Action>, i: nat)
    requires Legal(cfg, s, acts) && s.main.MStore? && i < |acts| && acts[i].Main?
    ensures Exec(cfg, s, acts).quit
    decreases |acts|
  {
    var s' := Do(cfg, s, acts[0]);
    if acts[0].Main? {
      WorkLeftShrinks(cfg, s', acts[1..], Audio);
    } else {
      assert s'.main == s.main && acts[1..][i - 1] == acts[i];
      StoreIsNext(cfg, s', acts[1..], i - 1);
    }
  }

  /** An event to quit is obeyed: main's next statement after it stores quit, and quit stays. */
  lemma QuitEventIsObeyed(cfg: Config, s: State, acts: seq<Action>, i: nat)
    requires Enabled(cfg, s, Main(QuitEvent)) && Legal(cfg, Do(cfg, s, Main(QuitEvent)), acts)
    requires i < |acts| && acts[i].Main?
    ensures Exec(cfg, Do(cfg, s, Main(QuitEvent)), acts).quit
  {
    StoreIsNext(cfg, Do(cfg, s, Main(QuitEvent)), acts, i);
  }

  // ---------------------------------------------------------------- the run that hangs

  /** The reader has found room in both queues; nobody else has moved. */
  lemma ReaderReachesFetch(cfg: Config)
    ensures Reachable(cfg, Init(0).(reader := RFetch))
  {
    var s := Init(0);
    assert Legal(cfg, s, []) && Exec(cfg, s, []) == s;
    ReachableStep(cfg, s, Reader(Quiet));
    ReachableStep(cfg, s.(reader := RLockAudio), Reader(Quiet));
    var s1 := s.(reader := RLockVideo, a := s.a.(owner := ByReader));
    ReachableStep(cfg, s1, Reader(Quiet));
    var s2 := s1.(reader := RCheck, v := s.v.(owner := ByReader));
    ReachableStep(cfg, s2, Reader(Quiet));
    ReachableStep(cfg, s2.(reader := RUnlockAudio(false)), Reader(Quiet));
    ReachableStep(cfg, s2.(reader := RUnlockVideo(false), a := s.a), Reader(Quiet));
    assert s2.(reader := RFetch, a := s.a, v := s.v) == s.(reader := RFetch);
  }

  /** The audio thread has found its queue empty and quit not set, and has not yet gone to sleep. */
  lemma AudioReachesBlock(cfg: Config)
    ensures Reachable(cfg, Init(0).(reader := RFetch, a := EmptyLane().(pc := Block, owner := ByConsumer)))
  {
    ReaderReachesFetch(cfg);
    var s := Init(0).(reader := RFetch);
    ReachableStep(cfg, s, Consumer(Audio, Quiet));
    ReachableStep(cfg, s.(a := EmptyLane().(pc := Lock)), Consumer(Audio, Quiet));
    ReachableStep(cfg, s.(a := EmptyLane().(pc := Eval, owner := ByConsumer)), Consumer(Audio, Quiet));
  }

  /** The reader meets the end of the file, stores quit, notifies both and returns. */
  lemma ReaderLeaves(cfg: Config)
    ensures Reachable(cfg, Init(0).(quit := true, reader := RDone, a := EmptyLane().(pc := Block, owner := ByConsumer)))
  {
    AudioReachesBlock(cfg);
    var s := Init(0).(a := EmptyLane().(pc := Block, owner := ByConsumer));
    ReachableStep(cfg, s.(reader := RFetch), Reader(Eof));
    ReachableStep(cfg, s.(reader := RStore), Reader(Quiet));
    ReachableStep(cfg, s.(reader := RNotifyAudio, quit := true), Reader(Quiet));
    ReachableStep(cfg, s.(reader := RNotifyVideo, quit := true), Reader(Quiet));
  }

  /** Only now does the audio thread go to sleep. */
  lemma AudioSleepsLate(cfg: Config)
    ensures Reachable(cfg, Init(0).(quit := true, reader := RDone, a := EmptyLane().(pc := Asleep, late := true)))
  {
    ReaderLeaves(cfg);
    var s := Init(0).(quit := true, reader := RDone, a := EmptyLane().(pc := Block, owner := ByConsumer));
    ReachableStep(cfg, s, Consumer(Audio, Quiet));
    assert Do(cfg, s, Consumer(Audio, Quiet)).a == EmptyLane().(pc := Asleep, late := true);
  }

  /** The state the program then hangs in. */
  function Hung(): State {
    Init(0).(quit := true, reader := RDone, main := MJoinAudio,
    a := EmptyLane().(pc := Asleep, late := true), v := EmptyLane().(pc := Done))
  }

  lemma HungIsReached(cfg: Config)
    ensures Reachable(cfg, Hung())
  {
    AudioSleepsLate(cfg);
    var s := Hung().(main := MTop, v := EmptyLane());
    ReachableStep(cfg, s, Consumer(Video, Quiet));
    ReachableStep(cfg, Hung().(main := MTop), Main(Quiet));
    ReachableStep(cfg, Hung().(main := MJoinReader), Main(Quiet));
  }

  /**
    "Every shutdown reaches the joins" is false of the code: on an empty file, with the audio thread between its predicate
    and its sleep while the reader stores quit and notifies, main waits for the audio thread for ever.
    */
  lemma ShutdownCanHang(cfg: Config)
    ensures Reachable(cfg, Hung()) && Settled(cfg, Hung()) && !Hung().main.MDone?
  {
    HungIsReached(cfg);
  }
}
