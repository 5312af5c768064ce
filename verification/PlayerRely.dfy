/**
  What a thread of the player may rely on while the others act, and what each of its
  statements comes to as an action of the model.
  */
module PlayerRely {
  import opened Options
  import opened PlayerModel
  import opened PlayerInvariant

  datatype Thread = TheReader | TheConsumer(k: Kind) | TheMain

  predicate Own(me: Thread, act: Action) {
    match me
    case TheReader => act.Reader?
    case TheConsumer(k) => act.Consumer? && act.k == k
    case TheMain => act.Main?
  }

  /** What a thread may rely on while the others act; a sleeper can be woken. */
  predicate Undisturbed(me: Thread, s: State, t: State) {
    && (s.quit ==> t.quit)
    && match me
       case TheReader => t.reader == s.reader && t.demuxed == s.demuxed
       case TheConsumer(k) =>
         && t.Get(k).decoder == s.Get(k).decoder && t.Get(k).popped == s.Get(k).popped
         && t.Get(k).freed == s.Get(k).freed && (k.Video? ==> t.shown == s.shown)
         && (t.Get(k).pc == s.Get(k).pc || (s.Get(k).pc.Asleep? && t.Get(k).pc.Woken?))
       case TheMain => t.main == s.main && t.events == s.events
  }

  lemma TouchedIsUndisturbed(s: State, t: State, k: Kind)
    requires Touched(s.Get(k), t.Get(k)) && (s.quit ==> t.quit) && t.shown == s.shown
    ensures Undisturbed(TheConsumer(k), s, t)
  {
  }

  lemma ReaderDisturbsNobody(me: Thread, s: State, c: Choice)
    requires SharedInv(s, Audio) && SharedInv(s, Video) && ReaderCan(s, c) && !me.TheReader?
    ensures Undisturbed(me, s, ReaderNext(s, c))
  {
    ReaderLeavesDevice(s, c);
    match me
    case TheConsumer(k) =>
      ReaderTouches(s, c, k);
      TouchedIsUndisturbed(s, ReaderNext(s, c), k);
    case _ => ReaderLeavesMain(s, c);
  }

  lemma ReaderLeavesMain(s: State, c: Choice)
    requires ReaderCan(s, c)
    ensures ReaderNext(s, c).main == s.main && ReaderNext(s, c).events == s.events
  {
  }

  lemma ConsumerDisturbsNobody(cfg: Config, me: Thread, s: State, k: Kind, c: Choice)
    requires ConsumerCan(cfg, k, s.Get(k), c) && me != TheConsumer(k)
    requires s.a.pc.Working? ==> AudioWork(s.a.pc.work)
    ensures Undisturbed(me, s, ConsumerNext(cfg, s, k, c))
  {
    if s.Get(k).pc.Working? {
      WorkNextWorks(cfg, s, k, c);
    }
  }

  lemma MainDisturbsNobody(me: Thread, s: State, c: Choice)
    requires MainCan(s, c) && !me.TheMain?
    ensures Undisturbed(me, s, MainNext(s, c))
  {
  }

  lemma OthersLeave(cfg: Config, me: Thread, s: State, act: Action)
    requires Inv(cfg, s) && Enabled(cfg, s, act) && !Own(me, act)
    ensures Undisturbed(me, s, Do(cfg, s, act))
  {
    match act
    case Reader(c) => ReaderDisturbsNobody(me, s, c);
    case Consumer(k, c) => ConsumerDisturbsNobody(cfg, me, s, k, c);
    case Main(c) => MainDisturbsNobody(me, s, c);
    case _ =>
  }

  lemma Follow(me: Thread, s: State, t: State, u: State)
    requires Undisturbed(me, s, t) && Undisturbed(me, t, u)
    ensures Undisturbed(me, s, u)
  {
  }

  /** The program points before and after a lock() of the reader. */
  predicate ReaderLocks(before: ReaderPc, k: Kind, after: ReaderPc) {
    || (before.RLockAudio? && k.Audio? && after.RLockVideo?)
    || (before.RLockVideo? && k.Video? && after.RCheck?)
    || (before.RLock? && k == before.k && after == RPush(k, before.p))
  }

  lemma LockEffect(s: State, k: Kind, after: ReaderPc)
    requires ReaderLocks(s.reader, k, after) && s.Get(k).owner.Free?
    ensures ReaderCan(s, Quiet)
    ensures ReaderNext(s, Quiet) == s.Put(k, s.Get(k).(owner := ByReader)).(reader := after)
  {
  }

  /** The program points before and after an unlock() of the reader. */
  predicate ReaderUnlocks(before: ReaderPc, k: Kind, after: ReaderPc) {
    || (before.RUnlockAudio? && k.Audio? && after == RUnlockVideo(before.full))
    || (before.RUnlockVideo? && k.Video? && after == (if before.full then RSleep else RFetch))
    || (before.RUnlock? && k == before.k && after.RTop?)
  }

  lemma UnlockEffect(s: State, k: Kind, after: ReaderPc)
    requires ReaderUnlocks(s.reader, k, after)
    ensures ReaderCan(s, Quiet)
    ensures ReaderNext(s, Quiet) == s.Put(k, s.Get(k).(owner := Free)).(reader := after)
  {
  }

  lemma RouteEffect(s: State, p: Packet)
    requires s.reader == RRoute(p)
    ensures ReaderCan(s, Quiet)
    ensures ReaderNext(s, Quiet) == if p.kind.Some? then s.(reader := RLock(p.kind.value, p))
                                    else s.(reader := RTop, dropped := s.dropped + [p])
  {
  }

  lemma PushEffect(s: State, k: Kind, p: Packet)
    requires s.reader == RPush(k, p)
    ensures ReaderCan(s, Quiet)
    ensures ReaderNext(s, Quiet) == s.Put(k, s.Get(k).(queue := s.Get(k).queue + [p])).(reader := RNotify(k))
  {
  }

  lemma NotifyEffect(s: State, k: Kind)
    requires s.reader == RNotify(k)
    ensures ReaderCan(s, Quiet) && ReaderNext(s, Quiet) == s.Put(k, Wake(s.Get(k))).(reader := RUnlock(k))
  {
  }

  lemma NotifyAllEffect(s: State, k: Kind, after: ReaderPc)
    requires (s.reader.RNotifyAudio? && k.Audio? && after.RNotifyVideo?)
             || (s.reader.RNotifyVideo? && k.Video? && after.RDone?)
    ensures ReaderCan(s, Quiet) && ReaderNext(s, Quiet) == s.Put(k, Wake(s.Get(k))).(reader := after)
  {
  }

  // ---------------------------------------------------------------- the consumers' statements in the model

  lemma LaneEffect(cfg: Config, s: State, k: Kind, c: Choice)
    requires !s.Get(k).pc.Working? && ConsumerCan(cfg, k, s.Get(k), c)
    ensures Enabled(cfg, s, Consumer(k, c))
    ensures Do(cfg, s, Consumer(k, c)) == s.Put(k, LaneNext(cfg, k, s.Get(k), s.quit, !NotifyPending(s, k), c))
  {
  }

  lemma BlockEffect(cfg: Config, s: State, k: Kind)
    requires s.Get(k).pc.Block?
    ensures Enabled(cfg, s, Consumer(k, Quiet))
    ensures Do(cfg, s, Consumer(k, Quiet)) == s.Put(k, s.Get(k).(pc := Asleep, owner := Free, late := !NotifyPending(s, k)))
  {
    LaneEffect(cfg, s, k, Quiet);
  }

  lemma DecideEffect(cfg: Config, s: State, k: Kind, pkt: Option<Packet>)
    requires s.Get(k).pc.Decide?
    requires pkt == if s.Get(k).queue == [] then None else Some(s.Get(k).queue[0])
    requires s.Get(k).queue == [] ==> s.quit
    ensures Enabled(cfg, s, Consumer(k, Quiet))
    ensures
      var l := s.Get(k);
      Do(cfg, s, Consumer(k, Quiet))
      == s.Put(k, if pkt.None? then l.(pc := Leave(None))
                  else l.(pc := Leave(pkt), queue := l.queue[1..], popped := l.popped + [pkt.value]))
  {
    LaneEffect(cfg, s, k, Quiet);
  }

  lemma LeaveEffect(cfg: Config, s: State, k: Kind, pkt: Option<Packet>)
    requires s.Get(k).pc == Leave(pkt)
    ensures Enabled(cfg, s, Consumer(k, Quiet))
    ensures Do(cfg, s, Consumer(k, Quiet))
            == s.Put(k, s.Get(k).(pc := if pkt.Some? then Send(pkt.value) else Done, owner := Free))
  {
    LaneEffect(cfg, s, k, Quiet);
  }

  lemma WorkEffect(cfg: Config, s: State, k: Kind, c: Choice)
    requires s.Get(k).pc.Working? && WorkAllowed(s.Get(k).pc.work, c)
    ensures Enabled(cfg, s, Consumer(k, c)) && Do(cfg, s, Consumer(k, c)) == WorkNext(cfg, s, k, c)
  {
  }

  lemma MainNotifyEffect(s: State, k: Kind, after: MainPc)
    requires (s.main.MNotifyAudio? && k.Audio? && after.MNotifyVideo?)
             || (s.main.MNotifyVideo? && k.Video? && after.MDelay?)
    ensures MainCan(s, Quiet) && MainNext(s, Quiet) == s.Put(k, Wake(s.Get(k))).(main := after)
  {
  }

  /** The program points before and after a join. */
  predicate MainJoins(before: MainPc, after: MainPc) {
    || (before.MJoinReader? && after.MJoinAudio?)
    || (before.MJoinAudio? && after.MJoinVideo?)
    || (before.MJoinVideo? && after.MDone?)
  }

  /** The thread that main joins there has returned. */
  predicate Returned(m: MainPc, s: State) {
    match m
    case MJoinReader => s.reader.RDone?
    case MJoinAudio => s.a.pc.Done?
    case MJoinVideo => s.v.pc.Done?
    case _ => true
  }

  lemma JoinEffect(s: State, after: MainPc)
    requires MainJoins(s.main, after) && Returned(s.main, s)
    ensures MainCan(s, Quiet) && MainNext(s, Quiet) == s.(main := after)
  {
  }

  // ---------------------------------------------------------------- when a thread cannot act

  /** The thread is about to take the mutex of lane k. */
  predicate Seeks(me: Thread, k: Kind, s: State) {
    match me
    case TheReader =>
      (s.reader.RLockAudio? && k.Audio?) || (s.reader.RLockVideo? && k.Video?) || (s.reader.RLock? && s.reader.k == k)
    case TheConsumer(k') => k' == k && (s.Get(k).pc.Lock? || s.Get(k).pc.Woken?)
    case TheMain => false
  }

  /** Its mutex is taken, it has not been notified, or the thread it joins has not returned. */
  predicate Blocked(me: Thread, s: State) {
    || (Seeks(me, Audio, s) && !s.a.owner.Free?) || (Seeks(me, Video, s) && !s.v.owner.Free?)
    || (me.TheConsumer? && s.Get(me.k).pc.Asleep?)
    || (me.TheMain? && !Returned(s.main, s))
  }
}
