/**
  The player as the program has it: shared objects, and the body of each thread with
  the loops, breaks and lock scopes of the source. Between any two statements of a
  thread the other threads and the device do whatever the model lets them do. What a
  body then does to the shared objects is a run of PlayerModel in which its own
  statements are the thread's actions, so all that is proved of runs holds of it.

  A body is watched for a number of turns, since a thread may wait or run for ever, and
  cut off with Cut when these have been used up. In each turn the others have their part
  and then the thread does one statement, unless it is blocked; the contract of a body
  says that the shared objects end up where the turns of PlayerTurns lead. The program
  counters record where a thread is for the others to see; a body looks at its own only
  to find out that it has been notified and to carry on the histories kept there.
  */
module PlayerObject {
  import opened Options
  import opened PlayerModel
  import opened PlayerInvariant
  import opened PlayerSafety
  import opened PlayerRely
  import opened PlayerTurns

  /** Cut: the horizon has been reached. */
  datatype Watched = Going | Cut {
    predicate IsFailure() { Cut? }
    function PropagateFailure(): Watched requires IsFailure() { Cut }
  }

  /** A queue with its mutex, its condition variable and the thread that drains it. */
  class Intake {
    var queue: seq<Packet>
    var owner: Owner
    var pc: ConsumerPc
    var decoder: Decoder
    var popped: seq<Packet>
    var freed: seq<Packet>
    var late: bool

    function View(): Lane
      reads this
    {
      Lane(queue, owner, pc, decoder, popped, freed, late)
    }

    constructor (l: Lane)
      ensures View() == l
    {
      queue, owner, pc, decoder := l.queue, l.owner, l.pc, l.decoder;
      popped, freed, late := l.popped, l.freed, l.late;
    }

    /** At most one thread waits on the condition variable. */
    method WakeSleeper()
      modifies this
      ensures View() == Wake(old(View()))
    {
      if pc.Asleep? {
        pc, late := Woken, false;
      }
    }

    /** front and pop */
    method Pop() returns (p: Packet)
      requires queue != []
      modifies this`queue, this`popped
      ensures old(queue) == [p] + queue && queue == old(queue)[1..] && popped == old(popped) + [p]
    {
      p := queue[0];
      queue, popped := queue[1..], popped + [p];
    }

    /** What avcodec_send_packet leaves behind, and whether it returned 0. */
    method Feed(p: Packet, c: Choice) returns (ok: bool)
      requires c.SendOk? || c.SendAgain? || c.SendFailed?
      modifies this`pc, this`decoder
      ensures View() == SendNext(old(View()), p, c)
      ensures ok <==> c.SendOk?
    {
      ok := false;
      match c {
        case SendOk(pending) =>
          decoder, ok := decoder.(accepted := decoder.accepted + [p], pending := pending), true;
        case SendAgain =>
          decoder := decoder.(refused := decoder.refused + 1);
        case SendFailed(pending) =>
          decoder := decoder.(pending := pending, failed := true);
        case _ =>
      }
      pc := if ok then Receive(p) else Release(p);
    }

    /** What avcodec_receive_frame leaves behind, and the frame if it returned 0. */
    method Drain(k: Kind, p: Packet, c: Choice) returns (f: Option<Frame>)
      requires ReceiveAllowed(decoder, c)
      modifies this`pc, this`decoder
      ensures View() == ReceiveNext(k, old(View()), p, c)
      ensures f == if c.Got? then Some(old(decoder).pending[0]) else None
    {
      f, pc := None, Release(p);
      match c {
        case Got =>
          f := Some(decoder.pending[0]);
          decoder := decoder.(delivered := decoder.delivered + [f.value], pending := decoder.pending[1..]);
          pc := Working(p, f.value, if k.Audio? then Convert else SampleQueue);
        case ReceiveFailed(pending) =>
          decoder := decoder.(pending := pending, failed := true);
        case _ =>
      }
    }

    method Become(l: Lane)
      modifies this
      ensures View() == l
    {
      queue, owner, pc, decoder := l.queue, l.owner, l.pc, l.decoder;
      popped, freed, late := l.popped, l.freed, l.late;
    }
  }

  class Player {
    const cfg: Config
    const audio: Intake
    const video: Intake
    var quit: bool
    var reader: ReaderPc
    var main: MainPc
    var events: nat
    var demuxed: seq<Packet>
    var dropped: seq<Packet>
    var deviceQueued: nat
    var devicePlayed: nat
    var deviceRefused: nat
    var audioWrittenBytes: int
    var shown: seq<Shown>

    // The world: what the others try to do at each turn, and what a callee returns; what its contract does not allow
    // stands for its error.
    const others: nat -> seq<Action>
    const callee: nat -> Choice
    const horizon: nat
    var turn: nat

    // The thread that is watched, and the states before a turn and between its two parts.
    const watched: Thread
    ghost const run: nat -> State
    ghost const mid: nat -> State

    function View(): State
      reads this, audio, video
    {
      State(quit, audio.View(), video.View(), reader, main, events, demuxed, dropped,
            deviceQueued, devicePlayed, deviceRefused, audioWrittenBytes, shown)
    }

    /** The shared objects are in a state the model can reach. */
    ghost predicate Valid()
      reads this, audio, video
    {
      audio != video && turn <= horizon && Reachable(cfg, View())
    }

    /** Thread me is watched, and all turns so far have been used. */
    ghost predicate Between(me: Thread)
      reads this, audio, video
    {
      && Valid() && me == watched
      && Described(cfg, me, others, callee, run, mid) && View() == run(turn)
    }

    /** The others have had their part of the last turn, and thread me has not. */
    ghost predicate InTurn(me: Thread)
      reads this, audio, video
    {
      && Valid() && me == watched && turn > 0
      && Described(cfg, me, others, callee, run, mid) && View() == mid(turn - 1)
    }

    /** The player in any state it can be in. */
    constructor (cfg: Config, me: Thread, start: State, others: nat -> seq<Action>, callee: nat -> Choice, horizon: nat)
      requires Reachable(cfg, start)
      ensures Between(me) && fresh(audio) && fresh(video)
      ensures this.cfg == cfg && View() == start && turn == 0
      ensures this.others == others && this.callee == callee && this.horizon == horizon
    {
      this.cfg, watched, this.others, this.callee, this.horizon := cfg, me, others, callee, horizon;
      audio := new Intake(start.a);
      video := new Intake(start.v);
      quit, reader, main, events, demuxed, dropped :=
        start.quit, start.reader, start.main, start.events, start.demuxed, start.dropped;
      deviceQueued, devicePlayed, deviceRefused := start.queued, start.played, start.refused;
      audioWrittenBytes, shown, turn := start.written, start.shown, 0;
      ghost var turns: nat -> State := (j: nat) => Turns(cfg, me, others, callee, 0, j, start);
      run := turns;
      mid := (j: nat) => Interferes(cfg, me, turns(j), others(j));
      new;
      assert forall j: nat :: TurnAt(cfg, me, others, callee, run, mid, j);
    }

    function LaneOf(k: Kind): Intake {
      if k.Audio? then audio else video
    }

    method Become(t: State)
      requires audio != video
      modifies this`quit, this`reader, this`main, this`events, this`demuxed, this`dropped, this`deviceQueued,
               this`devicePlayed, this`deviceRefused, this`audioWrittenBytes, this`shown, audio, video
      ensures View() == t
    {
      audio.Become(t.a);
      video.Become(t.v);
      quit, reader, main, events, demuxed, dropped := t.quit, t.reader, t.main, t.events, t.demuxed, t.dropped;
      deviceQueued, devicePlayed, deviceRefused := t.queued, t.played, t.refused;
      audioWrittenBytes, shown := t.written, t.shown;
    }

    /** The others' part of a turn, and all of it if the thread is blocked; there is none beyond the horizon. */
    method Others(me: Thread) returns (o: Watched)
      requires Between(me) || (InTurn(me) && Blocked(me, View()))
      modifies this, audio, video
      ensures if o.Going?
              then InTurn(me) && turn == old(turn) + 1 && old(View()) == run(old(turn))
              else Between(me) && turn == old(turn) == horizon && View() == old(View())
      ensures Undisturbed(me, old(View()), View())
    {
      LastTurnUsed(me);
      if turn == horizon {
        return Cut;
      }
      ghost var s := View();
      NextTurn(me, s);
      Become(Interferes(cfg, me, View(), others(turn)));
      turn := turn + 1;
      return Going;
    }

    /** In the course of a turn the shared objects are as the others' enabled actions leave the state it began in. */
    lemma OthersPart(me: Thread)
      requires InTurn(me)
      ensures View() == Interferes(cfg, me, run(turn - 1), others(turn - 1))
    {
      TurnBegins(cfg, me, others, callee, run, mid, turn - 1);
    }

    lemma LastTurnUsed(me: Thread)
      requires Between(me) || (InTurn(me) && Blocked(me, View()))
      ensures Between(me)
    {
      if !Between(me) {
        TurnIsStuck(cfg, me, others, callee, run, mid, turn - 1);
      }
    }

    lemma NextTurn(me: Thread, s: State)
      requires Between(me) && s == View()
      ensures mid(turn) == Interferes(cfg, me, s, others(turn))
      ensures Reachable(cfg, mid(turn)) && Undisturbed(me, s, mid(turn))
    {
      TurnBegins(cfg, me, others, callee, run, mid, turn);
      InterferesSafely(cfg, me, s, others(turn));
    }

    /** The thread's part: the statement has taken the shared objects where its action takes the model. */
    lemma Did(me: Thread, before: State, act: Action)
      requires audio != video && 0 < turn <= horizon && me == watched && Described(cfg, me, others, callee, run, mid)
      requires Reachable(cfg, before) && before == mid(turn - 1)
      requires act == NextAction(cfg, me, before, callee(turn - 1))
      requires Enabled(cfg, before, act) && View() == Do(cfg, before, act)
      ensures Between(me)
    {
      TurnIsUsed(cfg, me, others, callee, run, mid, turn - 1, act);
      ReachableStep(cfg, before, act);
    }

    /** Waiting for a mutex in the course of a turn: the others go on until it is free. */
    method AwaitFree(me: Thread, k: Kind) returns (o: Watched)
      requires InTurn(me) && Seeks(me, k, View())
      modifies this, audio, video
      ensures if o.Going? then InTurn(me) && LaneOf(k).owner.Free? else Between(me) && turn == horizon
      ensures Undisturbed(me, old(View()), View()) && turn >= old(turn)
    {
      o := Going;
      while o.Going? && !LaneOf(k).owner.Free?
        invariant if o.Going? then InTurn(me) else Between(me) && turn == horizon
        invariant Undisturbed(me, old(View()), View()) && Seeks(me, k, View()) && turn >= old(turn)
        decreases horizon - turn, if o.Going? then 1 else 0
      {
        ghost var s := View();
        o := Others(me);
        Follow(me, old(View()), s, View());
      }
    }

    // -------------------------------------------------------------- the reader, lines 208-247

    method ReaderLock(k: Kind, after: ReaderPc) returns (o: Watched)
      requires Between(TheReader) && ReaderLocks(reader, k, after)
      modifies this, audio, video
      ensures Between(TheReader) && (o.Cut? ==> turn == horizon)
      ensures o.Going? ==> reader == after && turn > old(turn)
    {
      o := Going;
      :- Others(TheReader);
      :- ReaderTakes(k, after);
    }

    /** The rest of the turn in which the reader has come to a lock(), and further turns until it is got. */
    method ReaderTakes(k: Kind, after: ReaderPc) returns (o: Watched)
      requires InTurn(TheReader) && ReaderLocks(reader, k, after)
      modifies this, audio, video
      ensures Between(TheReader) && (o.Cut? ==> turn == horizon)
      ensures o.Going? ==> reader == after && turn >= old(turn)
    {
      o := Going;
      :- AwaitFree(TheReader, k);
      ReaderOwns(k, after);
    }

    method ReaderOwns(k: Kind, after: ReaderPc)
      requires InTurn(TheReader) && ReaderLocks(reader, k, after) && LaneOf(k).owner.Free?
      modifies this`reader, LaneOf(k)`owner
      ensures Between(TheReader) && reader == after
    {
      ghost var s := View();
      LockEffect(s, k, after);
      LaneOf(k).owner := ByReader;
      reader := after;
      Did(TheReader, s, Reader(Quiet));
    }

    method ReaderUnlock(k: Kind, after: ReaderPc) returns (o: Watched)
      requires Between(TheReader) && ReaderUnlocks(reader, k, after)
      modifies this, audio, video
      ensures Between(TheReader) && (o.Cut? ==> turn == horizon)
      ensures o.Going? ==> reader == after && turn > old(turn)
    {
      o := Going;
      :- Others(TheReader);
      ghost var s := View();
      UnlockEffect(s, k, after);
      LaneOf(k).owner := Free;
      reader := after;
      Did(TheReader, s, Reader(Quiet));
    }

    /** The evaluation of !quit at the top of the loop. */
    method ReaderStops() returns (o: Watched, stop: bool)
      requires Between(TheReader) && reader.RTop?
      modifies this, audio, video
      ensures Between(TheReader) && (o.Cut? ==> turn == horizon)
      ensures o.Going? ==> reader == (if stop then RStore else RLockAudio) && turn > old(turn) && (stop ==> quit)
    {
      stop := false;
      :- Others(TheReader);
      ghost var s := View();
      stop := quit;
      reader := if stop then RStore else RLockAudio;
      Did(TheReader, s, Reader(Quiet));
      return Going, stop;
    }

    method FindsFull() returns (o: Watched, full: bool)
      requires Between(TheReader) && reader.RCheck?
      modifies this, audio, video
      ensures Between(TheReader) && (o.Cut? ==> turn == horizon)
      ensures o.Going? ==> reader == RUnlockAudio(full) && turn > old(turn)
      ensures o.Going? ==> (full <==> |audio.queue| >= 200 || |video.queue| >= 200)
    {
      full := false;
      :- Others(TheReader);
      ghost var s := View();
      full := |audio.queue| >= MAX_QUEUE_SIZE || |video.queue| >= MAX_QUEUE_SIZE;
      reader := RUnlockAudio(full);
      Did(TheReader, s, Reader(Quiet));
      return Going, full;
    }

    /** sleep_for */
    method ReaderSleeps() returns (o: Watched)
      requires Between(TheReader) && reader.RSleep?
      modifies this, audio, video
      ensures Between(TheReader) && (o.Cut? ==> turn == horizon)
      ensures o.Going? ==> reader.RTop? && turn > old(turn)
    {
      o := Going;
      :- Others(TheReader);
      ghost var s := View();
      reader := RTop;
      Did(TheReader, s, Reader(Quiet));
    }

    /** av_read_frame; when it is called both queues have room, though neither mutex is held. */
    method ReadFrame() returns (o: Watched, pkt: Option<Packet>)
      requires Between(TheReader) && reader.RFetch?
      modifies this, audio, video
      ensures Between(TheReader) && (o.Cut? ==> turn == horizon)
      ensures o.Going? ==> |audio.queue| < 200 && |video.queue| < 200 && turn > old(turn)
      ensures o.Going? && pkt.None? ==> reader.RStore? && demuxed == old(demuxed)
      ensures o.Going? && pkt.Some? ==> reader == RRoute(pkt.value) && demuxed == old(demuxed) + [pkt.value]
    {
      pkt := None;
      var c := callee(turn);
      :- Others(TheReader);
      if !c.Demuxed? {
        c := Eof;
      }
      ghost var s := View();
      RoomToFetch(s);
      if c.Eof? {
        reader := RStore;
      } else {
        pkt := Some(Packet(|demuxed|, c.kind));
        demuxed := demuxed + [pkt.value];
        reader := RRoute(pkt.value);
      }
      Did(TheReader, s, Reader(c));
      return Going, pkt;
    }

    lemma RoomToFetch(s: State)
      requires Valid() && s == View() && reader.RFetch?
      ensures |audio.queue| < 200 && |video.queue| < 200
    {
      ReachableInv(cfg, s);
      assert CapacityInv(s);
    }

    /** Where a packet goes is decided by its stream; another stream's is freed. */
    method RouteOrFree(p: Packet) returns (o: Watched)
      requires Between(TheReader) && reader == RRoute(p)
      modifies this, audio, video
      ensures Between(TheReader) && (o.Cut? ==> turn == horizon)
      ensures o.Going? ==> reader == (if p.kind.Some? then RLock(p.kind.value, p) else RTop) && turn > old(turn)
    {
      o := Going;
      :- Others(TheReader);
      ghost var s := View();
      if p.kind.Some? {
        reader := RLock(p.kind.value, p);
      } else {
        dropped := dropped + [p];
        reader := RTop;
      }
      RouteEffect(s, p);
      Did(TheReader, s, Reader(Quiet));
    }

    method Appends(k: Kind, p: Packet) returns (o: Watched)
      requires Between(TheReader) && reader == RPush(k, p)
      modifies this, audio, video
      ensures Between(TheReader) && (o.Cut? ==> turn == horizon)
      ensures o.Going? ==> reader == RNotify(k) && LaneOf(k).queue != [] && turn > old(turn)
    {
      o := Going;
      :- Others(TheReader);
      QueueGrows(k, p);
    }

    method QueueGrows(k: Kind, p: Packet)
      requires InTurn(TheReader) && reader == RPush(k, p)
      modifies this`reader, LaneOf(k)`queue
      ensures Between(TheReader) && reader == RNotify(k) && LaneOf(k).queue == old(LaneOf(k).queue) + [p]
    {
      ghost var s := View();
      LaneOf(k).queue := LaneOf(k).queue + [p];
      reader := RNotify(k);
      PushEffect(s, k, p);
      Did(TheReader, s, Reader(Quiet));
    }

    /** push; the room found before both mutexes were released is still there. */
    method Push(k: Kind, p: Packet) returns (o: Watched)
      requires Between(TheReader) && reader == RPush(k, p)
      modifies this, audio, video
      ensures Between(TheReader) && (o.Cut? ==> turn == horizon)
      ensures o.Going? ==> reader == RNotify(k) && 0 < |LaneOf(k).queue| <= 200 && turn > old(turn)
    {
      o := Going;
      :- Appends(k, p);
      QueueBounded(View(), k);
    }

    lemma QueueBounded(s: State, k: Kind)
      requires Valid() && s == View()
      ensures |LaneOf(k).queue| <= 200
    {
      Backpressure(cfg, s);
    }

    /** notify_one with the mutex held. */
    method NotifyOne(k: Kind) returns (o: Watched)
      requires Between(TheReader) && reader == RNotify(k)
      modifies this, audio, video
      ensures Between(TheReader) && (o.Cut? ==> turn == horizon)
      ensures o.Going? ==> reader == RUnlock(k) && !LaneOf(k).pc.Asleep? && turn > old(turn)
    {
      o := Going;
      :- Others(TheReader);
      ghost var s := View();
      LaneOf(k).WakeSleeper();
      reader := RUnlock(k);
      NotifyEffect(s, k);
      Did(TheReader, s, Reader(Quiet));
    }

    /** quit = true */
    method ReaderQuits() returns (o: Watched)
      requires Between(TheReader) && reader.RStore?
      modifies this, audio, video
      ensures Between(TheReader) && (o.Cut? ==> turn == horizon)
      ensures o.Going? ==> reader.RNotifyAudio? && quit && turn > old(turn)
    {
      o := Going;
      :- Others(TheReader);
      ghost var s := View();
      quit := true;
      reader := RNotifyAudio;
      Did(TheReader, s, Reader(Quiet));
    }

    /** notify_all, without the mutex. */
    method ReaderNotifiesAll(k: Kind, after: ReaderPc) returns (o: Watched)
      requires Between(TheReader) && quit
      requires (reader.RNotifyAudio? && k.Audio? && after.RNotifyVideo?) || (reader.RNotifyVideo? && k.Video? && after.RDone?)
      modifies this, audio, video
      ensures Between(TheReader) && (o.Cut? ==> turn == horizon)
      ensures o.Going? ==> reader == after && quit && !LaneOf(k).pc.Asleep? && turn > old(turn)
    {
      o := Going;
      :- Others(TheReader);
      ghost var s := View();
      LaneOf(k).WakeSleeper();
      reader := after;
      NotifyAllEffect(s, k, after);
      Did(TheReader, s, Reader(Quiet));
    }

    /** Lines 211-224: with both mutexes the sizes are looked at; if there is no room the reader sleeps without them. */
    method HasRoom() returns (o: Watched, room: bool)
      requires Between(TheReader) && reader.RLockAudio?
      modifies this, audio, video
      ensures Between(TheReader) && (o.Cut? ==> turn == horizon)
      ensures o.Going? ==> reader == (if room then RFetch else RTop) && turn > old(turn)
    {
      room := false;
      :- ReaderLock(Audio, RLockVideo);
      :- ReaderLock(Video, RCheck);
      var full :- FindsFull();
      if full {
        :- ReaderUnlock(Audio, RUnlockVideo(true));
        :- ReaderUnlock(Video, RSleep);
        :- ReaderSleeps();
        return Going, false;
      }
      :- ReaderUnlock(Audio, RUnlockVideo(false));
      :- ReaderUnlock(Video, RFetch);
      return Going, true;
    }

    /** Lines 231-241: a packet goes to the queue of its stream under that queue's mutex, or is freed. */
    method Deliver(p: Packet) returns (o: Watched)
      requires Between(TheReader) && reader == RRoute(p)
      modifies this, audio, video
      ensures Between(TheReader) && (o.Cut? ==> turn == horizon)
      ensures o.Going? ==> reader.RTop? && turn > old(turn)
    {
      o := Going;
      :- RouteOrFree(p);
      match p.kind {
        case Some(k) =>
          :- ReaderLock(k, RPush(k, p));
          :- Push(k, p);
          :- NotifyOne(k);
          :- ReaderUnlock(k, RTop);
        case None =>
      }
    }

    method ReaderBody() returns (o: Watched)
      requires Between(TheReader) && reader.RTop?
      modifies this, audio, video
      ensures Between(TheReader) && turn >= old(turn) && (o.Cut? ==> turn == horizon)
      ensures o.Going? ==> reader.RDone? && quit
    {
      while true
        invariant Between(TheReader) && reader.RTop? && turn >= old(turn)
        decreases horizon - turn
      {
        var stop :- ReaderStops();
        if stop {
          break;
        }
        var room :- HasRoom();
        if !room {
          continue;
        }
        var pkt :- ReadFrame();
        if pkt.None? {
          break;
        }
        :- Deliver(pkt.value);
      }
      :- ReaderQuits();
      :- ReaderNotifiesAll(Audio, RNotifyVideo);
      :- ReaderNotifiesAll(Video, RDone);
      return Going;
    }

    /** read_thread_func; if it is not cut off, it has stored quit and then notified both consumers. */
    method ReadThread() returns (o: Watched)
      requires Between(TheReader) && reader.RTop?
      modifies this, audio, video
      ensures Between(TheReader) && turn >= old(turn) && (o.Cut? ==> turn == horizon)
      ensures View() == Turns(cfg, TheReader, others, callee, old(turn), turn, old(View()))
      ensures o.Going? ==> reader.RDone? && quit
    {
      o := ReaderBody();
      DescribedIsTurns(cfg, TheReader, others, callee, run, mid, old(turn), turn);
    }

    // -------------------------------------------------------------- both consumers, lines 251-259 and 294-302

    /** The evaluation of !quit at the top of the loop. */
    method ConsumerStops(k: Kind) returns (o: Watched, stop: bool)
      requires Between(TheConsumer(k)) && LaneOf(k).pc.Top?
      modifies this, audio, video
      ensures Between(TheConsumer(k)) && (o.Cut? ==> turn == horizon)
      ensures o.Going? ==> LaneOf(k).pc == (if stop then Done else Lock) && turn > old(turn) && (stop ==> quit)
    {
      stop := false;
      :- Others(TheConsumer(k));
      ghost var s := View();
      stop := quit;
      LaneOf(k).pc := if stop then Done else Lock;
      LaneEffect(cfg, s, k, Quiet);
      Did(TheConsumer(k), s, Consumer(k, Quiet));
      return Going, stop;
    }

    /** The mutex is taken. */
    method ConsumerLock(k: Kind) returns (o: Watched)
      requires Between(TheConsumer(k)) && LaneOf(k).pc.Lock?
      modifies this, audio, video
      ensures Between(TheConsumer(k)) && (o.Cut? ==> turn == horizon)
      ensures o.Going? ==> LaneOf(k).pc.Eval? && turn > old(turn)
    {
      o := Going;
      :- Others(TheConsumer(k));
      :- Relocks(k);
    }

    /** The wait predicate. */
    method Evaluates(k: Kind) returns (o: Watched, holds: bool)
      requires Between(TheConsumer(k)) && LaneOf(k).pc.Eval?
      modifies this, audio, video
      ensures Between(TheConsumer(k)) && (o.Cut? ==> turn == horizon)
      ensures o.Going? ==> LaneOf(k).pc == (if holds then Decide else Block) && turn > old(turn)
    {
      holds := false;
      :- Others(TheConsumer(k));
      ghost var s := View();
      holds := LaneOf(k).queue != [] || quit;
      LaneOf(k).pc := if holds then Decide else Block;
      LaneEffect(cfg, s, k, Quiet);
      Did(TheConsumer(k), s, Consumer(k, Quiet));
      return Going, holds;
    }

    /** The mutex is released and the thread goes to sleep in one step. */
    method FallsAsleep(k: Kind) returns (o: Watched)
      requires Between(TheConsumer(k)) && LaneOf(k).pc.Block?
      modifies this, audio, video
      ensures Between(TheConsumer(k)) && (o.Cut? ==> turn == horizon)
      ensures o.Going? ==> LaneOf(k).pc.Asleep? && turn > old(turn)
    {
      o := Going;
      :- Others(TheConsumer(k));
      ghost var s := View();
      BlockEffect(cfg, s, k);
      LaneOf(k).late := !NotifyPending(View(), k);
      LaneOf(k).owner, LaneOf(k).pc := Free, Asleep;
      Did(TheConsumer(k), s, Consumer(k, Quiet));
    }

    /** It is awake again when somebody has notified it. */
    method AwaitsNotice(k: Kind) returns (o: Watched)
      requires Between(TheConsumer(k)) && LaneOf(k).pc.Asleep?
      modifies this, audio, video
      ensures if o.Going? then InTurn(TheConsumer(k)) && LaneOf(k).pc.Woken? && turn > old(turn)
              else Between(TheConsumer(k)) && turn == horizon
    {
      o := Going;
      :- Others(TheConsumer(k));
      while LaneOf(k).pc.Asleep?
        invariant InTurn(TheConsumer(k)) && (LaneOf(k).pc.Asleep? || LaneOf(k).pc.Woken?) && turn > old(turn)
        invariant o.Going?
        decreases horizon - turn
      {
        :- Others(TheConsumer(k));
      }
    }

    /** Sleep, and then the mutex again when it can be had. */
    method Sleeps(k: Kind) returns (o: Watched)
      requires Between(TheConsumer(k)) && LaneOf(k).pc.Block?
      modifies this, audio, video
      ensures Between(TheConsumer(k)) && (o.Cut? ==> turn == horizon)
      ensures o.Going? ==> LaneOf(k).pc.Eval? && turn > old(turn)
    {
      o := Going;
      :- FallsAsleep(k);
      :- AwaitsNotice(k);
      :- Relocks(k);
    }

    method Relocks(k: Kind) returns (o: Watched)
      requires InTurn(TheConsumer(k)) && (LaneOf(k).pc.Lock? || LaneOf(k).pc.Woken?)
      modifies this, audio, video
      ensures Between(TheConsumer(k)) && (o.Cut? ==> turn == horizon)
      ensures o.Going? ==> LaneOf(k).pc.Eval? && turn >= old(turn)
    {
      o := Going;
      :- AwaitFree(TheConsumer(k), k);
      ConsumerOwns(k);
    }

    method ConsumerOwns(k: Kind)
      requires InTurn(TheConsumer(k)) && (LaneOf(k).pc.Lock? || LaneOf(k).pc.Woken?) && LaneOf(k).owner.Free?
      modifies LaneOf(k)`owner, LaneOf(k)`pc
      ensures Between(TheConsumer(k)) && LaneOf(k).pc.Eval?
    {
      ghost var s := View();
      LaneOf(k).owner, LaneOf(k).pc := ByConsumer, Eval;
      LaneEffect(cfg, s, k, Quiet);
      Did(TheConsumer(k), s, Consumer(k, Quiet));
    }

    /** cv.wait with a predicate. */
    method Waits(k: Kind) returns (o: Watched)
      requires Between(TheConsumer(k)) && LaneOf(k).pc.Eval?
      modifies this, audio, video
      ensures Between(TheConsumer(k)) && (o.Cut? ==> turn == horizon)
      ensures o.Going? ==> LaneOf(k).pc.Decide? && turn > old(turn)
    {
      var holds :- Evaluates(k);
      while !holds
        invariant Between(TheConsumer(k)) && LaneOf(k).pc == (if holds then Decide else Block) && turn > old(turn)
        decreases horizon - turn
      {
        :- Sleeps(k);
        holds :- Evaluates(k);
      }
      return Going;
    }

    /** The statements of the rest of the turn: leave, or front and pop. */
    method Decides(k: Kind) returns (pkt: Option<Packet>)
      requires InTurn(TheConsumer(k)) && LaneOf(k).pc.Decide?
      modifies LaneOf(k)
      ensures Between(TheConsumer(k)) && LaneOf(k).pc == Leave(pkt)
      ensures
        if old(LaneOf(k).queue) == [] then pkt.None? && LaneOf(k).queue == [] && quit && LaneOf(k).popped == old(LaneOf(k).popped)
        else pkt == Some(old(LaneOf(k).queue)[0]) && LaneOf(k).queue == old(LaneOf(k).queue)[1..]
             && LaneOf(k).popped == old(LaneOf(k).popped) + [pkt.value]
    {
      pkt := None;
      ghost var s := View();
      FrontExists(s, k);
      if !(quit && LaneOf(k).queue == []) {
        var p := LaneOf(k).Pop();
        pkt := Some(p);
      }
      LaneOf(k).pc := Leave(pkt);
      DecideEffect(cfg, s, k, pkt);
      Did(TheConsumer(k), s, Consumer(k, Quiet));
    }

    /**
      With quit and an empty queue the thread leaves; otherwise the queue, as the others have left it, has a front, and
      exactly that is taken.
      */
    method LeavesOrPops(k: Kind) returns (o: Watched, pkt: Option<Packet>)
      requires Between(TheConsumer(k)) && LaneOf(k).pc.Decide?
      modifies this, audio, video
      ensures Between(TheConsumer(k)) && (o.Cut? ==> turn == horizon)
      ensures o.Going? ==> LaneOf(k).pc == Leave(pkt) && turn > old(turn)
      ensures o.Going? ==>
                var queue := mid(old(turn)).Get(k).queue;
                if queue == [] then pkt.None? && LaneOf(k).queue == [] && quit && LaneOf(k).popped == old(LaneOf(k).popped)
                else pkt == Some(queue[0]) && LaneOf(k).queue == queue[1..]
                     && LaneOf(k).popped == old(LaneOf(k).popped) + [pkt.value]
    {
      pkt := None;
      :- Others(TheConsumer(k));
      pkt := Decides(k);
      return Going, pkt;
    }

    lemma FrontExists(s: State, k: Kind)
      requires Valid() && s == View() && LaneOf(k).pc.Decide?
      ensures LaneOf(k).queue != [] || quit
    {
      NoLostPush(cfg, s, k);
    }

    /** The end of the scope of the lock. */
    method ConsumerUnlock(k: Kind, pkt: Option<Packet>) returns (o: Watched)
      requires Between(TheConsumer(k)) && LaneOf(k).pc == Leave(pkt)
      modifies this, audio, video
      ensures Between(TheConsumer(k)) && (o.Cut? ==> turn == horizon) && LaneOf(k).popped == old(LaneOf(k).popped)
      ensures o.Going? ==> LaneOf(k).pc == (if pkt.Some? then Send(pkt.value) else Done) && turn > old(turn)
      ensures o.Going? && old(quit) ==> quit
    {
      o := Going;
      :- Others(TheConsumer(k));
      ghost var s := View();
      LaneOf(k).owner := Free;
      LaneOf(k).pc := if pkt.Some? then Send(pkt.value) else Done;
      LeaveEffect(cfg, s, k, pkt);
      Did(TheConsumer(k), s, Consumer(k, Quiet));
    }

    /** The scope of the lock: None is the break out of the loop, possible only on quit. */
    method TakesPacket(k: Kind) returns (o: Watched, pkt: Option<Packet>)
      requires Between(TheConsumer(k)) && LaneOf(k).pc.Lock?
      modifies this, audio, video
      ensures Between(TheConsumer(k)) && (o.Cut? ==> turn == horizon)
      ensures o.Going? ==> LaneOf(k).pc == (if pkt.Some? then Send(pkt.value) else Done) && turn > old(turn)
      ensures o.Going? && pkt.None? ==> quit
    {
      pkt := None;
      :- ConsumerLock(k);
      :- Waits(k);
      pkt :- LeavesOrPops(k);
      :- ConsumerUnlock(k, pkt);
      return Going, pkt;
    }

    // -------------------------------------------------------------- decoding

    /** avcodec_send_packet; whether it returned 0. */
    method Sends(k: Kind, p: Packet) returns (o: Watched, ok: bool)
      requires Between(TheConsumer(k)) && LaneOf(k).pc == Send(p)
      modifies this, audio, video
      ensures Between(TheConsumer(k)) && (o.Cut? ==> turn == horizon)
      ensures o.Going? ==> LaneOf(k).pc == (if ok then Receive(p) else Release(p)) && turn > old(turn)
      ensures o.Going? && ok ==> LaneOf(k).decoder.accepted == old(LaneOf(k).decoder.accepted) + [p]
    {
      ok := false;
      var c := callee(turn);
      :- Others(TheConsumer(k));
      if !SendAllowed(cfg.Decoding(k), LaneOf(k).decoder, p, c) {
        c := SendFailed([]);
      }
      ghost var s := View();
      ok := LaneOf(k).Feed(p, c);
      LaneEffect(cfg, s, k, c);
      Did(TheConsumer(k), s, Consumer(k, c));
      return Going, ok;
    }

    /** avcodec_receive_frame; the frame if it returned 0. */
    method ReceivesFrame(k: Kind, p: Packet) returns (o: Watched, f: Option<Frame>)
      requires Between(TheConsumer(k)) && LaneOf(k).pc == Receive(p)
      modifies this, audio, video
      ensures Between(TheConsumer(k)) && (o.Cut? ==> turn == horizon)
      ensures o.Going? && f.None? ==> LaneOf(k).pc == Release(p) && turn > old(turn)
      ensures o.Going? && f.Some? ==>
                && LaneOf(k).pc == Working(p, f.value, if k.Audio? then Convert else SampleQueue) && turn > old(turn)
                && LaneOf(k).decoder.delivered == old(LaneOf(k).decoder.delivered) + [f.value]
    {
      f := None;
      var c := callee(turn);
      :- Others(TheConsumer(k));
      if !ReceiveAllowed(LaneOf(k).decoder, c) {
        c := ReceiveFailed([]);
      }
      ghost var s := View();
      f := LaneOf(k).Drain(k, p, c);
      LaneEffect(cfg, s, k, c);
      Did(TheConsumer(k), s, Consumer(k, c));
      return Going, f;
    }

    /** av_packet_free */
    method Frees(k: Kind, p: Packet) returns (o: Watched)
      requires Between(TheConsumer(k)) && LaneOf(k).pc == Release(p)
      modifies this, audio, video
      ensures Between(TheConsumer(k)) && (o.Cut? ==> turn == horizon)
      ensures o.Going? ==> LaneOf(k).pc.Top? && LaneOf(k).freed == old(LaneOf(k).freed) + [p] && turn > old(turn)
    {
      o := Going;
      :- Others(TheConsumer(k));
      ghost var s := View();
      LaneOf(k).freed := LaneOf(k).freed + [p];
      LaneOf(k).pc := Top;
      LaneEffect(cfg, s, k, Quiet);
      Did(TheConsumer(k), s, Consumer(k, Quiet));
    }

    // -------------------------------------------------------------- the audio thread, lines 250-278

    /** swr_convert; how many bytes there are to play, if any. */
    method Converts(p: Packet, f: Frame) returns (o: Watched, size: int)
      requires Between(TheConsumer(Audio)) && audio.pc == Working(p, f, Convert)
      modifies this, audio, video
      ensures Between(TheConsumer(Audio)) && (o.Cut? ==> turn == horizon)
      ensures o.Going? ==> audio.pc == (if size > 0 then Working(p, f, Enqueue(size)) else Receive(p)) && turn > old(turn)
      ensures o.Going? ==> size == cfg.DataSize(old(audio.decoder.delivered)) <= 192000
    {
      size := 0;
      :- Others(TheConsumer(Audio));
      ghost var s := View();
      size := cfg.DataSize(audio.decoder.delivered);
      ChunkFits(cfg, audio.decoder.delivered);
      audio.pc := if size > 0 then Working(p, f, Enqueue(size)) else Receive(p);
      WorkEffect(cfg, s, Audio, Quiet);
      Did(TheConsumer(Audio), s, Consumer(Audio, Quiet));
      return Going, size;
    }

    method DeviceTakes(p: Packet, f: Frame, size: nat)
      requires InTurn(TheConsumer(Audio)) && audio.pc == Working(p, f, Enqueue(size))
      requires !callee(turn - 1).Refused?
      modifies this`deviceQueued, audio`pc
      ensures Between(TheConsumer(Audio)) && audio.pc == Working(p, f, Account(size))
    {
      ghost var s := View();
      deviceQueued := deviceQueued + size;
      audio.pc := Working(p, f, Account(size));
      WorkEffect(cfg, s, Audio, Quiet);
      Did(TheConsumer(Audio), s, Consumer(Audio, Quiet));
    }

    method DeviceRefuses(p: Packet, f: Frame, size: nat)
      requires InTurn(TheConsumer(Audio)) && audio.pc == Working(p, f, Enqueue(size))
      requires callee(turn - 1).Refused?
      modifies this`deviceRefused, audio`pc
      ensures Between(TheConsumer(Audio)) && audio.pc == Working(p, f, Account(size))
    {
      ghost var s := View();
      deviceRefused := deviceRefused + size;
      audio.pc := Working(p, f, Account(size));
      WorkEffect(cfg, s, Audio, Refused);
      Did(TheConsumer(Audio), s, Consumer(Audio, Refused));
    }

    /** SDL_QueueAudio; nobody looks at whether the device took the bytes. */
    method QueuesAudio(p: Packet, f: Frame, size: nat) returns (o: Watched)
      requires Between(TheConsumer(Audio)) && audio.pc == Working(p, f, Enqueue(size))
      modifies this, audio, video
      ensures Between(TheConsumer(Audio)) && (o.Cut? ==> turn == horizon)
      ensures o.Going? ==> audio.pc == Working(p, f, Account(size)) && turn > old(turn)
    {
      var c := callee(turn);
      :- Others(TheConsumer(Audio));
      if c.Refused? {
        DeviceRefuses(p, f, size);
      } else {
        DeviceTakes(p, f, size);
      }
      return Going;
    }

    method Adds(p: Packet, f: Frame, size: nat) returns (o: Watched)
      requires Between(TheConsumer(Audio)) && audio.pc == Working(p, f, Account(size))
      modifies this, audio, video
      ensures Between(TheConsumer(Audio)) && (o.Cut? ==> turn == horizon)
      ensures o.Going? ==> audio.pc == Receive(p) && turn > old(turn)
    {
      o := Going;
      :- Others(TheConsumer(Audio));
      CountGrows(p, f, size);
    }

    method CountGrows(p: Packet, f: Frame, size: nat)
      requires InTurn(TheConsumer(Audio)) && audio.pc == Working(p, f, Account(size))
      modifies this`audioWrittenBytes, audio`pc
      ensures Between(TheConsumer(Audio)) && audio.pc == Receive(p)
    {
      ghost var s := View();
      audioWrittenBytes := audioWrittenBytes + size;
      audio.pc := Receive(p);
      WorkEffect(cfg, s, Audio, Quiet);
      Did(TheConsumer(Audio), s, Consumer(Audio, Quiet));
    }

    /** audio_written_bytes += data_size; the bytes were offered before. */
    method Accounts(p: Packet, f: Frame, size: nat) returns (o: Watched)
      requires Between(TheConsumer(Audio)) && audio.pc == Working(p, f, Account(size))
      modifies this, audio, video
      ensures Between(TheConsumer(Audio)) && (o.Cut? ==> turn == horizon)
      ensures o.Going? ==> audio.pc == Receive(p) && turn > old(turn)
      ensures o.Going? ==> audioWrittenBytes == devicePlayed + deviceQueued + deviceRefused
    {
      o := Going;
      :- Adds(p, f, size);
      AllCounted();
    }

    lemma AllCounted()
      requires Valid() && !audio.pc.Working?
      ensures audioWrittenBytes == devicePlayed + deviceQueued + deviceRefused
    {
      ReachableInv(cfg, View());
      assert ClockInv(cfg, View());
    }

    method PlaysFrame(p: Packet, f: Frame) returns (o: Watched)
      requires Between(TheConsumer(Audio)) && audio.pc == Working(p, f, Convert)
      modifies this, audio, video
      ensures Between(TheConsumer(Audio)) && (o.Cut? ==> turn == horizon)
      ensures o.Going? ==> audio.pc == Receive(p) && turn > old(turn)
    {
      var size :- Converts(p, f);
      if size > 0 {
        :- QueuesAudio(p, f, size);
        :- Accounts(p, f, size);
      }
      return Going;
    }

    /** Lines 261-275: the frames of a packet that was accepted, then the packet is freed. */
    method DecodesAudio(p: Packet) returns (o: Watched)
      requires Between(TheConsumer(Audio)) && audio.pc == Send(p)
      modifies this, audio, video
      ensures Between(TheConsumer(Audio)) && (o.Cut? ==> turn == horizon)
      ensures o.Going? ==> audio.pc.Top? && turn > old(turn)
    {
      var sent :- Sends(Audio, p);
      if sent {
        var f :- ReceivesFrame(Audio, p);
        while f.Some?
          invariant Between(TheConsumer(Audio)) && turn > old(turn)
          invariant audio.pc == if f.Some? then Working(p, f.value, Convert) else Release(p)
          decreases horizon - turn
        {
          :- PlaysFrame(p, f.value);
          f :- ReceivesFrame(Audio, p);
        }
      }
      :- Frees(Audio, p);
      return Going;
    }

    method AudioBody() returns (o: Watched)
      requires Between(TheConsumer(Audio)) && audio.pc.Top?
      modifies this, audio, video
      ensures Between(TheConsumer(Audio)) && turn >= old(turn) && (o.Cut? ==> turn == horizon)
      ensures o.Going? ==> audio.pc.Done? && quit
    {
      while true
        invariant Between(TheConsumer(Audio)) && audio.pc.Top? && turn >= old(turn)
        decreases horizon - turn
      {
        var stop :- ConsumerStops(Audio);
        if stop {
          break;
        }
        var pkt :- TakesPacket(Audio);
        if pkt.None? {
          break;
        }
        :- DecodesAudio(pkt.value);
      }
      return Going;
    }

    /** audio_thread_func; it returns only on quit. */
    method AudioThread() returns (o: Watched)
      requires Between(TheConsumer(Audio)) && audio.pc.Top?
      modifies this, audio, video
      ensures Between(TheConsumer(Audio)) && turn >= old(turn) && (o.Cut? ==> turn == horizon)
      ensures View() == Turns(cfg, TheConsumer(Audio), others, callee, old(turn), turn, old(View()))
      ensures o.Going? ==> audio.pc.Done? && quit
    {
      o := AudioBody();
      DescribedIsTurns(cfg, TheConsumer(Audio), others, callee, run, mid, old(turn), turn);
    }

    // -------------------------------------------------------------- the video thread, lines 280-335

    /** The thread has sampled the device queue and is about to read the counter. */
    predicate AtRead(p: Packet, f: Frame, queuedBytes: nat)
      reads this, video
    {
      && video.pc.Working? && video.pc.work.ReadWritten? && video.pc.p == p && video.pc.f == f
      && video.pc.work.sample.queued == queuedBytes
    }

    /** SDL_GetQueuedAudioSize */
    method SamplesQueue(p: Packet, f: Frame) returns (o: Watched, queuedBytes: nat)
      requires Between(TheConsumer(Video)) && video.pc == Working(p, f, SampleQueue)
      modifies this, audio, video
      ensures Between(TheConsumer(Video)) && (o.Cut? ==> turn == horizon) && shown == old(shown)
      ensures o.Going? ==> AtRead(p, f, queuedBytes) && turn > old(turn)
    {
      queuedBytes := 0;
      :- Others(TheConsumer(Video));
      ghost var s := View();
      queuedBytes := deviceQueued;
      video.pc := Working(p, f, ReadWritten(Sample(deviceQueued, View().Offered(), InFlight(audio.View()))));
      WorkEffect(cfg, s, Video, Quiet);
      Did(TheConsumer(Video), s, Consumer(Video, Quiet));
      return Going, queuedBytes;
    }

    /** The thread has read the clock and is about to look at quit. */
    predicate AtCompare(p: Packet, f: Frame, clock: int)
      reads this, video
    {
      && video.pc.Working? && video.pc.work.Compare? && video.pc.p == p && video.pc.f == f
      && video.pc.work.clock == clock
    }

    /** The byte counter less the queued bytes read before. */
    method ReadsWritten(p: Packet, f: Frame, queuedBytes: nat) returns (o: Watched, clock: int)
      requires Between(TheConsumer(Video)) && AtRead(p, f, queuedBytes)
      modifies this, audio, video
      ensures Between(TheConsumer(Video)) && (o.Cut? ==> turn == horizon) && shown == old(shown)
      ensures o.Going? ==> AtCompare(p, f, clock) && turn > old(turn)
    {
      clock := 0;
      var sample := video.pc.work.sample;
      :- Others(TheConsumer(Video));
      ghost var s := View();
      clock := audioWrittenBytes - queuedBytes;
      video.pc := Working(p, f, Compare(clock, sample, View().Offered()));
      WorkEffect(cfg, s, Video, Quiet);
      Did(TheConsumer(Video), s, Consumer(Video, Quiet));
      return Going, clock;
    }

    /** get_audio_clock in bytes: within the bounds that the bytes offered at its two reads set. */
    method GetAudioClock(p: Packet, f: Frame) returns (o: Watched, clock: int)
      requires Between(TheConsumer(Video)) && video.pc == Working(p, f, SampleQueue)
      modifies this, audio, video
      ensures Between(TheConsumer(Video)) && (o.Cut? ==> turn == horizon) && shown == old(shown)
      ensures o.Going? ==> AtCompare(p, f, clock) && turn > old(turn)
      ensures o.Going? ==> ReadOk(clock, video.pc.work.sample, video.pc.work.offers)
    {
      clock := 0;
      var queuedBytes :- SamplesQueue(p, f);
      clock :- ReadsWritten(p, f, queuedBytes);
      ClockIsBounded();
      return Going, clock;
    }

    lemma ClockIsBounded()
      requires Valid() && video.pc.Working? && video.pc.work.Compare?
      ensures ReadOk(video.pc.work.clock, video.pc.work.sample, video.pc.work.offers)
    {
      ReachableInv(cfg, View());
      assert ClockInv(cfg, View());
    }

    /** The condition of the wait loop. */
    method MustWait(p: Packet, f: Frame, clock: int) returns (o: Watched, wait: bool, byQuit: bool)
      requires Between(TheConsumer(Video)) && AtCompare(p, f, clock)
      modifies this, audio, video
      ensures Between(TheConsumer(Video)) && (o.Cut? ==> turn == horizon) && shown == old(shown)
      ensures o.Going? && wait ==> video.pc == Working(p, f, Delay) && turn > old(turn)
      ensures o.Going? && !wait ==> AtPresent(p, f, clock, byQuit) && turn > old(turn)
      ensures o.Going? && !wait ==> if byQuit then quit else !cfg.Ahead(f, clock)
    {
      wait, byQuit := false, false;
      :- Others(TheConsumer(Video));
      wait, byQuit := Compares(p, f, clock);
      return Going, wait, byQuit;
    }

    method Compares(p: Packet, f: Frame, clock: int) returns (wait: bool, byQuit: bool)
      requires InTurn(TheConsumer(Video)) && AtCompare(p, f, clock)
      modifies video`pc
      ensures Between(TheConsumer(Video)) && byQuit == quit && (wait <==> !quit && cfg.Ahead(f, clock))
      ensures if wait then video.pc == Working(p, f, Delay) else AtPresent(p, f, clock, byQuit)
    {
      var sample, offers := video.pc.work.sample, video.pc.work.offers;
      ghost var s := View();
      byQuit := quit;
      wait := !quit && cfg.Ahead(f, clock);
      video.pc := Working(p, f, if wait then Delay else Present(clock, sample, offers, quit));
      WorkEffect(cfg, s, Video, Quiet);
      Did(TheConsumer(Video), s, Consumer(Video, Quiet));
    }

    predicate AtPresent(p: Packet, f: Frame, clock: int, byQuit: bool)
      reads this, video
    {
      && video.pc.Working? && video.pc.work.Present? && video.pc.p == p && video.pc.f == f
      && video.pc.work.clock == clock && video.pc.work.byQuit == byQuit
    }

    /** SDL_Delay(1) */
    method Delays(p: Packet, f: Frame) returns (o: Watched)
      requires Between(TheConsumer(Video)) && video.pc == Working(p, f, Delay)
      modifies this, audio, video
      ensures Between(TheConsumer(Video)) && (o.Cut? ==> turn == horizon) && shown == old(shown)
      ensures o.Going? ==> video.pc == Working(p, f, SampleQueue) && turn > old(turn)
    {
      o := Going;
      :- Others(TheConsumer(Video));
      ghost var s := View();
      video.pc := Working(p, f, SampleQueue);
      WorkEffect(cfg, s, Video, Quiet);
      Did(TheConsumer(Video), s, Consumer(Video, Quiet));
    }

    /** Lines 321-328. */
    method Presents(p: Packet, f: Frame, clock: int, byQuit: bool) returns (o: Watched)
      requires Between(TheConsumer(Video)) && AtPresent(p, f, clock, byQuit)
      modifies this, audio, video
      ensures Between(TheConsumer(Video)) && (o.Cut? ==> turn == horizon)
      ensures o.Going? ==> video.pc == Receive(p) && turn > old(turn) && |shown| == |old(shown)| + 1
      ensures o.Going? ==>
                var x := shown[|shown| - 1];
                shown == old(shown) + [x] && x.f == f && x.clock == clock && x.byQuit == byQuit
    {
      var sample, offers := video.pc.work.sample, video.pc.work.offers;
      :- Others(TheConsumer(Video));
      ghost var s := View();
      shown := shown + [Shown(f, clock, sample, offers, byQuit)];
      video.pc := Receive(p);
      WorkEffect(cfg, s, Video, Quiet);
      Did(TheConsumer(Video), s, Consumer(Video, Quiet));
      return Going;
    }

    /** Lines 308-328: the frame is shown, once, and not ahead of the clock last read unless the player quits. */
    method ShowsFrame(p: Packet, f: Frame) returns (o: Watched)
      requires Between(TheConsumer(Video)) && video.pc == Working(p, f, SampleQueue)
      modifies this, audio, video
      ensures Between(TheConsumer(Video)) && (o.Cut? ==> turn == horizon)
      ensures o.Going? ==> video.pc == Receive(p) && turn > old(turn) && |shown| == |old(shown)| + 1
      ensures o.Going? ==>
                var x := shown[|shown| - 1];
                shown == old(shown) + [x] && x.f == f && (x.byQuit || !cfg.Ahead(f, x.clock))
    {
      var clock :- GetAudioClock(p, f);
      var wait: bool, byQuit: bool;
      wait, byQuit :- MustWait(p, f, clock);
      while wait
        invariant Between(TheConsumer(Video)) && shown == old(shown) && turn > old(turn)
        invariant if wait then video.pc == Working(p, f, Delay) else AtPresent(p, f, clock, byQuit)
        invariant !wait ==> byQuit || !cfg.Ahead(f, clock)
        decreases horizon - turn
      {
        :- Delays(p, f);
        clock :- GetAudioClock(p, f);
        wait, byQuit :- MustWait(p, f, clock);
      }
      :- Presents(p, f, clock, byQuit);
      return Going;
    }

    /** Lines 304-332: the frames of a packet that was accepted, then the packet is freed. */
    method DecodesVideo(p: Packet) returns (o: Watched)
      requires Between(TheConsumer(Video)) && video.pc == Send(p)
      modifies this, audio, video
      ensures Between(TheConsumer(Video)) && (o.Cut? ==> turn == horizon)
      ensures o.Going? ==> video.pc.Top? && turn > old(turn)
    {
      var sent :- Sends(Video, p);
      if sent {
        var f :- ReceivesFrame(Video, p);
        while f.Some?
          invariant Between(TheConsumer(Video)) && turn > old(turn)
          invariant video.pc == if f.Some? then Working(p, f.value, SampleQueue) else Release(p)
          decreases horizon - turn
        {
          :- ShowsFrame(p, f.value);
          f :- ReceivesFrame(Video, p);
        }
      }
      :- Frees(Video, p);
      return Going;
    }

    method VideoBody() returns (o: Watched)
      requires Between(TheConsumer(Video)) && video.pc.Top?
      modifies this, audio, video
      ensures Between(TheConsumer(Video)) && turn >= old(turn) && (o.Cut? ==> turn == horizon)
      ensures o.Going? ==> video.pc.Done? && quit
    {
      while true
        invariant Between(TheConsumer(Video)) && video.pc.Top? && turn >= old(turn)
        decreases horizon - turn
      {
        var stop :- ConsumerStops(Video);
        if stop {
          break;
        }
        var pkt :- TakesPacket(Video);
        if pkt.None? {
          break;
        }
        :- DecodesVideo(pkt.value);
      }
      return Going;
    }

    /** video_thread_func; it returns only on quit. */
    method VideoThread() returns (o: Watched)
      requires Between(TheConsumer(Video)) && video.pc.Top?
      modifies this, audio, video
      ensures Between(TheConsumer(Video)) && turn >= old(turn) && (o.Cut? ==> turn == horizon)
      ensures View() == Turns(cfg, TheConsumer(Video), others, callee, old(turn), turn, old(View()))
      ensures o.Going? ==> video.pc.Done? && quit
    {
      o := VideoBody();
      DescribedIsTurns(cfg, TheConsumer(Video), others, callee, run, mid, old(turn), turn);
    }

    // -------------------------------------------------------------- main, lines 343-359

    method MainStops() returns (o: Watched, stop: bool)
      requires Between(TheMain) && main.MTop?
      modifies this, audio, video
      ensures Between(TheMain) && (o.Cut? ==> turn == horizon)
      ensures o.Going? ==> main == (if stop then MJoinReader else MPoll) && turn > old(turn) && (stop ==> quit)
    {
      stop := false;
      :- Others(TheMain);
      ghost var s := View();
      stop := quit;
      main := if stop then MJoinReader else MPoll;
      Did(TheMain, s, Main(Quiet));
      return Going, stop;
    }

    /** SDL_PollEvent */
    method PollsEvent() returns (o: Watched, event: Choice)
      requires Between(TheMain) && main.MPoll?
      modifies this, audio, video
      ensures Between(TheMain) && (o.Cut? ==> turn == horizon)
      ensures o.Going? ==> event.NoEvent? || event.OtherEvent? || event.QuitEvent?
      ensures o.Going? ==> main == (if event.NoEvent? then MDelay else if event.QuitEvent? then MStore else MPoll)
      ensures o.Going? ==> turn > old(turn)
    {
      event := callee(turn);
      :- Others(TheMain);
      if !MainCan(View(), event) {
        event := NoEvent;
      }
      ghost var s := View();
      if event.NoEvent? {
        main := MDelay;
      } else {
        events := events - 1;
        main := if event.QuitEvent? then MStore else MPoll;
      }
      Did(TheMain, s, Main(event));
      return Going, event;
    }

    /** quit = true */
    method MainQuits() returns (o: Watched)
      requires Between(TheMain) && main.MStore?
      modifies this, audio, video
      ensures Between(TheMain) && (o.Cut? ==> turn == horizon)
      ensures o.Going? ==> main.MNotifyAudio? && quit && turn > old(turn)
    {
      o := Going;
      :- Others(TheMain);
      ghost var s := View();
      quit := true;
      main := MNotifyAudio;
      Did(TheMain, s, Main(Quiet));
    }

    method MainNotifiesAll(k: Kind, after: MainPc) returns (o: Watched)
      requires Between(TheMain)
      requires (main.MNotifyAudio? && k.Audio? && after.MNotifyVideo?) || (main.MNotifyVideo? && k.Video? && after.MDelay?)
      modifies this, audio, video
      ensures Between(TheMain) && (o.Cut? ==> turn == horizon)
      ensures o.Going? ==> main == after && !LaneOf(k).pc.Asleep? && turn > old(turn)
    {
      o := Going;
      :- Others(TheMain);
      ghost var s := View();
      LaneOf(k).WakeSleeper();
      main := after;
      MainNotifyEffect(s, k, after);
      Did(TheMain, s, Main(Quiet));
    }

    /** SDL_Delay(10) */
    method MainDelays() returns (o: Watched)
      requires Between(TheMain) && main.MDelay?
      modifies this, audio, video
      ensures Between(TheMain) && (o.Cut? ==> turn == horizon)
      ensures o.Going? ==> main.MTop? && turn > old(turn)
    {
      o := Going;
      :- Others(TheMain);
      ghost var s := View();
      main := MTop;
      Did(TheMain, s, Main(Quiet));
    }

    /** Lines 345-352: events until there are none left or one is to quit. */
    method HandlesEvents() returns (o: Watched)
      requires Between(TheMain) && main.MPoll?
      modifies this, audio, video
      ensures Between(TheMain) && (o.Cut? ==> turn == horizon)
      ensures o.Going? ==> main.MDelay? && turn > old(turn)
    {
      while true
        invariant Between(TheMain) && main.MPoll? && turn >= old(turn)
        decreases horizon - turn
      {
        var event :- PollsEvent();
        if event.NoEvent? {
          break;
        }
        if event.QuitEvent? {
          :- MainQuits();
          :- MainNotifiesAll(Audio, MNotifyVideo);
          :- MainNotifiesAll(Video, MDelay);
          break;
        }
      }
      return Going;
    }

    /** join: main goes on when the thread has returned. */
    method Joins(after: MainPc) returns (o: Watched)
      requires Between(TheMain) && MainJoins(main, after)
      modifies this, audio, video
      ensures Between(TheMain) && (o.Cut? ==> turn == horizon)
      ensures o.Going? ==> main == after && turn > old(turn)
    {
      o := Going;
      :- Others(TheMain);
      while !Returned(main, View())
        invariant InTurn(TheMain) && main == old(main) && turn > old(turn)
        decreases horizon - turn
      {
        :- Others(TheMain);
      }
      GoesOn(after);
    }

    method GoesOn(after: MainPc)
      requires InTurn(TheMain) && MainJoins(main, after) && Returned(main, View())
      modifies this`main
      ensures Between(TheMain) && main == after
    {
      ghost var s := View();
      main := after;
      JoinEffect(s, after);
      Did(TheMain, s, Main(Quiet));
    }

    method MainBody() returns (o: Watched)
      requires Between(TheMain) && main.MTop?
      modifies this, audio, video
      ensures Between(TheMain) && turn >= old(turn) && (o.Cut? ==> turn == horizon)
      ensures o.Going? ==> main.MDone? && quit && reader.RDone? && audio.pc.Done? && video.pc.Done?
    {
      while true
        invariant Between(TheMain) && main.MTop? && turn >= old(turn)
        decreases horizon - turn
      {
        var stop :- MainStops();
        if stop {
          break;
        }
        :- HandlesEvents();
        :- MainDelays();
      }
      :- Joins(MJoinAudio);
      :- Joins(MJoinVideo);
      :- Joins(MDone);
      AllReturned();
      return Going;
    }

    /** Past the joins all threads have returned; the queues may hold leftovers. */
    method MainThread() returns (o: Watched)
      requires Between(TheMain) && main.MTop?
      modifies this, audio, video
      ensures Between(TheMain) && turn >= old(turn) && (o.Cut? ==> turn == horizon)
      ensures View() == Turns(cfg, TheMain, others, callee, old(turn), turn, old(View()))
      ensures o.Going? ==> main.MDone? && quit && reader.RDone? && audio.pc.Done? && video.pc.Done?
    {
      o := MainBody();
      DescribedIsTurns(cfg, TheMain, others, callee, run, mid, old(turn), turn);
    }

    lemma AllReturned()
      requires Valid() && main.MDone?
      ensures quit && reader.RDone? && audio.pc.Done? && video.pc.Done?
    {
      JoinedThreads(cfg, View());
    }
  }
}
