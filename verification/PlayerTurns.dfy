/**
  One thread among the others, turn by turn: in a turn the others and the device first do
  what they try and can do, then the thread does its next statement if it can. This says
  of every thread what it makes of any such schedule, and that this is a run of the model.
  */
module PlayerTurns {
  import opened PlayerModel
  import opened PlayerSafety
  import opened PlayerRely

  // ---------------------------------------------------------------- the others' part of a turn

  /** The actions of the list that are not me's and can be taken, one after the other. */
  function Interferes(cfg: Config, me: Thread, s: State, acts: seq<Action>): State
    decreases |acts|
  {
    if acts == [] then s
    else if !Own(me, acts[0]) && Enabled(cfg, s, acts[0]) then Interferes(cfg, me, Do(cfg, s, acts[0]), acts[1..])
    else Interferes(cfg, me, s, acts[1..])
  }

  lemma ReachableOthersLeave(cfg: Config, me: Thread, s: State, act: Action)
    requires Reachable(cfg, s) && Enabled(cfg, s, act) && !Own(me, act)
    ensures Reachable(cfg, Do(cfg, s, act)) && Undisturbed(me, s, Do(cfg, s, act))
  {
    ReachableStep(cfg, s, act);
    ReachableInv(cfg, s);
    OthersLeave(cfg, me, s, act);
  }

  lemma {:induction false} InterferesSafely(cfg: Config, me: Thread, s: State, acts: seq<Action>)
    requires Reachable(cfg, s)
    ensures Reachable(cfg, Interferes(cfg, me, s, acts)) && Undisturbed(me, s, Interferes(cfg, me, s, acts))
    decreases |acts|
  {
    if acts != [] {
      if !Own(me, acts[0]) && Enabled(cfg, s, acts[0]) {
        ReachableOthersLeave(cfg, me, s, acts[0]);
        InterferesSafely(cfg, me, Do(cfg, s, acts[0]), acts[1..]);
        Follow(me, s, Do(cfg, s, acts[0]), Interferes(cfg, me, s, acts));
      } else {
        InterferesSafely(cfg, me, s, acts[1..]);
      }
    }
  }

  // ---------------------------------------------------------------- the thread's part

  /** What the callee of the next statement answers: c, or an error where its contract does not allow c. */
  function Answer(cfg: Config, me: Thread, s: State, c: Choice): Choice {
    match me
    case TheReader => if s.reader.RFetch? then if c.Demuxed? then c else Eof else Quiet
    case TheMain => if s.main.MPoll? then if MainCan(s, c) then c else NoEvent else Quiet
    case TheConsumer(k) => ConsumerAnswer(cfg, k, s.Get(k), c)
  }

  function ConsumerAnswer(cfg: Config, k: Kind, l: Lane, c: Choice): Choice {
    match l.pc
    case Send(p) => if SendAllowed(cfg.Decoding(k), l.decoder, p, c) then c else SendFailed([])
    case Receive(_) => if ReceiveAllowed(l.decoder, c) then c else ReceiveFailed([])
    case Working(_, _, Enqueue(_)) => if c.Refused? then c else Quiet
    case _ => Quiet
  }

  function OwnAction(me: Thread, c: Choice): Action {
    match me
    case TheReader => Reader(c)
    case TheConsumer(k) => Consumer(k, c)
    case TheMain => Main(c)
  }

  function NextAction(cfg: Config, me: Thread, s: State, c: Choice): Action {
    OwnAction(me, Answer(cfg, me, s, c))
  }

  /** The thread's next statement, if it can go on. */
  function Act(cfg: Config, me: Thread, s: State, c: Choice): State {
    if Enabled(cfg, s, NextAction(cfg, me, s, c)) then Do(cfg, s, NextAction(cfg, me, s, c)) else s
  }

  /** A thread that does not go on could not have done anything else either. */
  lemma StuckExact(cfg: Config, me: Thread, s: State, c: Choice)
    ensures Own(me, NextAction(cfg, me, s, c))
    ensures Enabled(cfg, s, NextAction(cfg, me, s, c)) <==> exists act :: Own(me, act) && Enabled(cfg, s, act)
  {
    forall act | Own(me, act) && Enabled(cfg, s, act)
      ensures Enabled(cfg, s, NextAction(cfg, me, s, c))
    {
      OthersNeverBetter(cfg, me, s, c, act);
    }
  }

  lemma OthersNeverBetter(cfg: Config, me: Thread, s: State, c: Choice, act: Action)
    requires Own(me, act) && Enabled(cfg, s, act)
    ensures Enabled(cfg, s, NextAction(cfg, me, s, c))
  {
  }

  lemma BlockedIsStuck(cfg: Config, me: Thread, s: State, c: Choice)
    requires Blocked(me, s)
    ensures Act(cfg, me, s, c) == s
  {
  }

  // ---------------------------------------------------------------- turns

  /** The state after turns i to j - 1. */
  function Turns(cfg: Config, me: Thread, others: nat -> seq<Action>, callee: nat -> Choice, i: nat, j: nat, s: State): State
    decreases j
  {
    if j <= i then s
    else Act(cfg, me, Interferes(cfg, me, Turns(cfg, me, others, callee, i, j - 1, s), others(j - 1)), callee(j - 1))
  }

  /** run and mid are the states before a turn and between its two parts. */
  ghost predicate TurnAt(cfg: Config, me: Thread, others: nat -> seq<Action>, callee: nat -> Choice,
                         run: nat -> State, mid: nat -> State, j: nat)
  {
    mid(j) == Interferes(cfg, me, run(j), others(j)) && run(j + 1) == Act(cfg, me, mid(j), callee(j))
  }

  ghost predicate Described(cfg: Config, me: Thread, others: nat -> seq<Action>, callee: nat -> Choice,
                            run: nat -> State, mid: nat -> State)
  {
    forall j: nat :: TurnAt(cfg, me, others, callee, run, mid, j)
  }

  lemma {:induction false} DescribedIsTurns(cfg: Config, me: Thread, others: nat -> seq<Action>, callee: nat -> Choice,
                                            run: nat -> State, mid: nat -> State, i: nat, j: nat)
    requires Described(cfg, me, others, callee, run, mid) && i <= j
    ensures run(j) == Turns(cfg, me, others, callee, i, j, run(i))
    decreases j
  {
    if i < j {
      DescribedIsTurns(cfg, me, others, callee, run, mid, i, j - 1);
      assert TurnAt(cfg, me, others, callee, run, mid, j - 1);
    }
  }

  lemma TurnBegins(cfg: Config, me: Thread, others: nat -> seq<Action>, callee: nat -> Choice,
                   run: nat -> State, mid: nat -> State, j: nat)
    requires Described(cfg, me, others, callee, run, mid)
    ensures mid(j) == Interferes(cfg, me, run(j), others(j))
  {
    assert TurnAt(cfg, me, others, callee, run, mid, j);
  }

  lemma TurnIsUsed(cfg: Config, me: Thread, others: nat -> seq<Action>, callee: nat -> Choice,
                   run: nat -> State, mid: nat -> State, j: nat, act: Action)
    requires Described(cfg, me, others, callee, run, mid)
    requires act == NextAction(cfg, me, mid(j), callee(j)) && Enabled(cfg, mid(j), act)
    ensures run(j + 1) == Do(cfg, mid(j), act)
  {
    assert TurnAt(cfg, me, others, callee, run, mid, j);
  }

  lemma TurnIsStuck(cfg: Config, me: Thread, others: nat -> seq<Action>, callee: nat -> Choice,
                    run: nat -> State, mid: nat -> State, j: nat)
    requires Described(cfg, me, others, callee, run, mid) && Blocked(me, mid(j))
    ensures run(j + 1) == mid(j)
  {
    assert TurnAt(cfg, me, others, callee, run, mid, j);
    BlockedIsStuck(cfg, me, mid(j), callee(j));
  }

  // ---------------------------------------------------------------- turns are a run of the model

  lemma {:induction false} ExecConcat(cfg: Config, s: State, a: seq<Action>, b: seq<Action>)
    requires Legal(cfg, s, a) && Legal(cfg, Exec(cfg, s, a), b)
    ensures Legal(cfg, s, a + b) && Exec(cfg, s, a + b) == Exec(cfg, Exec(cfg, s, a), b)
    decreases |a|
  {
    if a == [] {
      assert a + b == b;
    } else {
      ExecConcat(cfg, Do(cfg, s, a[0]), a[1..], b);
      assert (a + b)[1..] == a[1..] + b;
    }
  }

  /** The actions of the list that are taken. */
  function TakenOf(cfg: Config, me: Thread, s: State, acts: seq<Action>): seq<Action>
    decreases |acts|
  {
    if acts == [] then []
    else if !Own(me, acts[0]) && Enabled(cfg, s, acts[0])
      then [acts[0]] + TakenOf(cfg, me, Do(cfg, s, acts[0]), acts[1..])
    else TakenOf(cfg, me, s, acts[1..])
  }

  /** The actions of thread me. */
  function OwnOf(me: Thread, acts: seq<Action>): seq<Action> {
    if acts == [] then [] else (if Own(me, acts[0]) then [acts[0]] else []) + OwnOf(me, acts[1..])
  }

  lemma {:induction false} OwnOfConcat(me: Thread, a: seq<Action>, b: seq<Action>)
    ensures OwnOf(me, a + b) == OwnOf(me, a) + OwnOf(me, b)
    decreases |a|
  {
    if a == [] {
      assert a + b == b;
    } else {
      OwnOfConcat(me, a[1..], b);
      assert (a + b)[1..] == a[1..] + b;
      var first := if Own(me, a[0]) then [a[0]] else [];
      assert OwnOf(me, a + b) == first + OwnOf(me, a[1..] + b);
    }
  }

  lemma {:induction false} TakenIsARun(cfg: Config, me: Thread, s: State, acts: seq<Action>)
    ensures Legal(cfg, s, TakenOf(cfg, me, s, acts))
    ensures Exec(cfg, s, TakenOf(cfg, me, s, acts)) == Interferes(cfg, me, s, acts)
    ensures OwnOf(me, TakenOf(cfg, me, s, acts)) == []
    decreases |acts|
  {
    if acts != [] {
      if !Own(me, acts[0]) && Enabled(cfg, s, acts[0]) {
        TakenIsARun(cfg, me, Do(cfg, s, acts[0]), acts[1..]);
        var rest := TakenOf(cfg, me, Do(cfg, s, acts[0]), acts[1..]);
        assert ([acts[0]] + rest)[1..] == rest;
      } else {
        TakenIsARun(cfg, me, s, acts[1..]);
      }
    }
  }

  /** The statement of a turn, if there is one. */
  function Statement(cfg: Config, me: Thread, s: State, c: Choice): seq<Action> {
    if Enabled(cfg, s, NextAction(cfg, me, s, c)) then [NextAction(cfg, me, s, c)] else []
  }

  lemma StatementIsARun(cfg: Config, me: Thread, s: State, c: Choice)
    ensures Legal(cfg, s, Statement(cfg, me, s, c))
    ensures Exec(cfg, s, Statement(cfg, me, s, c)) == Act(cfg, me, s, c)
    ensures OwnOf(me, Statement(cfg, me, s, c)) == Statement(cfg, me, s, c)
  {
    StuckExact(cfg, me, s, c);
    var act := NextAction(cfg, me, s, c);
    if Enabled(cfg, s, act) {
      assert [act][1..] == [];
      assert Legal(cfg, Do(cfg, s, act), []);
    }
  }

  /** The statements of turns i to j - 1, in order. */
  function Statements(cfg: Config, me: Thread, others: nat -> seq<Action>, callee: nat -> Choice,
                      i: nat, j: nat, s: State): seq<Action>
    decreases j
  {
    if j <= i then []
    else
      var mid := Interferes(cfg, me, Turns(cfg, me, others, callee, i, j - 1, s), others(j - 1));
      Statements(cfg, me, others, callee, i, j - 1, s) + Statement(cfg, me, mid, callee(j - 1))
  }

  lemma TurnIsARun(cfg: Config, me: Thread, s: State, acts: seq<Action>, c: Choice) returns (turn: seq<Action>)
    ensures Legal(cfg, s, turn)
    ensures
      var mid := Interferes(cfg, me, s, acts);
      Exec(cfg, s, turn) == Act(cfg, me, mid, c) && OwnOf(me, turn) == Statement(cfg, me, mid, c)
  {
    var first, mid := TakenOf(cfg, me, s, acts), Interferes(cfg, me, s, acts);
    TakenIsARun(cfg, me, s, acts);
    StatementIsARun(cfg, me, mid, c);
    turn := first + Statement(cfg, me, mid, c);
    ExecConcat(cfg, s, first, Statement(cfg, me, mid, c));
    OwnOfConcat(me, first, Statement(cfg, me, mid, c));
  }

  /** Turns are an interleaving that the model allows, and the thread's actions in it are its statements in order. */
  lemma {:induction false} TurnsAreARun(cfg: Config, me: Thread, others: nat -> seq<Action>, callee: nat -> Choice,
                                        i: nat, j: nat, s: State) returns (acts: seq<Action>)
    ensures Legal(cfg, s, acts) && Exec(cfg, s, acts) == Turns(cfg, me, others, callee, i, j, s)
    ensures OwnOf(me, acts) == Statements(cfg, me, others, callee, i, j, s)
    decreases j
  {
    if j <= i {
      acts := [];
    } else {
      var before := TurnsAreARun(cfg, me, others, callee, i, j - 1, s);
      var t := Turns(cfg, me, others, callee, i, j - 1, s);
      var turn := TurnIsARun(cfg, me, t, others(j - 1), callee(j - 1));
      acts := before + turn;
      ExecConcat(cfg, s, before, turn);
      OwnOfConcat(me, before, turn);
    }
  }
}
