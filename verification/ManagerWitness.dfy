/** Concrete runs of the manager that leave a listed game without occupants. */
module ManagerWitness {
  import opened TrisTypes
  import opened GameRules
  import opened GameLife
  import opened ManagerSpec

  lemma OneGame(g: Game, call: GameOp, g': Game)
    requires OnGame(g, call).0 == g' && (!Vacant(g') || !call.Leave?)
    ensures Apply([g], On(g.id, call), 0) == ([g'], OnGame(g, call).1)
  {
    IndexOfIs([g], g.id, 0);
    assert [g][0 := g'] == [g'];
  }

  // ---- runs on a single game ----

  /** A create by socket 7 and a series of calls on its game. */
  function GameRun(ops: seq<GameOp>): seq<Entry> {
    if ops == [] then [Entry(0, Create(7, None, true), 0, Created(Some(0)))]
    else
      var n := |ops| - 1;
      GameRun(ops[..n]) + [Entry(0, On(0, ops[n]), 0, OnGame(Calls(NewGame(0, 7, None), ops[..n]), ops[n]).1)]
  }

  predicate RealOps(ops: seq<GameOp>) {
    forall k :: 0 <= k < |ops| ==> RealSocket(ops[k])
  }

  /** No join by the owner, and no leave that empties the game. */
  predicate StaysListed(g: Game, ops: seq<GameOp>) {
    forall k :: 0 <= k < |ops| ==>
      NotOwnGame(Calls(g, ops[..k]), ops[k]) && (ops[k].Leave? ==> !Vacant(OnGame(Calls(g, ops[..k]), ops[k]).0))
  }

  lemma {:induction false} StaysListedPrefix(g: Game, ops: seq<GameOp>, n: nat)
    requires StaysListed(g, ops) && n <= |ops|
    ensures StaysListed(g, ops[..n])
  {
    assert forall k :: 0 <= k < n ==> ops[..n][..k] == ops[..k];
  }

  lemma {:induction false} CallsKeepId(g: Game, ops: seq<GameOp>)
    ensures Calls(g, ops).id == g.id
  {
    if ops != [] { CallsKeepId(g, ops[..|ops| - 1]); }
  }

  /** Such a run is a legal run of the manager, and the list is that one game all the time. */
  lemma {:induction false} GameRunIs(ops: seq<GameOp>)
    requires RealOps(ops) && StaysListed(NewGame(0, 7, None), ops)
    ensures var log := GameRun(ops);
      RealSockets(log) && Guarded(log) && Legal(log) && Replay(log) == [Calls(NewGame(0, 7, None), ops)]
  {
    var start := NewGame(0, 7, None);
    if ops == [] {
      CreateRun();
    } else {
      var n := |ops| - 1;
      var log, g := GameRun(ops[..n]), Calls(start, ops[..n]);
      StaysListedPrefix(start, ops, n);
      GameRunIs(ops[..n]);
      CallsKeepId(start, ops[..n]);
      OneGame(g, ops[n], OnGame(g, ops[n]).0);
      GuardedMore(log, g, Entry(0, On(0, ops[n]), 0, OnGame(g, ops[n]).1));
      Extend(log, Entry(0, On(0, ops[n]), 0, OnGame(g, ops[n]).1));
    }
  }

  lemma CreateRun()
    ensures var log := GameRun([]);
      RealSockets(log) && Guarded(log) && Legal(log) && Replay(log) == [NewGame(0, 7, None)]
  {
    var log := GameRun([]);
    assert log[..0] == [];
    assert Replay(log) == Apply(Replay(log[..0]), log[0].op, log[0].newId).0;
  }

  lemma GuardedMore(log: seq<Entry>, g: Game, e: Entry)
    requires RealSockets(log) && Guarded(log) && Replay(log) == [g]
    requires e.op.On? && RealSocket(e.op.call) && NotOwnGame(g, e.op.call)
    ensures RealSockets(log + [e]) && Guarded(log + [e])
  {
    var l := log + [e];
    forall k, h | 0 <= k < |l| && l[k].op.On? && h in Replay(l[..k]) && h.id == l[k].op.id
      ensures NotOwnGame(h, l[k].op.call)
    {
      assert l[..k] == log[..k];
      if k == |log| { assert log[..k] == log; }
    }
  }

  lemma {:induction false} CallsConcat(g: Game, a: seq<GameOp>, b: seq<GameOp>)
    ensures Calls(g, a + b) == Calls(Calls(g, a), b)
  {
    if b == [] {
      assert a + b == a;
    } else {
      var n := |b| - 1;
      assert (a + b)[..|a + b| - 1] == a + b[..n];
      CallsConcat(g, a, b[..n]);
    }
  }

  lemma {:induction false} StaysListedConcat(g: Game, a: seq<GameOp>, b: seq<GameOp>)
    requires StaysListed(g, a) && StaysListed(Calls(g, a), b)
    ensures StaysListed(g, a + b)
  {
    var ops := a + b;
    forall k | 0 <= k < |ops|
      ensures NotOwnGame(Calls(g, ops[..k]), ops[k])
      ensures ops[k].Leave? ==> !Vacant(OnGame(Calls(g, ops[..k]), ops[k]).0)
    {
      if k < |a| {
        assert ops[..k] == a[..k];
      } else {
        assert ops[..k] == a + b[..k - |a|];
        CallsConcat(g, a, b[..k - |a|]);
      }
    }
  }

  /** The game g' that one call makes of g, without taking it off the list. */
  predicate Leads(g: Game, op: GameOp, g': Game) {
    OnGame(g, op).0 == g' && NotOwnGame(g, op) && (op.Leave? ==> !Vacant(g'))
  }

  lemma {:induction false} OneCall(g: Game, op: GameOp, g': Game)
    requires Leads(g, op, g')
    ensures StaysListed(g, [op]) && Calls(g, [op]) == g'
  {
    assert [op][..0] == [];
  }

  lemma TwoCalls(g: Game, op: GameOp, g1: Game, op1: GameOp, g2: Game)
    requires Leads(g, op, g1) && Leads(g1, op1, g2)
    ensures StaysListed(g, [op, op1]) && Calls(g, [op, op1]) == g2
  {
    OneCall(g, op, g1);
    OneCall(g1, op1, g2);
    StaysListedConcat(g, [op], [op1]);
    CallsConcat(g, [op], [op1]);
    assert [op] + [op1] == [op, op1];
  }

  lemma ThreeCalls(g: Game, op: GameOp, g1: Game, op1: GameOp, g2: Game, op2: GameOp, g3: Game)
    requires Leads(g, op, g1) && Leads(g1, op1, g2) && Leads(g2, op2, g3)
    ensures StaysListed(g, [op, op1, op2]) && Calls(g, [op, op1, op2]) == g3
  {
    TwoCalls(g, op, g1, op1, g2);
    OneCall(g2, op2, g3);
    StaysListedConcat(g, [op, op1], [op2]);
    CallsConcat(g, [op, op1], [op2]);
    assert [op, op1] + [op2] == [op, op1, op2];
  }

  /** The joiner is rejected after the owner has left. */
  const ORPHANED_REJECT: seq<GameOp> := [Join(8, None), Leave(7), Decide(false)]

  /** A run that ends with a listed game nobody sits in: the owner leaves while a joiner waits,
      and the joiner is rejected. */
  lemma StrandedGameExists()
    ensures var log := GameRun(ORPHANED_REJECT);
      && RealSockets(log) && Guarded(log) && Legal(log)
      && |Replay(log)| == 1 && Vacant(Replay(log)[0])
  {
    var g := NewGame(0, 7, None);
    assert NO_NAME[0 := 0] == NO_NAME;
    ThreeCalls(g, Join(8, None), g.(waitingSocket := 8), Leave(7), g.(waitingSocket := 8, xSocket := NOBODY),
               Decide(false), g.(xSocket := NOBODY));
    GameRunIs(ORPHANED_REJECT);
  }

  /** Join, accept, nine moves to a draw; then O says yes to another round and leaves, and X says
      no. */
  function AbandonedVote(): seq<GameOp> {
    [Join(8, None), Decide(true)] + Plays(7, 8, DRAWING_MOVES) + [PostGame(8, true), Leave(8), PostGame(7, false)]
  }

  lemma {:induction false} PlaysOnly(g: Game, x: int, o: int, moves: seq<nat>)
    requires x != NOBODY && o != NOBODY && forall k :: 0 <= k < |moves| ==> moves[k] < 9
    ensures forall k :: 0 <= k < |moves| ==> Plays(x, o, moves)[k].Play? && Plays(x, o, moves)[k].socket != NOBODY
    ensures StaysListed(g, Plays(x, o, moves)) && RealOps(Plays(x, o, moves))
  {
    if moves != [] { PlaysOnly(g, x, o, moves[..|moves| - 1]); }
  }

  /** The game of that run after the nine moves. */
  lemma AbandonedDraw() returns (g: Game)
    ensures var ops := [Join(8, None), Decide(true)] + Plays(7, 8, DRAWING_MOVES);
      && StaysListed(NewGame(0, 7, None), ops) && RealOps(ops) && Calls(NewGame(0, 7, None), ops) == g
      && Drawn(g) && g.xSocket == 7 && g.oSocket == 8 && g.waitingSocket == NOBODY && !g.xReceived && !g.oReceived
  {
    var start := NewGame(0, 7, None);
    var joined, playing := OnGame(start, Join(8, None)).0, OnGame(OnGame(start, Join(8, None)).0, Decide(true)).0;
    TwoCalls(start, Join(8, None), joined, Decide(true), playing);
    DrawnBoard();
    PlaysOnly(playing, 7, 8, DRAWING_MOVES);
    PlayThrough(playing, DRAWING_MOVES);
    var ops := [Join(8, None), Decide(true)];
    StaysListedConcat(start, ops, Plays(7, 8, DRAWING_MOVES));
    CallsConcat(start, ops, Plays(7, 8, DRAWING_MOVES));
    g := Calls(playing, Plays(7, 8, DRAWING_MOVES));
  }

  /** The other way to such a game: the player who said yes to a draw left, and the other says no. */
  lemma AbandonedVoteStrands()
    ensures var log := GameRun(AbandonedVote());
      && RealSockets(log) && Guarded(log) && Legal(log)
      && |Replay(log)| == 1 && Vacant(Replay(log)[0])
  {
    var g := AbandonedDraw();
    var ops := [Join(8, None), Decide(true)] + Plays(7, 8, DRAWING_MOVES);
    var last := [PostGame(8, true), Leave(8), PostGame(7, false)];
    var g1 := g.(oReceived := true, oContinue := true);
    var g2 := g1.(oSocket := NOBODY);
    var g3 := OnGame(g2, PostGame(7, false)).0;
    ThreeCalls(g, PostGame(8, true), g1, Leave(8), g2, PostGame(7, false), g3);
    StaysListedConcat(NewGame(0, 7, None), ops, last);
    CallsConcat(NewGame(0, 7, None), ops, last);
    assert RealOps(ops + last);
    GameRunIs(AbandonedVote());
  }
}
