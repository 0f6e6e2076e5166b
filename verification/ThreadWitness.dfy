/** Concrete runs of the interleaving model. */
module ThreadWitness {
  import opened TrisTypes
  import opened GameRules
  import opened ManagerSpec
  import opened ManagerThreads

  lemma ReachStart(n: nat)
    ensures Reachable(n, Start(n))
  {
    assert Run(Start(n), []) == Some(Start(n));
  }

  lemma ReachNext(n: nat, s: State, a: Action)
    requires Reachable(n, s) && Possible(s, a)
    ensures Reachable(n, Do(s, a))
  {
    var actions :| Run(Start(n), actions) == Some(s);
    assert (actions + [a])[..|actions|] == actions;
    assert Run(Start(n), actions + [a]) == Some(Do(s, a));
  }

  /** One step of thread t, spelled out. */
  lemma StepTo(n: nat, s: State, t: Tid, s': State)
    requires Reachable(n, s) && Enabled(s, t) && Next(s, t) == s'
    ensures Reachable(n, s')
  {
    ReachNext(n, s, Step(t));
  }

  // ---- a thread running alone on a list of one game ----

  /** Nobody holds a lock and the list is the single node p with game g. */
  predicate Single(s: State, p: Ptr, g: Game) {
    && s.gmLock.None? && s.head == s.tail == Some(p) && s.order == [p]
    && p in s.heap && s.heap[p] == Cell(g, None, None)
  }

  /** The state after thread t has called, run alone and returned. */
  function AfterSolo(s: State, t: Tid, p: Ptr, id: u32, call: GameOp): State
    requires p in s.heap && t < |s.threads|
  {
    var (g, reply) := OnGame(s.heap[p].game, call);
    s.(heap := s.heap[p := Cell(g, None, None)], log := s.log + [Entry(t, On(id, call), 0, reply)])
  }

  /** A call on the only game, run without interruption, has its atomic effect. */
  lemma SoloCall(n: nat, s: State, t: Tid, p: Ptr, g: Game, call: GameOp)
    requires Reachable(n, s) && Single(s, p, g) && t < |s.threads| && s.threads[t].Idle? && !call.Leave?
    ensures Reachable(n, AfterSolo(s, t, p, g.id, call))
  {
    var s1 := SoloFind(n, s, t, p, g, On(g.id, call));
    var s4 := SoloEnter(n, s1, t, p, g);
    var (g', reply) := OnGame(g, call);
    var s5 := SoloWrite(n, s4, t, p, g, g', reply);
    var s6 := SoloExit(n, s5, t, p, reply);
    assert s6.heap == s.heap[p := Cell(g', None, None)] && s6.threads == s.threads;
  }

  /** Write the game back. */
  lemma SoloWrite(n: nat, s: State, t: Tid, p: Ptr, g: Game, g': Game, reply: Reply) returns (r: State)
    requires Reachable(n, s) && t < |s.threads| && s.threads[t].Running? && s.threads[t].phase == Loaded(p, g)
    requires s.threads[t].op.On? && !s.threads[t].op.call.Leave? && p in s.heap && s.heap[p] == Cell(g, None, Some(t))
    requires OnGame(g, s.threads[t].op.call) == (g', reply)
    ensures Reachable(n, r)
    ensures r == Effect(s.(heap := s.heap[p := Cell(g', None, Some(t))]), t, 0, reply, Written(p, reply))
  {
    r := Effect(s.(heap := s.heap[p := Cell(g', None, Some(t))]), t, 0, reply, Written(p, reply));
    assert s.heap[p := s.heap[p].(game := g')] == s.heap[p := Cell(g', None, Some(t))];
    StepTo(n, s, t, r);
  }

  /** Lock the found game, release gm->lock, read the game. */
  lemma SoloEnter(n: nat, s: State, t: Tid, p: Ptr, g: Game) returns (r: State)
    requires Reachable(n, s) && t < |s.threads| && s.threads[t].Running? && s.threads[t].phase == Found(0, None, p)
    requires s.threads[t].op.On? && !s.threads[t].op.call.Leave? && p in s.heap && s.heap[p] == Cell(g, None, None)
    ensures Reachable(n, r)
    ensures r == s.(gmLock := None, heap := s.heap[p := Cell(g, None, Some(t))],
                    threads := s.threads[t := s.threads[t].(phase := Loaded(p, g))])
  {
    ReachNext(n, s, Step(t));
    var s2 := Do(s, Step(t));
    ReachNext(n, s2, Step(t));
    var s3 := Do(s2, Step(t));
    ReachNext(n, s3, Step(t));
    r := Do(s3, Step(t));
  }

  /** Release the game and return. */
  lemma SoloExit(n: nat, s: State, t: Tid, p: Ptr, reply: Reply) returns (r: State)
    requires Reachable(n, s) && t < |s.threads| && s.threads[t].Running? && s.threads[t].phase == Written(p, reply)
    requires s.threads[t].op.On? && !s.threads[t].op.call.Leave? && p in s.heap
    ensures Reachable(n, r)
    ensures r == s.(heap := s.heap[p := s.heap[p].(lock := None)], threads := s.threads[t := Idle])
  {
    ReachNext(n, s, Step(t));
    var s2 := Do(s, Step(t));
    ReachNext(n, s2, Return(t));
    r := Do(s2, Return(t));
  }

  /** Call, take gm->lock and find the node: the thread then wants the lock of the game. */
  lemma SoloFind(n: nat, s: State, t: Tid, p: Ptr, g: Game, op: Op) returns (r: State)
    requires Reachable(n, s) && Single(s, p, g) && t < |s.threads| && s.threads[t].Idle? && op.On? && op.id == g.id
    ensures Reachable(n, r)
    ensures r == s.(gmLock := Some(t), threads := s.threads[t := Running(op, |s.log|, None, Found(0, None, p))])
  {
    var s1 := Do(s, Call(t, op));
    ReachNext(n, s, Call(t, op));
    var s2 := Do(s1, Step(t));
    ReachNext(n, s1, Step(t));
    r := Do(s2, Step(t));
    ReachNext(n, s2, Step(t));
  }

  /** The last occupant leaves, without interruption: the node is unlinked and freed. */
  lemma SoloLastLeave(n: nat, s: State, t: Tid, p: Ptr, g: Game, socket: int)
    requires Reachable(n, s) && Single(s, p, g) && t < |s.threads| && s.threads[t].Idle?
    requires OnGame(g, Leave(socket)).1 == Left && Vacant(OnGame(g, Leave(socket)).0)
    ensures exists r :: Reachable(n, r) && r.threads == s.threads && r.heap == s.heap - {p}
  {
    var s1 := SoloFind(n, s, t, p, g, On(g.id, Leave(socket)));
    var s3 := SoloTake(n, s1, t, p, g);
    var s4 := SoloUnlink(n, s3, t, p, g);
    var r := SoloFree(n, s4, t, p);
    assert r.heap == s.heap - {p} && r.threads == s.threads;
  }

  /** Lock the found game under gm->lock and read it. */
  lemma SoloTake(n: nat, s: State, t: Tid, p: Ptr, g: Game) returns (r: State)
    requires Reachable(n, s) && t < |s.threads| && s.threads[t].Running? && s.threads[t].phase == Found(0, None, p)
    requires s.threads[t].op.On? && s.threads[t].op.call.Leave? && p in s.heap && s.heap[p] == Cell(g, None, None)
    ensures Reachable(n, r)
    ensures r == s.(heap := s.heap[p := Cell(g, None, Some(t))],
                    threads := s.threads[t := s.threads[t].(phase := LeaveLoaded(0, None, p, g))])
  {
    var th := s.threads[t];
    var heap := s.heap[p := Cell(g, None, Some(t))];
    var s2 := s.(heap := heap, threads := s.threads[t := th.(phase := LeaveInside(0, None, p))]);
    StepTo(n, s, t, s2);
    r := s.(heap := heap, threads := s.threads[t := th.(phase := LeaveLoaded(0, None, p, g))]);
    StepTo(n, s2, t, r);
  }

  /** Free the last seat and unlink the node. */
  lemma SoloUnlink(n: nat, s: State, t: Tid, p: Ptr, g: Game) returns (r: State)
    requires Reachable(n, s) && t < |s.threads| && s.threads[t].Running?
    requires s.threads[t].phase == LeaveLoaded(0, None, p, g)
    requires s.threads[t].op.On? && s.threads[t].op.call.Leave? && p in s.heap
    requires OnGame(g, s.threads[t].op.call).1 == Left && Vacant(OnGame(g, s.threads[t].op.call).0)
    ensures Reachable(n, r) && p in r.heap && r.heap - {p} == s.heap - {p}
    ensures |r.threads| == |s.threads| && r.threads == s.threads[t := r.threads[t]] && r.threads[t].Running?
    ensures r.threads[t].phase == Unlinked(p, Left) && r.threads[t].op == s.threads[t].op
  {
    r := Next(s, t);
    StepTo(n, s, t, r);
  }

  /** Unlock and free the unlinked node. */
  lemma SoloUnlock(n: nat, s: State, t: Tid, p: Ptr) returns (r: State)
    requires Reachable(n, s) && t < |s.threads| && s.threads[t].Running? && s.threads[t].phase == Unlinked(p, Left)
    requires s.threads[t].op.On? && s.threads[t].op.call.Leave? && p in s.heap
    ensures Reachable(n, r) && r == Goto(s.(heap := s.heap - {p}), t, Leaving(Left))
  {
    var s5 := Goto(SetLock(s, p, None), t, Freeing(p, Left));
    StepTo(n, s, t, s5);
    r := Goto(s.(heap := s.heap - {p}), t, Leaving(Left));
    assert s5.heap - {p} == s.heap - {p};
    StepTo(n, s5, t, r);
  }

  /** Unlock and free the unlinked node, release gm->lock and return. */
  lemma SoloFree(n: nat, s: State, t: Tid, p: Ptr) returns (r: State)
    requires Reachable(n, s) && t < |s.threads| && s.threads[t].Running? && s.threads[t].phase == Unlinked(p, Left)
    requires s.threads[t].op.On? && s.threads[t].op.call.Leave? && p in s.heap
    ensures Reachable(n, r) && r.threads == s.threads[t := Idle] && r.heap == s.heap - {p}
  {
    var s6 := SoloUnlock(n, s, t, p);
    var s7 := Goto(s6.(gmLock := None), t, Done(Left));
    StepTo(n, s6, t, s7);
    ReachNext(n, s7, Return(t));
    r := Do(s7, Return(t));
  }

  // ---- the id is read from a freed node ----

  const CREATE: Op := Create(7, None, true)

  /** A creator whose node is ready takes gm->lock, links the node and releases the lock. */
  lemma CreatorLinks(n: nat, s: State, t: Tid, p: Ptr) returns (r: State)
    requires Reachable(n, s) && t < |s.threads| && s.threads[t].Running? && s.threads[t].phase == Fresh(p)
    requires s.threads[t].op.Create? && s.gmLock.None? && p in s.heap
    requires s.head.Some? ==> s.tail.Some? && s.tail.value in s.heap
    ensures Reachable(n, r)
    ensures r == Goto(Link(s, t, p).(gmLock := None), t, Reporting(p))
  {
    var s1 := Goto(s.(gmLock := Some(t)), t, Linking(p));
    StepTo(n, s, t, s1);
    var s2 := Link(s, t, p).(gmLock := Some(t));
    StepTo(n, s1, t, s2);
    r := Goto(s2.(gmLock := None), t, Reporting(p));
    StepTo(n, s2, t, r);
  }

  /** A thread calls create and draws its id. */
  lemma CreatorDraws(n: nat, s: State, t: Tid) returns (r: State)
    requires Reachable(n, s) && t < |s.threads| && s.threads[t].Idle?
    ensures Reachable(n, r)
    ensures r == Draw(s.(threads := s.threads[t := Running(CREATE, |s.log|, None, Drawing)]), t)
  {
    ReachNext(n, s, Call(t, CREATE));
    var s1 := Do(s, Call(t, CREATE));
    r := Draw(s1, t);
    StepTo(n, s1, t, r);
  }

  /** A creator has linked its game and released gm->lock, but not yet read the id back. */
  lemma CreatorPauses() returns (s: State)
    ensures Reachable(2, s) && Single(s, 0, NewGame(0, 7, None))
    ensures s.heap == map[0 := Cell(NewGame(0, 7, None), None, None)]
    ensures s.threads == [Running(CREATE, 0, Some(0), Reporting(0)), Idle]
  {
    ReachStart(2);
    var s1 := CreatorDraws(2, Start(2), 0);
    assert s1.threads == [Running(CREATE, 0, None, Fresh(0)), Idle];
    assert s1.heap == map[0 := Cell(NewGame(0, 7, None), None, None)] && s1.head.None? && s1.order == [];
    s := CreatorLinks(2, s1, 0, 0);
  }

  /** A use after free. While the creator (socket 7) pauses before reading the id, another thread
      joins as socket 8, accepts the join, takes the game over with a mid-game vote and leaves,
      which frees the node; the creator then reads it. */
  lemma CreatorReadsFreedNode()
    ensures exists s :: Reachable(2, s) && Enabled(s, 0) && s.threads[0].Running? && Next(s, 0) == Goto(s, 0, Crashed)
  {
    var s0 := CreatorPauses();
    var g0 := NewGame(0, 7, None);
    var g1 := OnGame(g0, Join(8, None)).0;
    var g2 := OnGame(g1, Decide(true)).0;
    var g3 := OnGame(g2, PostGame(8, true)).0;
    SoloCall(2, s0, 1, 0, g0, Join(8, None));
    var s1 := AfterSolo(s0, 1, 0, 0, Join(8, None));
    SoloCall(2, s1, 1, 0, g1, Decide(true));
    var s2 := AfterSolo(s1, 1, 0, 0, Decide(true));
    SoloCall(2, s2, 1, 0, g2, PostGame(8, true));
    var s3 := AfterSolo(s2, 1, 0, 0, PostGame(8, true));
    TakenOver(g3);
    SoloLastLeave(2, s3, 1, 0, g3, 8);
    var s :| Reachable(2, s) && s.threads == s3.threads && s.heap == s3.heap - {0};
    assert s.threads[0].phase == Reporting(0) && 0 !in s.heap;
    assert Enabled(s, 0);
  }

  lemma TakenOver(g: Game)
    requires g == OnGame(OnGame(OnGame(NewGame(0, 7, None), Join(8, None)).0, Decide(true)).0, PostGame(8, true)).0
    ensures g.id == 0 && OnGame(g, Leave(8)).1 == Left && Vacant(OnGame(g, Leave(8)).0)
  {
  }

  // ---- list order and ids ----

  predicate IdsInOrder(s: State, ids: seq<int>) {
    |s.order| == |ids| && forall i :: 0 <= i < |ids| ==> s.order[i] in s.heap && s.heap[s.order[i]].game.id == ids[i]
  }

  /** Two creators have drawn their ids, and neither has linked its node. */
  lemma TwoDraws() returns (s: State)
    ensures Reachable(2, s) && s.gmLock.None? && s.head.None? && s.order == [] && |s.threads| == 2
    ensures s.threads[0].Running? && s.threads[0].op.Create? && s.threads[0].phase == Fresh(0)
    ensures s.threads[1].Running? && s.threads[1].op.Create? && s.threads[1].phase == Fresh(1)
    ensures 0 in s.heap && 1 in s.heap && s.heap[0].game.id == 0 && s.heap[1].game.id == 1
  {
    ReachStart(2);
    var s1 := CreatorDraws(2, Start(2), 0);
    assert s1.threads == [Running(CREATE, 0, None, Fresh(0)), Idle];
    assert s1.heap == map[0 := Cell(NewGame(0, 7, None), None, None)] && s1.brk == s1.drawn == 1;
    s := CreatorDraws(2, s1, 1);
  }

  /** Ids are drawn before nodes are linked, so the list need not be in the order of the ids. */
  lemma ListOrderNeedNotFollowIds()
    ensures exists s :: Reachable(2, s) && IdsInOrder(s, [1, 0])
  {
    var s2 := TwoDraws();
    var s3 := CreatorLinks(2, s2, 1, 1);
    assert s3.heap == s2.heap && s3.head == s3.tail == Some(1) && s3.order == [1] && s3.threads[0] == s2.threads[0];
    var s4 := CreatorLinks(2, s3, 0, 0);
    assert s4.order == [1, 0];
    assert IdsInOrder(s4, [1, 0]);
  }
}
