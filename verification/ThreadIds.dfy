/** Nodes and ids over whole interleavings: no node leaks, ids stay unique, when a creator reads a
    freed node, and when the list is in the order of the ids. */
module ThreadIds {
  import opened TrisTypes
  import opened GameRules
  import opened GameLife
  import opened ManagerSpec
  import opened ManagerThreads
  import opened ThreadInvariant
  import opened ThreadSteps
  import opened ThreadEffects
  import opened ThreadResults

  /** A node that its creator has not linked yet. */
  function Building(th: Thread): Option<Ptr> {
    if th.Idle? then None
    else
      match th.phase
      case Fresh(p) => Some(p)
      case Linking(p) => Some(p)
      case _ => None
  }

  /** A node that its creator has linked, and may still read. */
  function Announced(th: Thread): Option<Ptr> {
    if th.Idle? then None
    else
      match th.phase
      case Linked(p) => Some(p)
      case Reporting(p) => Some(p)
      case _ => None
  }

  /** A node that has been taken out of the list and will be freed. */
  function Doomed(th: Thread): Option<Ptr> {
    if th.Idle? then None
    else
      match th.phase
      case Unlinked(p, _) => Some(p)
      case Freeing(p, _) => Some(p)
      case _ => None
  }

  // ---- no node leaks ----

  /** Every node in the heap is in the list or in the hands of a thread that links or frees it. */
  predicate NoLeak(s: State) {
    forall p :: p in s.heap ==> p in s.order || exists t :: 0 <= t < |s.threads| && Owned(s.threads[t]) == Some(p)
  }

  /** A linked node is nobody's unlinked one. */
  predicate Apart(s: State) {
    forall t, u :: 0 <= t < |s.threads| && 0 <= u < |s.threads| && Announced(s.threads[t]).Some? ==>
      Announced(s.threads[t]) != Building(s.threads[u])
  }

  /** What one step does to the nodes of the thread that makes it. */
  predicate NodesMove(s: State, s': State, t: Tid)
    requires t < |s.threads| && t < |s'.threads|
  {
    var th, th' := s.threads[t], s'.threads[t];
    && (Building(th').None? || Building(th') == Building(th) ||
        (Building(th') == Some(s.brk) && th.Running? && th.phase.Drawing?))
    && (Announced(th').None? || Announced(th') == Announced(th) ||
        (Announced(th') == Building(th) && Building(th').None?))
    && (forall p :: p in s'.heap && p !in s'.order && Owned(th') != Some(p) ==>
          p in s.heap && p !in s.order && Owned(th) != Some(p))
  }

  lemma CreateMoves(s: State, t: Tid)
    requires Local(s, t) && Enabled(s, t) && s.threads[t].op.Create?
    ensures NodesMove(s, Next(s, t), t)
  {
  }

  predicate IsSearching(phase: Phase) {
    phase.Entering? || phase.Searching? || phase.Found? || phase.Both? || phase.Leaving?
  }

  lemma SearchMoves(s: State, t: Tid)
    requires Local(s, t) && Enabled(s, t) && s.threads[t].op.On? && IsSearching(s.threads[t].phase)
    ensures NodesMove(s, Next(s, t), t)
  {
  }

  lemma LookupMoves(s: State, t: Tid)
    requires Local(s, t) && Enabled(s, t) && s.threads[t].op.On? && !s.threads[t].phase.LeaveLoaded?
    ensures NodesMove(s, Next(s, t), t)
  {
    if IsSearching(s.threads[t].phase) { SearchMoves(s, t); }
  }

  lemma ScanMoves(s: State, t: Tid)
    requires Local(s, t) && Enabled(s, t) && s.threads[t].op.List?
    ensures NodesMove(s, Next(s, t), t)
  {
  }

  lemma RemovedMoves(s: State, s': State, t: Tid, i: nat, p: Ptr)
    requires Distinct(s.order) && i < |s.order| && s.order[i] == p && p in s.heap
    requires t < |s.threads| && s.threads[t].Running? && s.threads[t].phase.LeaveLoaded?
    requires t < |s'.threads| && s'.threads[t].Running? && s'.threads[t].phase == Unlinked(p, Left)
    requires s'.heap.Keys == s.heap.Keys && s'.order == RemoveAt(s.order, i)
    ensures NodesMove(s, s', t)
  {
    RemoveMembers(s.order, i);
  }

  lemma RemovedKeys(s: State, t: Tid, i: nat, p: Ptr, g': Game, e: Entry)
    requires Mapped(s.heap, s.order) && i < |s.order| && s.order[i] == p && t < |s.threads| && s.threads[t].Running?
    ensures Removed(s, t, i, p, g', e).heap.Keys == s.heap.Keys
  {
    BypassedCells(s.heap, s.order, i, p, g');
  }

  lemma LeaveMoves(s: State, t: Tid)
    requires Local(s, t) && Enabled(s, t) && s.threads[t].phase.LeaveLoaded?
    ensures NodesMove(s, Next(s, t), t)
  {
    var ph := s.threads[t].phase;
    var (g', reply) := OnGame(ph.g, s.threads[t].op.call);
    if reply == Left && Vacant(g') {
      var e := Entry(t, s.threads[t].op, 0, Left);
      UnlinkIs(s, t, e, g');
      RemovedKeys(s, t, ph.i, ph.p, g', e);
      RemovedMoves(s, Next(s, t), t, ph.i, ph.p);
    } else {
      KeptMoves(s, t);
    }
  }

  lemma KeptMoves(s: State, t: Tid)
    requires Local(s, t) && Enabled(s, t) && s.threads[t].phase.LeaveLoaded?
    requires var (g', reply) := OnGame(s.threads[t].phase.g, s.threads[t].op.call); !(reply == Left && Vacant(g'))
    ensures NodesMove(s, Next(s, t), t)
  {
  }

  lemma StepMoves(s: State, t: Tid)
    requires Local(s, t) && Enabled(s, t)
    ensures NodesMove(s, Next(s, t), t)
  {
    match s.threads[t].op
    case Create(_, _, _) => CreateMoves(s, t);
    case On(_, _) => if s.threads[t].phase.LeaveLoaded? { LeaveMoves(s, t); } else { LookupMoves(s, t); }
    case List => ScanMoves(s, t);
  }

  /** The other threads keep theirs. */
  lemma MoveKeepsNoLeak(s: State, s': State, t: Tid)
    requires NoLeak(s) && t < |s.threads| && |s'.threads| == |s.threads| && NodesMove(s, s', t)
    requires s'.threads == s.threads[t := s'.threads[t]]
    ensures NoLeak(s')
  {
    forall p | p in s'.heap && p !in s'.order
      ensures exists u :: 0 <= u < |s'.threads| && Owned(s'.threads[u]) == Some(p)
    {
      if Owned(s'.threads[t]) != Some(p) {
        var u :| 0 <= u < |s.threads| && Owned(s.threads[u]) == Some(p);
        assert s'.threads[u] == s.threads[u];
      }
    }
  }

  lemma MoveKeepsApart(s: State, s': State, t: Tid)
    requires Apart(s) && HeapOk(s) && t < |s.threads| && |s'.threads| == |s.threads| && NodesMove(s, s', t)
    requires s'.threads == s.threads[t := s'.threads[t]]
    requires forall u :: 0 <= u < |s.threads| && Announced(s.threads[u]).Some? ==> Announced(s.threads[u]).value < s.brk
    ensures Apart(s')
  {
    forall u | 0 <= u < |s.threads| && Building(s.threads[u]).Some?
      ensures Owned(s.threads[u]) == Building(s.threads[u])
    {
    }
  }

  lemma ActionKeepsNodes(s: State, a: Action)
    requires Inv(s) && NoLeak(s) && Apart(s) && Possible(s, a)
    ensures NoLeak(Do(s, a)) && Apart(Do(s, a))
  {
    var s' := Do(s, a);
    forall u | 0 <= u < |s.threads| && Announced(s.threads[u]).Some? ensures Announced(s.threads[u]).value < s.brk {
      assert ThreadOk(s, u);
    }
    if a.Step? {
      Knows(s, a.t);
      StepMoves(s, a.t);
      StepShape(s, a.t);
    }
    MoveKeepsNoLeak(s, s', a.t);
    MoveKeepsApart(s, s', a.t);
  }

  lemma {:induction false} RunKeepsNodes(n: nat, actions: seq<Action>)
    requires Run(Start(n), actions).Some?
    ensures NoLeak(Run(Start(n), actions).value) && Apart(Run(Start(n), actions).value)
  {
    if actions != [] {
      var k := |actions| - 1;
      RunKeepsNodes(n, actions[..k]);
      ReachableInv(n, Run(Start(n), actions[..k]).value);
      ActionKeepsNodes(Run(Start(n), actions[..k]).value, actions[k]);
    }
  }

  /** No node leaks, in any interleaving: a node in the heap is in the list, or exactly one
      thread is still going to link it or to free it. */
  lemma NothingLeaks(n: nat, s: State, p: Ptr)
    requires Reachable(n, s) && p in s.heap
    ensures p in s.order <==> !exists t :: 0 <= t < |s.threads| && Owned(s.threads[t]) == Some(p)
    ensures forall t, u :: 0 <= t < u < |s.threads| ==> Owned(s.threads[t]) != Some(p) || Owned(s.threads[u]) != Some(p)
  {
    var actions :| Run(Start(n), actions) == Some(s);
    RunKeepsNodes(n, actions);
    ReachableInv(n, s);
  }

  /** Nobody is between taking the node out of the list and freeing it. */
  predicate NotBeingFreed(s: State, p: Ptr) {
    forall u :: 0 <= u < |s.threads| ==> Doomed(s.threads[u]) != Some(p)
  }

  /** While gm->lock is free nobody is. */
  lemma FreeLockFreesNothing(n: nat, s: State, p: Ptr)
    requires Reachable(n, s) && s.gmLock.None?
    ensures NotBeingFreed(s, p)
  {
    ReachableInv(n, s);
    assert forall u :: 0 <= u < |s.threads| && Doomed(s.threads[u]).Some? ==> HoldsManager(s.threads[u]);
  }

  /** The creator's last read touches a freed node exactly when its game is out of the list by
      then, and the thread that took it out is done with the node. */
  lemma CreatorCrashesExactly(n: nat, s: State, t: Tid)
    requires Reachable(n, s) && Enabled(s, t) && s.threads[t].phase.Reporting?
    ensures var p := s.threads[t].phase.p;
      Crashes(s, t) <==> s.threads[t].op.wantsId && p !in s.order && NotBeingFreed(s, p)
  {
    var actions :| Run(Start(n), actions) == Some(s);
    RunKeepsNodes(n, actions);
    ReachableInv(n, s);
    CrashesExactly(n, s, t);
    GoneExactly(s, t);
  }

  lemma GoneExactly(s: State, t: Tid)
    requires ListOk(s) && HeapOk(s) && NoLeak(s) && Apart(s)
    requires t < |s.threads| && s.threads[t].Running? && s.threads[t].phase.Reporting?
    ensures var p := s.threads[t].phase.p; p !in s.heap <==> p !in s.order && NotBeingFreed(s, p)
  {
    var p := s.threads[t].phase.p;
    assert Announced(s.threads[t]) == Some(p);
    if p in s.heap && p !in s.order {
      var u :| 0 <= u < |s.threads| && Owned(s.threads[u]) == Some(p);
      assert Building(s.threads[u]) != Some(p);
      assert Doomed(s.threads[u]) == Some(p);
    }
    assert forall u :: 0 <= u < |s.threads| && Doomed(s.threads[u]).Some? ==>
      Owned(s.threads[u]) == Doomed(s.threads[u]);
  }

  // ---- ids in the log ----

  /** What one step adds to the log: a create only when its node is linked, with the node's id. */
  predicate LogMoves(s: State, s': State, t: Tid)
    requires t < |s.threads| && s.threads[t].Running? && t < |s'.threads| && s'.threads[t].Running?
  {
    var th, th' := s.threads[t], s'.threads[t];
    && (s'.log == s.log || (|s'.log| == |s.log| + 1 && s'.log[..|s.log|] == s.log))
    && (|s'.log| > |s.log| && s'.log[|s.log|].op.Create? ==>
          var p := Building(th);
          p.Some? && p.value in s.heap && s'.log[|s.log|].newId == s.heap[p.value].game.id && Building(th').None?)
    && (Announced(th').Some? ==>
          if Announced(th') == Announced(th) then th'.lin == th.lin
          else th'.lin == Some(|s.log|) && |s'.log| > |s.log| && s'.log[|s.log|].op.Create?)
  }

  lemma CreateLogs(s: State, t: Tid)
    requires Local(s, t) && Enabled(s, t) && s.threads[t].op.Create?
    ensures Shaped(s, Next(s, t), t) && LogMoves(s, Next(s, t), t)
  {
    CreateShape(s, t);
  }

  /** Other calls announce nothing. */
  lemma OtherLogs(s: State, s': State, t: Tid)
    requires t < |s.threads| && s.threads[t].Running? && !s.threads[t].op.Create? && Shaped(s, s', t)
    requires Fits(s'.threads[t].op, s'.threads[t].phase)
    ensures LogMoves(s, s', t)
  {
  }

  lemma StepLogs(s: State, t: Tid)
    requires Inv(s) && Enabled(s, t)
    ensures Shaped(s, Next(s, t), t) && LogMoves(s, Next(s, t), t)
  {
    Knows(s, t);
    StepShape(s, t);
    if s.threads[t].op.Create? {
      CreateLogs(s, t);
    } else {
      ActionKeepsInv(s, Step(t));
      assert ThreadOk(Next(s, t), t);
      OtherLogs(s, Next(s, t), t);
    }
  }

  predicate NotBuilt(s: State, th: Thread, id: u32) {
    Building(th).Some? && Building(th).value in s.heap ==> s.heap[Building(th).value].game.id != id
  }

  /** Creates in the log have distinct ids below the counter, none of them the id of a node that
      is not linked yet. */
  predicate LogIds(s: State) {
    && DistinctCreates(s.log)
    && (forall k :: 0 <= k < |s.log| && s.log[k].op.Create? ==> s.log[k].newId < s.drawn)
    && (forall u, k :: 0 <= u < |s.threads| && 0 <= k < |s.log| && s.log[k].op.Create? ==>
          NotBuilt(s, s.threads[u], s.log[k].newId))
  }

  /** A node that its creator may still read is the only one with the id logged for it. */
  predicate OnlyNode(s: State, th: Thread) {
    Announced(th).Some? ==>
      && th.lin.Some? && th.lin.value < |s.log| && s.log[th.lin.value].newId < s.drawn
      && forall q :: q in s.heap && s.heap[q].game.id == s.log[th.lin.value].newId ==> Announced(th) == Some(q)
  }

  predicate AnnouncedIds(s: State) {
    forall t :: 0 <= t < |s.threads| ==> OnlyNode(s, s.threads[t])
  }

  /** New nodes get an id that was never used. */
  predicate IdsMove(s: State, s': State) {
    && SameIds(s.heap, s'.heap) && s.drawn <= s'.drawn
    && forall p :: p in s'.heap && p !in s.heap ==> p == s.brk && s'.heap[p].game.id == s.drawn < s'.drawn
  }

  /** What is known about ids, of all nodes and of the log. */
  predicate Ledger(s: State) {
    IdsOk(s) && LogIds(s) && AnnouncedIds(s)
  }

  /** All that one step does to nodes, ids and log. */
  predicate StepFacts(s: State, s': State, t: Tid)
    requires t < |s.threads|
  {
    && |s'.threads| == |s.threads| && s'.threads == s.threads[t := s'.threads[t]]
    && s.threads[t].Running? && s'.threads[t].Running?
    && LogMoves(s, s', t) && NodesMove(s, s', t) && IdsMove(s, s')
  }

  lemma MoveKeepsLogIds(s: State, s': State, t: Tid)
    requires HeapOk(s) && IdsOk(s) && LogIds(s) && t < |s.threads| && StepFacts(s, s', t)
    ensures LogIds(s')
  {
    forall u, k | 0 <= u < |s'.threads| && 0 <= k < |s'.log| && s'.log[k].op.Create?
      ensures NotBuilt(s', s'.threads[u], s'.log[k].newId)
    {
      if k < |s.log| {
        assert s'.log[k] == s'.log[..|s.log|][k];
        assert NotBuilt(s, s.threads[u], s.log[k].newId);
      }
      if u != t && Building(s.threads[u]).Some? {
        assert Owned(s.threads[u]) == Building(s.threads[u]);
        assert Building(s.threads[t]).Some? ==> Owned(s.threads[t]) == Building(s.threads[t]);
      }
    }
    assert forall k :: 0 <= k < |s.log| ==> s'.log[k] == s.log[k];
  }

  lemma MoveKeepsAnnounced(s: State, s': State, t: Tid)
    requires HeapOk(s) && IdsOk(s) && AnnouncedIds(s) && t < |s.threads| && StepFacts(s, s', t)
    ensures AnnouncedIds(s')
  {
    forall u | 0 <= u < |s'.threads| ensures OnlyNode(s', s'.threads[u]) {
      var th := s'.threads[u];
      assert OnlyNode(s, s.threads[u]);
      if Announced(th).Some? && (u != t || Announced(th) == Announced(s.threads[t])) {
        assert s'.log[th.lin.value] == s'.log[..|s.log|][th.lin.value];
      }
    }
  }

  lemma IdsMoveFrom(s: State, s': State)
    requires NewIds(s, s') && s'.drawn <= UINT32_LIMIT
    ensures IdsMove(s, s')
  {
    assert s.drawn < UINT32_LIMIT ==> s.drawn % UINT32_LIMIT == s.drawn;
  }

  lemma StepIdsMove(s: State, t: Tid)
    requires Inv(s) && Enabled(s, t) && Next(s, t).drawn <= UINT32_LIMIT
    ensures IdsMove(s, Next(s, t))
  {
    Knows(s, t);
    StepIds(s, t);
    IdsMoveFrom(s, Next(s, t));
  }

  lemma ActionKeepsLedger(s: State, a: Action)
    requires Inv(s) && Ledger(s) && Possible(s, a) && Do(s, a).drawn <= UINT32_LIMIT
    ensures Ledger(Do(s, a))
  {
    ActionKeepsIds(s, a);
    if a.Step? {
      Knows(s, a.t);
      StepMoves(s, a.t);
      StepLogs(s, a.t);
      StepIdsMove(s, a.t);
      MoveKeepsLogIds(s, Do(s, a), a.t);
      MoveKeepsAnnounced(s, Do(s, a), a.t);
    } else {
      OutsideKeepsLedger(s, a);
    }
  }

  lemma OutsideKeepsLedger(s: State, a: Action)
    requires Ledger(s) && Possible(s, a) && !a.Step?
    ensures LogIds(Do(s, a)) && AnnouncedIds(Do(s, a))
  {
    var s' := Do(s, a);
    assert Building(s'.threads[a.t]).None? && Announced(s'.threads[a.t]).None?;
    forall u | 0 <= u < |s'.threads| ensures OnlyNode(s', s'.threads[u]) {
      assert OnlyNode(s, s.threads[u]);
    }
  }

  lemma {:induction false} RunKeepsLedger(n: nat, actions: seq<Action>)
    requires Run(Start(n), actions).Some? && Run(Start(n), actions).value.drawn <= UINT32_LIMIT
    ensures Ledger(Run(Start(n), actions).value)
  {
    if actions != [] {
      var k := |actions| - 1;
      var before := Run(Start(n), actions[..k]).value;
      ActionDraws(before, actions[k]);
      RunKeepsLedger(n, actions[..k]);
      ReachableInv(n, before);
      ActionKeepsLedger(before, actions[k]);
    }
  }

  // ---- the order of the list ----

  predicate Below(games: seq<Game>, id: int) {
    forall i :: 0 <= i < |games| ==> games[i].id < id
  }

  /** The list is in order, and at most one node waits to be linked, with a larger id. */
  predicate Ordered(s: State) {
    && Increasing(Replay(s.log))
    && (forall t, u :: 0 <= t < u < |s.threads| ==> Building(s.threads[t]).None? || Building(s.threads[u]).None?)
    && (forall u :: 0 <= u < |s.threads| ==> BuildsBehind(s, s.threads[u]))
  }

  predicate BuildsBehind(s: State, th: Thread) {
    Building(th).Some? ==> Building(th).value in s.heap && Below(Replay(s.log), s.heap[Building(th).value].game.id)
  }

  /** No id is drawn while another node waits to be linked. */
  predicate DrawsAlone(s: State, a: Action) {
    a.Step? && a.t < |s.threads| && s.threads[a.t].Running? && s.threads[a.t].phase.Drawing? ==>
      forall u :: 0 <= u < |s.threads| ==> Building(s.threads[u]).None?
  }

  /** A call that is not a create lists no new id. */
  lemma StaysBelow(games: seq<Game>, op: Op, newId: u32, bound: int)
    requires Below(games, bound) && !op.Create?
    ensures Below(Apply(games, op, newId).0, bound)
  {
    var games' := Apply(games, op, newId).0;
    forall i | 0 <= i < |games'| ensures games'[i].id < bound {
      OldIds(games, op, newId, games'[i].id);
    }
  }

  lemma AppendKeepsIncreasing(s: State, s': State, t: Tid)
    requires Ordered(s) && t < |s.threads| && StepFacts(s, s', t) && |s'.log| > |s.log|
    ensures Increasing(Replay(s'.log))
  {
    var e := s'.log[|s.log|];
    LastEntry(s'.log);
    assert BuildsBehind(s, s.threads[t]);
    KeepsOrderExactly(Replay(s.log), e.op, e.newId);
  }

  lemma AppendKeepsBelow(log: seq<Entry>, log': seq<Entry>, bound: int)
    requires |log'| == |log| + 1 && log'[..|log|] == log && !log'[|log|].op.Create? && Below(Replay(log), bound)
    ensures Below(Replay(log'), bound)
  {
    LastEntry(log');
    StaysBelow(Replay(log), log'[|log|].op, log'[|log|].newId, bound);
  }

  lemma ListedBelow(s: State)
    requires ListOk(s) && LogOk(s) && IdsOk(s)
    ensures Below(Replay(s.log), s.drawn)
  {
    var games := Games(s.heap, s.order);
    assert forall i :: 0 <= i < |games| ==> s.order[i] in s.heap;
  }

  lemma MoveKeepsOrder(s: State, s': State, t: Tid)
    requires ListOk(s) && LogOk(s) && HeapOk(s) && HeapOk(s') && IdsOk(s) && Ordered(s)
    requires t < |s.threads| && StepFacts(s, s', t) && DrawsAlone(s, Step(t))
    ensures Ordered(s')
  {
    ListedBelow(s);
    if |s'.log| > |s.log| { AppendKeepsIncreasing(s, s', t); }
    forall u | 0 <= u < |s'.threads| ensures BuildsBehind(s', s'.threads[u]) {
      var th := s'.threads[u];
      assert BuildsBehind(s, s.threads[u]);
      if Building(th).Some? {
        assert Owned(th) == Building(th);
        if |s'.log| > |s.log| && !s'.log[|s.log|].op.Create? {
          AppendKeepsBelow(s.log, s'.log, s'.heap[Building(th).value].game.id);
        }
      }
    }
  }

  lemma ActionKeepsOrder(s: State, a: Action)
    requires Inv(s) && IdsOk(s) && Ordered(s) && Possible(s, a) && DrawsAlone(s, a) && Do(s, a).drawn <= UINT32_LIMIT
    ensures Ordered(Do(s, a))
  {
    ActionKeepsInv(s, a);
    if a.Step? {
      Knows(s, a.t);
      StepMoves(s, a.t);
      StepLogs(s, a.t);
      StepIdsMove(s, a.t);
      MoveKeepsOrder(s, Do(s, a), a.t);
    } else {
      OutsideKeepsOrder(s, a);
    }
  }

  lemma OutsideKeepsOrder(s: State, a: Action)
    requires Ordered(s) && Possible(s, a) && !a.Step?
    ensures Ordered(Do(s, a))
  {
    var s' := Do(s, a);
    assert Building(s'.threads[a.t]).None?;
    forall u | 0 <= u < |s'.threads| ensures BuildsBehind(s', s'.threads[u]) {
      assert BuildsBehind(s, s.threads[u]);
    }
  }

  predicate Undisturbed(n: nat, actions: seq<Action>) {
    forall k :: 0 <= k < |actions| ==>
      match Run(Start(n), actions[..k])
      case Some(s) => DrawsAlone(s, actions[k])
      case None => true
  }

  lemma {:induction false} RunKeepsOrder(n: nat, actions: seq<Action>)
    requires Run(Start(n), actions).Some? && Run(Start(n), actions).value.drawn <= UINT32_LIMIT
    requires Undisturbed(n, actions)
    ensures Ordered(Run(Start(n), actions).value)
  {
    if actions != [] {
      var k := |actions| - 1;
      var before := Run(Start(n), actions[..k]).value;
      assert Undisturbed(n, actions[..k]) by {
        assert forall j :: 0 <= j < k ==> actions[..k][..j] == actions[..j];
      }
      ActionDraws(before, actions[k]);
      RunKeepsOrder(n, actions[..k]);
      RunKeepsIds(n, actions[..k]);
      ReachableInv(n, before);
      ActionKeepsOrder(before, actions[k]);
    }
  }

  /** If no thread draws an id while another one is between its draw and its link, the list is in
      the order of the ids. */
  lemma UndisturbedRunIsInOrder(n: nat, actions: seq<Action>)
    requires Run(Start(n), actions).Some? && Run(Start(n), actions).value.drawn <= UINT32_LIMIT
    requires Undisturbed(n, actions)
    ensures var s := Run(Start(n), actions).value; Mapped(s.heap, s.order) && Increasing(Games(s.heap, s.order))
  {
    RunKeepsOrder(n, actions);
    ReachableInv(n, Run(Start(n), actions).value);
  }

  /** The list of games in every state that the run passes through is in order. */
  predicate AlwaysInOrder(n: nat, actions: seq<Action>) {
    forall k :: 0 <= k <= |actions| ==> InOrderAfter(n, actions[..k])
  }

  predicate InOrderAfter(n: nat, actions: seq<Action>) {
    match Run(Start(n), actions)
    case Some(s) => Increasing(Replay(s.log))
    case None => true
  }

  predicate AllAppendInOrder(log: seq<Entry>) {
    forall k :: 0 <= k < |log| ==> AppendsInOrderAt(log, k)
  }

  lemma AlwaysInOrderStep(n: nat, actions: seq<Action>)
    requires actions != []
    ensures var k := |actions| - 1;
      AlwaysInOrder(n, actions) <==> AlwaysInOrder(n, actions[..k]) && InOrderAfter(n, actions)
  {
    var k := |actions| - 1;
    assert actions[..k + 1] == actions;
    assert forall j :: 0 <= j <= k ==> actions[..k][..j] == actions[..j];
    if AlwaysInOrder(n, actions) { assert InOrderAfter(n, actions[..k + 1]); }
  }

  lemma InOrderNow(log: seq<Entry>)
    ensures InOrderAt(log, |log|) == Increasing(Replay(log))
  {
    assert log[..|log|] == log;
  }

  lemma AllAppendGivesOrder(log: seq<Entry>)
    requires AllAppendInOrder(log)
    ensures Increasing(Replay(log))
  {
    RunInOrderExactly(log);
    InOrderNow(log);
  }

  lemma GrownInOrder(log: seq<Entry>, log': seq<Entry>)
    requires log' == log || (|log'| == |log| + 1 && log'[..|log|] == log)
    ensures AllAppendInOrder(log') <==> AllAppendInOrder(log) && Increasing(Replay(log'))
  {
    if AllAppendInOrder(log) { AllAppendGivesOrder(log); }
    if log' != log { OneEntryInOrder(log, log'); }
  }

  lemma OneEntryInOrder(log: seq<Entry>, log': seq<Entry>)
    requires |log'| == |log| + 1 && log'[..|log|] == log
    requires AllAppendInOrder(log) ==> Increasing(Replay(log))
    ensures AllAppendInOrder(log') <==> AllAppendInOrder(log) && Increasing(Replay(log'))
  {
    AllAppendStep(log', log);
    InOrderNow(log');
    if AllAppendInOrder(log) { OrderStep(log', |log|); }
  }

  lemma AllAppendStep(log': seq<Entry>, log: seq<Entry>)
    requires log' != [] && log'[..|log'| - 1] == log
    ensures AllAppendInOrder(log') <==> AllAppendInOrder(log) && AppendsInOrderAt(log', |log|)
  {
    OrderPrefix(log', |log|);
  }

  /** Whatever the interleaving: the list is in the order of the ids all the time exactly when no
      create takes effect while a game with a larger or equal id is last in the list. */
  lemma {:induction false} InterleavingInOrderExactly(n: nat, actions: seq<Action>)
    requires Run(Start(n), actions).Some?
    ensures AlwaysInOrder(n, actions) <==> AllAppendInOrder(Run(Start(n), actions).value.log)
  {
    if actions != [] {
      var k := |actions| - 1;
      var before := Run(Start(n), actions[..k]).value;
      InterleavingInOrderExactly(n, actions[..k]);
      AlwaysInOrderStep(n, actions);
      ReachableInv(n, before);
      ActionLogs(before, actions[k]);
      GrownInOrder(before.log, Do(before, actions[k]).log);
    }
  }

  lemma ActionLogs(s: State, a: Action)
    requires Inv(s) && Possible(s, a)
    ensures var log := Do(s, a).log; log == s.log || (|log| == |s.log| + 1 && log[..|s.log|] == s.log)
  {
    if a.Step? { StepLogs(s, a.t); }
  }

  // ---- the use after free, in terms of the atomic run ----

  /** The announced node is in the list exactly while the id logged for it is listed. */
  lemma ListedNode(s: State, t: Tid)
    requires ListOk(s) && LogOk(s) && t < |s.threads| && ThreadOk(s, t) && OnlyNode(s, s.threads[t])
    requires s.threads[t].Running? && s.threads[t].phase.Reporting?
    ensures var th := s.threads[t];
      th.lin.Some? && th.lin.value < |s.log| &&
      (th.phase.p in s.order <==> HasId(Replay(s.log), s.log[th.lin.value].newId))
  {
    var p, id := s.threads[t].phase.p, s.log[s.threads[t].lin.value].newId;
    var games := Games(s.heap, s.order);
    if p in s.order {
      var i :| 0 <= i < |s.order| && s.order[i] == p;
      assert games[i].id == id;
    }
    if i :| 0 <= i < |games| && games[i].id == id {
      assert s.order[i] in s.heap && s.order[i] == p;
    }
  }

  /** The creator's last read touches a freed node exactly when, after the create took effect, a
      leave took the new game off the list, so that a lookup of the new id would miss, and the
      thread that made the leave is done with the node. */
  lemma CrashIsADeletion(n: nat, actions: seq<Action>, t: Tid)
    requires Run(Start(n), actions).Some? && Run(Start(n), actions).value.drawn <= UINT32_LIMIT
    requires var s := Run(Start(n), actions).value; Enabled(s, t) && s.threads[t].phase.Reporting?
    ensures var s := Run(Start(n), actions).value;
      var th := s.threads[t];
      && th.lin.Some? && th.lin.value < |s.log|
      && var id := s.log[th.lin.value].newId;
      && (HasId(Replay(s.log), id) <==> !DeletedAfter(s.log, th.lin.value, id))
      && (Crashes(s, t) <==>
            th.op.wantsId && DeletedAfter(s.log, th.lin.value, id) && NotBeingFreed(s, th.phase.p))
  {
    var s := Run(Start(n), actions).value;
    RunKeepsLedger(n, actions);
    ReachableInv(n, s);
    CreatorCrashesExactly(n, s, t);
    assert ThreadOk(s, t) && OnlyNode(s, s.threads[t]);
    ListedNode(s, t);
    ListedExactly(s.log, s.threads[t].lin.value, s.log[s.threads[t].lin.value].newId);
  }
}
