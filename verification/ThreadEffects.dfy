/** The steps at which calls take effect, and those that allocate and free nodes. */
module ThreadEffects {
  import opened TrisTypes
  import opened GameRules
  import opened GameLife
  import opened ManagerSpec
  import opened ManagerThreads
  import opened ThreadInvariant
  import opened ThreadSteps

  // ---- the log entry of a call that takes effect ----

  lemma EffectHistory(log: seq<Entry>, t: Tid, th: Thread, e: Entry, phase: Phase)
    requires th.Running? && HistoryOk(log, t, th) && th.lin.None?
    requires e.tid == t && e.op == th.op && TookEffect(phase)
    requires Pending(phase).None? || Pending(phase).value == e.reply
    ensures HistoryOk(log + [e], t, th.(phase := phase, lin := Some(|log|)))
  {
  }

  lemma EntryGrows(log: seq<Entry>, e: Entry, u: Tid)
    requires e.tid != u
    ensures LogGrows(log, log + [e], u)
  {
  }

  // ---- effects without a change of the heap: a failed lookup and the end of a scan ----

  function Noted(s: State, t: Tid, gm: Option<Tid>, e: Entry, phase: Phase): State
    requires t < |s.threads| && s.threads[t].Running?
  {
    s.(gmLock := gm, threads := s.threads[t := s.threads[t].(phase := phase, lin := Some(|s.log|))],
       log := s.log + [e])
  }

  lemma NotedKeepsInv(s: State, t: Tid, gm: Option<Tid>, e: Entry, phase: Phase)
    requires Inv(s) && t < |s.threads| && s.threads[t].Running? && s.threads[t].lin.None?
    requires e.tid == t && e.op == s.threads[t].op && (phase.Leaving? || phase.Done?) && phase.reply == e.reply
    requires Fits(e.op, phase) && HeldGame(s.threads[t]).None? && Owned(s.threads[t]).None?
    requires s.gmLock == Some(t) && gm == if phase.Leaving? then Some(t) else None
    requires Apply(Games(s.heap, s.order), e.op, e.newId) == (Games(s.heap, s.order), e.reply)
    ensures Inv(Noted(s, t, gm, e, phase))
  {
    var s' := Noted(s, t, gm, e, phase);
    var th := s'.threads[t];
    ShiftLocks(s, t, th, gm);
    ShiftHeap(s, t, th, gm);
    Extend(s.log, e);
    assert ThreadOk(s, t);
    EffectHistory(s.log, t, s.threads[t], e, phase);
    forall u | 0 <= u < |s.threads| && u != t ensures Frame(s, s', u) {
      ShiftFrame(s, t, th, gm, u);
      EntryGrows(s.log, e, u);
    }
    Assemble(s, s', t);
  }

  lemma SearchMiss(s: State, t: Tid)
    requires Inv(s) && Enabled(s, t) && s.threads[t].phase.Searching? && s.threads[t].phase.cur.None?
    ensures Inv(Next(s, t))
  {
    assert ThreadOk(s, t);
    var op := s.threads[t].op;
    var reply := Missing(op.call);
    IndexOfIs(Games(s.heap, s.order), op.id, |s.order|);
    NotedKeepsInv(s, t, s.gmLock, Entry(t, op, 0, reply), Leaving(reply));
  }

  lemma ScanEnds(s: State, t: Tid)
    requires Inv(s) && Enabled(s, t) && s.threads[t].phase.ScanDone?
    ensures Inv(Next(s, t))
  {
    assert ThreadOk(s, t);
    var i, acc := s.threads[t].phase.i, s.threads[t].phase.acc;
    var games := Games(s.heap, s.order);
    SeenLobbyIs(s.heap, s.order, i);
    if i == |s.order| { assert games[..i] == games; } else { LobbyFull(games, i); }
    NotedKeepsInv(s, t, None, Entry(t, s.threads[t].op, 0, Listed(acc)), Done(Listed(acc)));
  }

  // ---- writing a game back ----

  /** Game i of the list, at address p, replaced. */
  lemma GamesUpdated(heap: map<Ptr, Cell>, ps: seq<Ptr>, i: nat, p: Ptr, g: Game)
    requires Mapped(heap, ps) && Distinct(ps) && i < |ps| && ps[i] == p
    ensures Games(heap[p := heap[p].(game := g)], ps) == Games(heap, ps)[i := g]
  {
  }

  lemma FoundIndex(heap: map<Ptr, Cell>, ps: seq<Ptr>, i: nat, p: Ptr, id: u32)
    requires Mapped(heap, ps) && MatchAt(heap, ps, i, p, id)
    ensures IndexOf(Games(heap, ps), id) == i && Games(heap, ps)[i] == heap[p].game
  {
    IndexOfIs(Games(heap, ps), id, i);
  }

  function Rewritten(s: State, t: Tid, p: Ptr, g: Game, e: Entry, phase: Phase): State
    requires t < |s.threads| && s.threads[t].Running? && p in s.heap
  {
    s.(heap := s.heap[p := s.heap[p].(game := g)],
       threads := s.threads[t := s.threads[t].(phase := phase, lin := Some(|s.log|))],
       log := s.log + [e])
  }

  lemma RewrittenFrame(s: State, t: Tid, p: Ptr, g: Game, e: Entry, phase: Phase, u: Tid)
    requires Others(s, t, u) && s.threads[t].Running?
    requires p in s.heap && p in s.order && s.heap[p].lock == Some(t) && g.id == s.heap[p].game.id && e.tid == t
    ensures Frame(s, Rewritten(s, t, p, g, e, phase), u)
  {
    var s' := Rewritten(s, t, p, g, e, phase);
    if HeldGame(s.threads[u]).Some? { SameFirst(s, s', HeldGame(s.threads[u]).value); }
    EntryGrows(s.log, e, u);
  }

  predicate SameHoldings(a: Thread, b: Thread) {
    HoldsManager(a) == HoldsManager(b) && HeldGame(a) == HeldGame(b) && Owned(a) == Owned(b)
  }

  lemma RewrittenChain(s: State, p: Ptr, g: Game)
    requires ListOk(s) && p in s.heap
    ensures Chain(s.head, s.tail, s.heap[p := s.heap[p].(game := g)], s.order)
  {
  }

  lemma RewrittenLocks(s: State, t: Tid, p: Ptr, g: Game, th: Thread)
    requires LocksOk(s) && t < |s.threads| && p in s.heap && SameHoldings(s.threads[t], th)
    ensures Locks(s.gmLock, s.heap[p := s.heap[p].(game := g)], s.threads[t := th])
  {
  }

  lemma RewrittenCells(s: State, t: Tid, p: Ptr, g: Game, th: Thread)
    requires HeapOk(s) && t < |s.threads| && p in s.heap && SameHoldings(s.threads[t], th)
    ensures Cells(s.heap[p := s.heap[p].(game := g)], s.order, s.brk, s.threads[t := th])
  {
  }

  lemma RewrittenKeepsInv(s: State, t: Tid, i: nat, p: Ptr, g: Game, e: Entry, phase: Phase)
    requires Inv(s) && t < |s.threads| && s.threads[t].Running? && s.threads[t].lin.None?
    requires i < |s.order| && s.order[i] == p && s.heap[p].lock == Some(t) && g.id == s.heap[p].game.id
    requires e.tid == t && e.op == s.threads[t].op && Fits(e.op, phase)
    requires (phase.Written? || phase.Kept?) && phase.p == p && phase.reply == e.reply
    requires SameHoldings(s.threads[t], s.threads[t].(phase := phase))
    requires Apply(Games(s.heap, s.order), e.op, e.newId) == (Games(s.heap, s.order)[i := g], e.reply)
    ensures Inv(Rewritten(s, t, p, g, e, phase))
  {
    var s' := Rewritten(s, t, p, g, e, phase);
    assert s.order[i] in s.order;
    RewrittenChain(s, p, g);
    RewrittenLocks(s, t, p, g, s'.threads[t]);
    RewrittenCells(s, t, p, g, s'.threads[t]);
    GamesUpdated(s.heap, s.order, i, p, g);
    Extend(s.log, e);
    assert ThreadOk(s, t);
    EffectHistory(s.log, t, s.threads[t], e, phase);
    forall u | 0 <= u < |s.threads| && u != t ensures Frame(s, s', u) {
      KnowsOthers(s, t, u);
      RewrittenFrame(s, t, p, g, e, phase, u);
    }
    Assemble(s, s', t);
  }

  lemma KeepsLoaded(s: State, t: Tid)
    requires Inv(s) && Enabled(s, t) && s.threads[t].phase.Loaded?
    ensures Inv(Next(s, t))
  {
    assert ThreadOk(s, t);
    var op := s.threads[t].op;
    var p, g := s.threads[t].phase.p, s.threads[t].phase.g;
    var i :| 0 <= i < |s.order| && MatchAt(s.heap, s.order, i, p, op.id);
    FoundIndex(s.heap, s.order, i, p, op.id);
    var (g', reply) := OnGame(g, op.call);
    RewrittenKeepsInv(s, t, i, p, g', Entry(t, op, 0, reply), Written(p, reply));
  }

  lemma KeepsLeaveLoaded(s: State, t: Tid)
    requires Inv(s) && Enabled(s, t) && s.threads[t].phase.LeaveLoaded?
    requires var ph := s.threads[t].phase;
      var (g', reply) := OnGame(ph.g, s.threads[t].op.call); !(reply == Left && Vacant(g'))
    ensures Inv(Next(s, t))
  {
    assert ThreadOk(s, t);
    var op := s.threads[t].op;
    var i, p, g := s.threads[t].phase.i, s.threads[t].phase.p, s.threads[t].phase.g;
    FoundIndex(s.heap, s.order, i, p, op.id);
    var (g', reply) := OnGame(g, op.call);
    RewrittenKeepsInv(s, t, i, p, g', Entry(t, op, 0, reply), Kept(p, reply));
  }

  // ---- allocating and freeing ----

  function NewCell(s: State, op: Op): Cell
    requires op.Create?
  {
    Cell(NewGame(s.drawn % UINT32_LIMIT, op.socket, op.owner), None, None)
  }

  lemma DrawingShape(s: State, t: Tid, cell: Cell, th: Thread)
    requires ListOk(s) && LocksOk(s) && HeapOk(s) && t < |s.threads| && cell.lock.None?
    requires !HoldsManager(s.threads[t]) && HeldGame(s.threads[t]).None? && Owned(s.threads[t]).None?
    requires !HoldsManager(th) && HeldGame(th).None? && Owned(th) == Some(s.brk)
    ensures Chain(s.head, s.tail, s.heap[s.brk := cell], s.order)
    ensures Locks(s.gmLock, s.heap[s.brk := cell], s.threads[t := th])
    ensures Cells(s.heap[s.brk := cell], s.order, s.brk + 1, s.threads[t := th])
  {
    assert s.brk !in s.heap;
    forall i | 0 <= i < |s.order| ensures s.order[i] != s.brk {
      assert s.order[i] in s.heap;
    }
  }

  lemma DrawingFrame(s: State, s': State, t: Tid, cell: Cell, u: Tid)
    requires Others(s, t, u) && s.brk !in s.heap && Mapped(s'.heap, s'.order)
    requires |s'.threads| == |s.threads| && s'.threads[u] == s.threads[u]
    requires s'.order == s.order && s'.log == s.log && s.brk < s'.brk
    requires s'.heap == s.heap[s.brk := cell]
    ensures Frame(s, s', u)
  {
    if HeldGame(s.threads[u]).Some? { SameFirst(s, s', HeldGame(s.threads[u]).value); }
  }

  lemma KeepsDrawing(s: State, t: Tid)
    requires Inv(s) && Enabled(s, t) && s.threads[t].phase.Drawing?
    ensures Inv(Next(s, t))
  {
    var s' := Next(s, t);
    var cell := NewCell(s, s.threads[t].op);
    assert ThreadOk(s, t);
    DrawingShape(s, t, cell, s'.threads[t]);
    assert s'.heap == s.heap[s.brk := cell];
    SameGames(s.heap, s'.heap, s.order);
    forall u | 0 <= u < |s.threads| && u != t ensures Frame(s, s', u) {
      KnowsOthers(s, t, u);
      DrawingFrame(s, s', t, cell, u);
    }
    Assemble(s, s', t);
  }

  lemma FreeingChain(s: State, p: Ptr)
    requires ListOk(s) && p !in s.order
    ensures Chain(s.head, s.tail, s.heap - {p}, s.order)
  {
    forall i | 0 <= i < |s.order| ensures s.order[i] != p {
      assert s.order[i] in s.order;
    }
  }

  lemma FreeingLocks(s: State, t: Tid, p: Ptr, th: Thread)
    requires LocksOk(s) && t < |s.threads| && p in s.heap && s.heap[p].lock.None?
    requires HoldsManager(s.threads[t]) && HeldGame(s.threads[t]).None? && HoldsManager(th) && HeldGame(th).None?
    ensures Locks(s.gmLock, s.heap - {p}, s.threads[t := th])
  {
  }

  lemma FreeingCells(s: State, t: Tid, p: Ptr, th: Thread)
    requires HeapOk(s) && t < |s.threads| && Owned(s.threads[t]) == Some(p) && Owned(th).None?
    ensures Cells(s.heap - {p}, s.order, s.brk, s.threads[t := th])
  {
  }

  lemma FreeingFrame(s: State, s': State, t: Tid, p: Ptr, u: Tid)
    requires Others(s, t, u) && p in s.heap && s.heap[p].lock.None? && Owned(s.threads[t]) == Some(p)
    requires HoldsManager(s.threads[t]) && s'.heap == s.heap - {p} && Mapped(s'.heap, s'.order)
    requires |s'.threads| == |s.threads| && s'.threads[u] == s.threads[u]
    requires s'.order == s.order && s'.log == s.log && s.brk == s'.brk
    ensures Frame(s, s', u)
  {
    if HeldGame(s.threads[u]).Some? { SameFirst(s, s', HeldGame(s.threads[u]).value); }
  }

  lemma FreeingOwn(s: State, t: Tid)
    requires Local(s, t) && Enabled(s, t) && s.threads[t].phase.Freeing? && s.threads[t].phase.p !in s.order
    ensures var s' := Next(s, t);
      && s' == s.(heap := s.heap - {s.threads[t].phase.p}, threads := s.threads[t := s'.threads[t]])
      && s'.threads[t] == s.threads[t].(phase := Leaving(s.threads[t].phase.reply))
      && Mapped(s'.heap, s'.order) && ThreadOk(s', t)
  {
    FreeingChain(s, s.threads[t].phase.p);
  }

  lemma FreeingFrames(s: State, s': State, t: Tid, p: Ptr)
    requires ListOk(s) && LocksOk(s) && HeapOk(s) && t < |s.threads| && p in s.heap && s.heap[p].lock.None?
    requires Owned(s.threads[t]) == Some(p) && HoldsManager(s.threads[t])
    requires s'.heap == s.heap - {p} && Mapped(s'.heap, s'.order)
    requires |s'.threads| == |s.threads| && s'.threads == s.threads[t := s'.threads[t]]
    requires s'.order == s.order && s'.log == s.log && s.brk == s'.brk
    ensures forall u :: 0 <= u < |s.threads| && u != t ==> Frame(s, s', u)
  {
    forall u | 0 <= u < |s.threads| && u != t ensures Frame(s, s', u) {
      KnowsOthers(s, t, u);
      FreeingFrame(s, s', t, p, u);
    }
  }

  lemma KeepsFreeing(s: State, t: Tid)
    requires Inv(s) && Enabled(s, t) && s.threads[t].phase.Freeing?
    ensures Inv(Next(s, t))
  {
    var s' := Next(s, t);
    var p := s.threads[t].phase.p;
    Knows(s, t);
    FreeingOwn(s, t);
    FreeingLocks(s, t, p, s'.threads[t]);
    FreeingCells(s, t, p, s'.threads[t]);
    FreeingChain(s, p);
    SameGames(s.heap, s'.heap, s.order);
    FreeingFrames(s, s', t, p);
    Assemble(s, s', t);
  }

  // ---- appending a node ----

  /** The heap after the last node was made to point to p. */
  function Chained(heap: map<Ptr, Cell>, ps: seq<Ptr>, p: Ptr): map<Ptr, Cell>
    requires Mapped(heap, ps)
  {
    if ps == [] then heap
    else heap[ps[|ps| - 1] := heap[ps[|ps| - 1]].(next := Some(p))]
  }

  lemma AppendChain(head: Option<Ptr>, tail: Option<Ptr>, heap: map<Ptr, Cell>, ps: seq<Ptr>, p: Ptr)
    requires Chain(head, tail, heap, ps) && p in heap && p !in ps && heap[p].next.None?
    ensures Chain(if ps == [] then Some(p) else head, Some(p), Chained(heap, ps, p), ps + [p])
    ensures Games(Chained(heap, ps, p), ps + [p]) == Games(heap, ps) + [heap[p].game]
  {
  }

  lemma LinkLocks(s: State, t: Tid, p: Ptr, th: Thread)
    requires ListOk(s) && LocksOk(s) && t < |s.threads|
    requires HoldsManager(s.threads[t]) == HoldsManager(th) && HeldGame(s.threads[t]) == HeldGame(th)
    ensures Locks(s.gmLock, Chained(s.heap, s.order, p), s.threads[t := th])
  {
  }

  lemma LinkCells(s: State, t: Tid, p: Ptr, th: Thread)
    requires ListOk(s) && HeapOk(s) && t < |s.threads|
    requires Owned(s.threads[t]) == Some(p) && Owned(th).None?
    ensures Cells(Chained(s.heap, s.order, p), s.order + [p], s.brk, s.threads[t := th])
  {
  }

  lemma LinkFrame(s: State, s': State, t: Tid, p: Ptr, u: Tid)
    requires Others(s, t, u) && HoldsManager(s.threads[t]) && p in s.heap && p !in s.order
    requires s'.heap == Chained(s.heap, s.order, p) && s'.order == s.order + [p] && Mapped(s'.heap, s'.order)
    requires |s'.threads| == |s.threads| && s'.threads[u] == s.threads[u] && s.brk == s'.brk
    requires LogGrows(s.log, s'.log, u)
    ensures Frame(s, s', u)
  {
    if HeldGame(s.threads[u]).Some? { AppendFirst(s, s', p, HeldGame(s.threads[u]).value); }
    if Owned(s.threads[u]).Some? && s.order != [] {
      assert s.order[|s.order| - 1] in s.order;
    }
  }

  lemma AppendFirst(s: State, s': State, p: Ptr, q: Ptr)
    requires Mapped(s.heap, s.order) && Mapped(s'.heap, s'.order) && s'.order == s.order + [p]
    requires SameIds(s.heap, s'.heap)
    ensures StaysFirst(s, s', q)
  {
    forall id | FirstMatch(s.heap, s.order, q, id) ensures FirstMatch(s'.heap, s'.order, q, id) {
      var i :| 0 <= i < |s.order| && MatchAt(s.heap, s.order, i, q, id);
      forall k | 0 <= k < i ensures s'.heap[s'.order[k]].game.id != id {
        assert s'.order[k] == s.order[k];
      }
      assert s'.order[i] == q && MatchAt(s'.heap, s'.order, i, q, id);
    }
  }

  /** The state after thread t appended its node. */
  function LinkedState(s: State, t: Tid, p: Ptr, e: Entry): State
    requires Mapped(s.heap, s.order) && t < |s.threads| && s.threads[t].Running?
  {
    s.(head := if s.order == [] then Some(p) else s.head, tail := Some(p),
       heap := Chained(s.heap, s.order, p), order := s.order + [p], log := s.log + [e],
       threads := s.threads[t := s.threads[t].(phase := Linked(p), lin := Some(|s.log|))])
  }

  lemma LinkIs(s: State, t: Tid, p: Ptr, e: Entry)
    requires ListOk(s) && t < |s.threads| && s.threads[t].Running? && s.threads[t].op.Create? && p in s.heap
    requires var op, id := s.threads[t].op, s.heap[p].game.id;
      e == Entry(t, op, id, Created(if op.wantsId then Some(id) else None))
    ensures Link(s, t, p) == LinkedState(s, t, p, e)
  {
  }

  lemma KeepsLinking(s: State, t: Tid)
    requires Inv(s) && Enabled(s, t) && s.threads[t].phase.Linking?
    ensures Inv(Next(s, t))
  {
    Knows(s, t);
    var p, op := s.threads[t].phase.p, s.threads[t].op;
    var id := s.heap[p].game.id;
    var e := Entry(t, op, id, Created(if op.wantsId then Some(id) else None));
    LinkIs(s, t, p, e);
    LinkKeepsShape(s, t, p, e);
    LinkKeepsLog(s, t, p, e);
    LinkFrames(s, LinkedState(s, t, p, e), t, p, e);
    Assemble(s, LinkedState(s, t, p, e), t);
  }

  /** The thread is about to append its node, and e is the entry for it. */
  predicate LinksAt(s: State, t: Tid, p: Ptr, e: Entry) {
    && ListOk(s) && t < |s.threads| && s.threads[t].Running? && s.threads[t].phase == Linking(p) && ThreadOk(s, t)
    && p in s.heap && p !in s.order && p < s.brk
    && var op, id := s.threads[t].op, s.heap[p].game.id;
       e == Entry(t, op, id, Created(if op.Create? && op.wantsId then Some(id) else None))
  }

  lemma LinkKeepsShape(s: State, t: Tid, p: Ptr, e: Entry)
    requires LinksAt(s, t, p, e) && LocksOk(s) && HeapOk(s)
    ensures var s' := LinkedState(s, t, p, e); ListOk(s') && LocksOk(s') && HeapOk(s')
  {
    var th := s.threads[t].(phase := Linked(p), lin := Some(|s.log|));
    AppendChain(s.head, s.tail, s.heap, s.order, p);
    LinkLocks(s, t, p, th);
    LinkCells(s, t, p, th);
  }

  lemma LinkKeepsLog(s: State, t: Tid, p: Ptr, e: Entry)
    requires LinksAt(s, t, p, e) && LogOk(s)
    ensures var s' := LinkedState(s, t, p, e); Mapped(s'.heap, s'.order) && LogOk(s') && ThreadOk(s', t)
  {
    AppendChain(s.head, s.tail, s.heap, s.order, p);
    Extend(s.log, e);
    EffectHistory(s.log, t, s.threads[t], e, Linked(p));
  }

  lemma LinkFrames(s: State, s': State, t: Tid, p: Ptr, e: Entry)
    requires ListOk(s) && LocksOk(s) && HeapOk(s) && t < |s.threads| && HoldsManager(s.threads[t])
    requires p in s.heap && p !in s.order
    requires s'.heap == Chained(s.heap, s.order, p) && s'.order == s.order + [p] && Mapped(s'.heap, s'.order)
    requires |s'.threads| == |s.threads| && s'.threads == s.threads[t := s'.threads[t]] && s.brk == s'.brk
    requires s'.log == s.log + [e] && e.tid == t
    ensures forall u :: 0 <= u < |s.threads| && u != t ==> Frame(s, s', u)
  {
    forall u | 0 <= u < |s.threads| && u != t ensures Frame(s, s', u) {
      KnowsOthers(s, t, u);
      EntryGrows(s.log, e, u);
      LinkFrame(s, s', t, p, u);
    }
  }

  // ---- removing a node ----

  /** The heap after node i, at address p, got the game g and was taken out of the chain. */
  function Bypassed(heap: map<Ptr, Cell>, ps: seq<Ptr>, i: nat, p: Ptr, g: Game): map<Ptr, Cell>
    requires Mapped(heap, ps) && i < |ps| && ps[i] == p
  {
    var heap' := heap[p := heap[p].(game := g)];
    if i > 0 then heap'[ps[i - 1] := heap'[ps[i - 1]].(next := heap[p].next)] else heap'
  }

  lemma RemoveChain(head: Option<Ptr>, tail: Option<Ptr>, heap: map<Ptr, Cell>, ps: seq<Ptr>, i: nat, p: Ptr, g: Game)
    requires Chain(head, tail, heap, ps) && i < |ps| && ps[i] == p
    ensures Chain(if i > 0 then head else heap[p].next, if tail == Some(p) then PtrAt(ps, i - 1) else tail,
                  Bypassed(heap, ps, i, p, g), RemoveAt(ps, i))
  {
    var heap', ps' := Bypassed(heap, ps, i, p, g), RemoveAt(ps, i);
    forall k | 0 <= k < |ps'| ensures ps'[k] in heap' && heap'[ps'[k]].next == PtrAt(ps', k + 1) {
      var j := if k < i then k else k + 1;
      assert ps'[k] == ps[j] && ps[j] != p;
      if k + 1 == i { assert ps[j] == ps[i - 1]; } else if i > 0 { assert ps[j] != ps[i - 1]; }
    }
  }

  lemma RemoveGames(heap: map<Ptr, Cell>, ps: seq<Ptr>, i: nat, p: Ptr, g: Game)
    requires Mapped(heap, ps) && Distinct(ps) && i < |ps| && ps[i] == p
    requires Mapped(Bypassed(heap, ps, i, p, g), RemoveAt(ps, i))
    ensures Games(Bypassed(heap, ps, i, p, g), RemoveAt(ps, i)) == Games(heap, ps)[..i] + Games(heap, ps)[i + 1..]
  {
    var heap', ps' := Bypassed(heap, ps, i, p, g), RemoveAt(ps, i);
    var games := Games(heap, ps);
    forall k | 0 <= k < |ps'| ensures Games(heap', ps')[k] == games[if k < i then k else k + 1] {
      var j := if k < i then k else k + 1;
      assert ps'[k] == ps[j] && ps[j] != p;
    }
    assert |Games(heap', ps')| == |games| - 1;
  }

  /** Locks do not depend on games and next pointers. */
  lemma SameLocks(gm: Option<Tid>, heap: map<Ptr, Cell>, p: Ptr, cell: Cell, threads: seq<Thread>)
    requires Locks(gm, heap, threads) && p in heap && cell.lock == heap[p].lock
    ensures Locks(gm, heap[p := cell], threads)
  {
  }

  lemma SameHolder(gm: Option<Tid>, heap: map<Ptr, Cell>, threads: seq<Thread>, t: Tid, th: Thread)
    requires Locks(gm, heap, threads) && t < |threads|
    requires HoldsManager(threads[t]) == HoldsManager(th) && HeldGame(threads[t]) == HeldGame(th)
    ensures Locks(gm, heap, threads[t := th])
  {
  }

  lemma RemoveLocks(s: State, t: Tid, i: nat, p: Ptr, g: Game, th: Thread)
    requires ListOk(s) && LocksOk(s) && t < |s.threads| && i < |s.order| && s.order[i] == p
    requires HoldsManager(s.threads[t]) == HoldsManager(th) && HeldGame(s.threads[t]) == HeldGame(th)
    ensures Locks(s.gmLock, Bypassed(s.heap, s.order, i, p, g), s.threads[t := th])
  {
    SameHolder(s.gmLock, s.heap, s.threads, t, th);
    SameLocks(s.gmLock, s.heap, p, s.heap[p].(game := g), s.threads[t := th]);
    if i > 0 {
      var heap', q := s.heap[p := s.heap[p].(game := g)], s.order[i - 1];
      SameLocks(s.gmLock, heap', q, heap'[q].(next := s.heap[p].next), s.threads[t := th]);
    }
  }

  lemma RemoveCells(s: State, t: Tid, i: nat, p: Ptr, g: Game, th: Thread)
    requires ListOk(s) && HeapOk(s) && t < |s.threads| && i < |s.order| && s.order[i] == p
    requires Owned(s.threads[t]).None? && Owned(th) == Some(p)
    ensures Cells(Bypassed(s.heap, s.order, i, p, g), RemoveAt(s.order, i), s.brk, s.threads[t := th])
  {
    RemoveMembers(s.order, i);
    assert s.order[i] in s.order;
  }

  lemma RemoveMembers(ps: seq<Ptr>, i: nat)
    requires Distinct(ps) && i < |ps|
    ensures forall q :: q in RemoveAt(ps, i) <==> q in ps && q != ps[i]
  {
    forall q | q in ps && q != ps[i] ensures q in RemoveAt(ps, i) {
      var k :| 0 <= k < |ps| && ps[k] == q;
      assert RemoveAt(ps, i)[if k < i then k else k - 1] == q;
    }
  }

  /** Taking another node out of the list leaves q the first with its id. */
  lemma RemoveFirst(s: State, s': State, i: nat, p: Ptr, q: Ptr)
    requires Mapped(s.heap, s.order) && Mapped(s'.heap, s'.order) && Distinct(s.order)
    requires i < |s.order| && s.order[i] == p && s'.order == RemoveAt(s.order, i) && p != q
    requires SameIds(s.heap, s'.heap)
    ensures StaysFirst(s, s', q)
  {
    RemoveMembers(s.order, i);
    forall id | FirstMatch(s.heap, s.order, q, id) ensures FirstMatch(s'.heap, s'.order, q, id) {
      var k :| 0 <= k < |s.order| && MatchAt(s.heap, s.order, k, q, id);
      var k' := if k < i then k else k - 1;
      assert s'.order[k'] == q;
      forall j | 0 <= j < k' ensures s'.heap[s'.order[j]].game.id != id {
        assert s'.order[j] == s.order[if j < i then j else j + 1];
      }
      assert MatchAt(s'.heap, s'.order, k', q, id);
    }
  }

  /** What taking node i out leaves of every cell. */
  lemma BypassedCells(heap: map<Ptr, Cell>, ps: seq<Ptr>, i: nat, p: Ptr, g: Game)
    requires Mapped(heap, ps) && i < |ps| && ps[i] == p
    ensures var heap' := Bypassed(heap, ps, i, p, g);
      && heap'.Keys == heap.Keys && heap'[p].game == g
      && (forall q :: q in heap ==> heap'[q].lock == heap[q].lock && (q != p ==> heap'[q].game == heap[q].game))
      && (forall q :: q in heap && q !in ps ==> heap'[q] == heap[q])
  {
    assert ps[i] in ps;
    if i > 0 { assert ps[i - 1] in ps; }
  }

  lemma RemoveFrame(s: State, s': State, t: Tid, i: nat, p: Ptr, g: Game, u: Tid)
    requires Others(s, t, u) && HoldsManager(s.threads[t]) && i < |s.order| && s.order[i] == p
    requires s.heap[p].lock == Some(t) && g.id == s.heap[p].game.id
    requires s'.heap == Bypassed(s.heap, s.order, i, p, g) && s'.order == RemoveAt(s.order, i)
    requires Mapped(s'.heap, s'.order)
    requires |s'.threads| == |s.threads| && s'.threads[u] == s.threads[u] && s.brk == s'.brk
    requires LogGrows(s.log, s'.log, u) && DeletedSince(s'.log, |s.log| - 1, g.id)
    ensures Frame(s, s', u)
  {
    BypassedCells(s.heap, s.order, i, p, g);
    RemoveMembers(s.order, i);
    KeptFrame(s, s', t, i, p, s'.heap, u);
  }

  /** Everything but the list is as before, from the point of view of another thread. */
  lemma KeptFrame(s: State, s': State, t: Tid, i: nat, p: Ptr, heap': map<Ptr, Cell>, u: Tid)
    requires Others(s, t, u) && HoldsManager(s.threads[t]) && i < |s.order| && s.order[i] == p
    requires s.heap[p].lock == Some(t) && s'.heap == heap' && s'.order == RemoveAt(s.order, i)
    requires heap'.Keys == s.heap.Keys && heap'[p].game.id == s.heap[p].game.id
    requires forall q :: q in s.heap ==>
      heap'[q].lock == s.heap[q].lock && (q != p ==> heap'[q].game == s.heap[q].game)
    requires forall q :: q in s.heap && q !in s.order ==> heap'[q] == s.heap[q]
    requires forall q :: q in s'.order <==> q in s.order && q != p
    requires Mapped(s'.heap, s'.order)
    requires |s'.threads| == |s.threads| && s'.threads[u] == s.threads[u] && s.brk == s'.brk
    requires LogGrows(s.log, s'.log, u) && DeletedSince(s'.log, |s.log| - 1, s.heap[p].game.id)
    ensures Frame(s, s', u)
  {
    if HeldGame(s.threads[u]).Some? { RemoveFirst(s, s', i, p, HeldGame(s.threads[u]).value); }
  }

  /** The state after thread t took node i out of the list. */
  function Removed(s: State, t: Tid, i: nat, p: Ptr, g': Game, e: Entry): State
    requires Mapped(s.heap, s.order) && i < |s.order| && s.order[i] == p && t < |s.threads| && s.threads[t].Running?
  {
    s.(head := if i > 0 then s.head else s.heap[p].next,
       tail := if s.tail == Some(p) then PtrAt(s.order, i - 1) else s.tail,
       heap := Bypassed(s.heap, s.order, i, p, g'), order := RemoveAt(s.order, i), log := s.log + [e],
       threads := s.threads[t := s.threads[t].(phase := Unlinked(p, Left), lin := Some(|s.log|))])
  }

  /** The leave that empties a game, spelled out. */
  lemma UnlinkIs(s: State, t: Tid, e: Entry, g': Game)
    requires ListOk(s) && Enabled(s, t) && s.threads[t].phase.LeaveLoaded?
    requires var ph := s.threads[t].phase;
      && ph.i < |s.order| && s.order[ph.i] == ph.p && ph.prev == PtrAt(s.order, ph.i - 1)
      && OnGame(ph.g, s.threads[t].op.call) == (g', Left) && Vacant(g')
      && e == Entry(t, s.threads[t].op, 0, Left)
    ensures var ph := s.threads[t].phase;
      Next(s, t) == Removed(s, t, ph.i, ph.p, g', e)
  {
  }

  lemma KeepsUnlinking(s: State, t: Tid)
    requires Inv(s) && Enabled(s, t) && s.threads[t].phase.LeaveLoaded?
    requires var ph := s.threads[t].phase;
      var (g', reply) := OnGame(ph.g, s.threads[t].op.call); reply == Left && Vacant(g')
    ensures Inv(Next(s, t))
  {
    Knows(s, t);
    var ph := s.threads[t].phase;
    var g' := OnGame(ph.g, s.threads[t].op.call).0;
    var e := Entry(t, s.threads[t].op, 0, Left);
    UnlinkIs(s, t, e, g');
    UnlinkKeepsShape(s, t, ph.i, ph.p, g', e);
    UnlinkKeepsOthers(s, t, ph.i, ph.p, g', e);
    Assemble(s, Next(s, t), t);
  }

  /** What thread t knows about the node it is going to take out. */
  predicate UnlinksAt(s: State, t: Tid, i: nat, p: Ptr, g': Game, e: Entry) {
    && ListOk(s) && LocksOk(s) && HeapOk(s) && LogOk(s)
    && t < |s.threads| && s.threads[t].Running? && ThreadOk(s, t) && s.threads[t].lin.None?
    && HoldsManager(s.threads[t]) && HeldGame(s.threads[t]) == Some(p) && Owned(s.threads[t]).None?
    && e == Entry(t, s.threads[t].op, 0, Left) && e.op.On? && e.op.call.Leave?
    && i < |s.order| && MatchAt(s.heap, s.order, i, p, e.op.id)
    && p in s.heap && s.heap[p].lock == Some(t) && g'.id == s.heap[p].game.id
    && OnGame(s.heap[p].game, e.op.call) == (g', Left) && Vacant(g')
  }

  lemma UnlinkKeepsShape(s: State, t: Tid, i: nat, p: Ptr, g': Game, e: Entry)
    requires UnlinksAt(s, t, i, p, g', e)
    ensures var s' := Removed(s, t, i, p, g', e);
      ListOk(s') && LocksOk(s') && HeapOk(s') && LogOk(s') && ThreadOk(s', t)
  {
    var s' := Removed(s, t, i, p, g', e);
    RemoveChain(s.head, s.tail, s.heap, s.order, i, p, g');
    RemoveLocks(s, t, i, p, g', s'.threads[t]);
    RemoveCells(s, t, i, p, g', s'.threads[t]);
    UnlinkLog(s, s', i, p, g', e);
    EffectHistory(s.log, t, s.threads[t], e, Unlinked(p, Left));
  }

  lemma UnlinkKeepsOthers(s: State, t: Tid, i: nat, p: Ptr, g': Game, e: Entry)
    requires UnlinksAt(s, t, i, p, g', e)
    ensures var s' := Removed(s, t, i, p, g', e);
      Mapped(s'.heap, s'.order) && forall u :: 0 <= u < |s.threads| && u != t ==> Frame(s, s', u)
  {
    var s' := Removed(s, t, i, p, g', e);
    RemoveChain(s.head, s.tail, s.heap, s.order, i, p, g');
    assert SuccessfulLeave(s'.log[|s.log|], g'.id);
    RemoveFrames(s, s', t, i, p, g', e);
  }

  lemma RemoveFrames(s: State, s': State, t: Tid, i: nat, p: Ptr, g: Game, e: Entry)
    requires ListOk(s) && LocksOk(s) && HeapOk(s) && t < |s.threads| && HoldsManager(s.threads[t])
    requires i < |s.order| && s.order[i] == p && s.heap[p].lock == Some(t) && g.id == s.heap[p].game.id
    requires s'.heap == Bypassed(s.heap, s.order, i, p, g) && s'.order == RemoveAt(s.order, i)
    requires Mapped(s'.heap, s'.order)
    requires |s'.threads| == |s.threads| && s'.threads == s.threads[t := s'.threads[t]] && s.brk == s'.brk
    requires s'.log == s.log + [e] && e.tid == t && DeletedSince(s'.log, |s.log| - 1, g.id)
    ensures forall u :: 0 <= u < |s.threads| && u != t ==> Frame(s, s', u)
  {
    forall u | 0 <= u < |s.threads| && u != t ensures Frame(s, s', u) {
      KnowsOthers(s, t, u);
      EntryGrows(s.log, e, u);
      RemoveFrame(s, s', t, i, p, g, u);
    }
  }

  lemma UnlinkLog(s: State, s': State, i: nat, p: Ptr, g': Game, e: Entry)
    requires ListOk(s) && LogOk(s) && e.op.On? && e.op.call.Leave? && e.reply == Left
    requires MatchAt(s.heap, s.order, i, p, e.op.id) && OnGame(s.heap[p].game, e.op.call) == (g', Left) && Vacant(g')
    requires s'.heap == Bypassed(s.heap, s.order, i, p, g') && s'.order == RemoveAt(s.order, i)
    requires Mapped(s'.heap, s'.order) && s'.log == s.log + [e]
    ensures LogOk(s')
  {
    FoundIndex(s.heap, s.order, i, p, e.op.id);
    RemoveGames(s.heap, s.order, i, p, g');
    Extend(s.log, e);
  }
}
