/** Every step of every thread keeps the invariant. */
module ThreadSteps {
  import opened TrisTypes
  import opened GameRules
  import opened GameLife
  import opened ManagerSpec
  import opened ManagerThreads
  import opened ThreadInvariant

  lemma Assemble(s: State, s': State, t: Tid)
    requires Inv(s) && t < |s.threads| && |s'.threads| == |s.threads|
    requires ListOk(s') && LocksOk(s') && HeapOk(s') && LogOk(s') && ThreadOk(s', t)
    requires forall u :: 0 <= u < |s.threads| && u != t ==> Frame(s, s', u)
    ensures Inv(s')
  {
    forall u | 0 <= u < |s'.threads| ensures ThreadOk(s', u) {
      if u != t { FrameKeepsThread(s, s', u); }
    }
  }

  /** What the invariant says about one thread, without the rest. */
  predicate Local(s: State, t: Tid) {
    && t < |s.threads| && s.threads[t].Running? && ListOk(s) && ThreadOk(s, t)
    && (HeldGame(s.threads[t]).Some? ==> HeldGame(s.threads[t]).value in s.heap)
    && (Owned(s.threads[t]).Some? ==> Owned(s.threads[t]).value in s.heap && Owned(s.threads[t]).value < s.brk)
  }

  lemma Knows(s: State, t: Tid)
    requires Inv(s) && t < |s.threads| && s.threads[t].Running?
    ensures Local(s, t)
  {
    assert ThreadOk(s, t);
  }

  // ---- steps that change neither heap nor list ----

  lemma ShiftLocks(s: State, t: Tid, th: Thread, gm: Option<Tid>)
    requires LocksOk(s) && t < |s.threads| && HeldGame(th) == HeldGame(s.threads[t])
    requires HoldsManager(th) <==> gm == Some(t)
    requires gm == s.gmLock || (s.gmLock.None? && gm == Some(t)) || (s.gmLock == Some(t) && gm.None?)
    ensures LocksOk(s.(gmLock := gm, threads := s.threads[t := th]))
  {
  }

  lemma ShiftHeap(s: State, t: Tid, th: Thread, gm: Option<Tid>)
    requires HeapOk(s) && t < |s.threads| && Owned(th) == Owned(s.threads[t])
    ensures HeapOk(s.(gmLock := gm, threads := s.threads[t := th]))
  {
  }

  lemma ShiftFrame(s: State, t: Tid, th: Thread, gm: Option<Tid>, u: Tid)
    requires ListOk(s) && LocksOk(s) && HeapOk(s) && t < |s.threads| && u < |s.threads| && u != t
    ensures Frame(s, s.(gmLock := gm, threads := s.threads[t := th]), u)
  {
  }

  /** The thread moves on, possibly taking or releasing gm->lock. */
  lemma Shift(s: State, t: Tid, th: Thread, gm: Option<Tid>)
    requires Inv(s) && t < |s.threads|
    requires HeldGame(th) == HeldGame(s.threads[t]) && Owned(th) == Owned(s.threads[t])
    requires HoldsManager(th) <==> gm == Some(t)
    requires gm == s.gmLock || (s.gmLock.None? && gm == Some(t)) || (s.gmLock == Some(t) && gm.None?)
    requires ThreadOk(s.(gmLock := gm, threads := s.threads[t := th]), t)
    ensures Inv(s.(gmLock := gm, threads := s.threads[t := th]))
  {
    var s' := s.(gmLock := gm, threads := s.threads[t := th]);
    ShiftLocks(s, t, th, gm);
    ShiftHeap(s, t, th, gm);
    forall u | 0 <= u < |s.threads| && u != t ensures Frame(s, s', u) {
      ShiftFrame(s, t, th, gm, u);
    }
    Assemble(s, s', t);
  }

  /** The next step is of this kind and leaves the thread in a good phase. */
  predicate ShiftsWell(s: State, t: Tid)
    requires Enabled(s, t) && Mapped(s.heap, s.order)
  {
    var s' := Next(s, t);
    var th := s'.threads[t];
    && s' == s.(gmLock := s'.gmLock, threads := s.threads[t := th])
    && HeldGame(th) == HeldGame(s.threads[t]) && Owned(th) == Owned(s.threads[t])
    && (HoldsManager(th) <==> s'.gmLock == Some(t))
    && (s'.gmLock == s.gmLock || (s.gmLock.None? && s'.gmLock == Some(t)) || (s.gmLock == Some(t) && s'.gmLock.None?))
    && ThreadOk(s', t)
  }

  lemma InsideShifts(s: State, t: Tid)
    requires Local(s, t) && Enabled(s, t) && (HoldsManager(s.threads[t]) <==> s.gmLock == Some(t))
    requires s.threads[t].phase.Inside?
    ensures ShiftsWell(s, t)
  {
  }

  lemma LeaveInsideShifts(s: State, t: Tid)
    requires Local(s, t) && Enabled(s, t) && (HoldsManager(s.threads[t]) <==> s.gmLock == Some(t))
    requires s.threads[t].phase.LeaveInside?
    ensures ShiftsWell(s, t)
  {
  }

  lemma ReportingShifts(s: State, t: Tid)
    requires Local(s, t) && Enabled(s, t) && (HoldsManager(s.threads[t]) <==> s.gmLock == Some(t))
    requires s.threads[t].phase.Reporting?
    ensures ShiftsWell(s, t)
  {
  }

  lemma ScanNextShifts(s: State, t: Tid)
    requires Local(s, t) && Enabled(s, t) && (HoldsManager(s.threads[t]) <==> s.gmLock == Some(t))
    requires s.threads[t].phase.ScanNext?
    ensures ShiftsWell(s, t)
  {
  }

  lemma ScanLockedShifts(s: State, t: Tid)
    requires Local(s, t) && Enabled(s, t) && (HoldsManager(s.threads[t]) <==> s.gmLock == Some(t))
    requires s.threads[t].phase.ScanLocked?
    ensures ShiftsWell(s, t)
  {
  }

  lemma FreshShifts(s: State, t: Tid)
    requires Local(s, t) && Enabled(s, t) && (HoldsManager(s.threads[t]) <==> s.gmLock == Some(t))
    requires s.threads[t].phase.Fresh?
    ensures ShiftsWell(s, t)
  {
  }

  lemma EnteringShifts(s: State, t: Tid)
    requires Local(s, t) && Enabled(s, t) && (HoldsManager(s.threads[t]) <==> s.gmLock == Some(t))
    requires s.threads[t].phase.Entering?
    ensures ShiftsWell(s, t)
  {
  }

  lemma LinkedShifts(s: State, t: Tid)
    requires Local(s, t) && Enabled(s, t) && (HoldsManager(s.threads[t]) <==> s.gmLock == Some(t))
    requires s.threads[t].phase.Linked?
    ensures ShiftsWell(s, t)
  {
  }

  lemma BothShifts(s: State, t: Tid)
    requires Local(s, t) && Enabled(s, t) && (HoldsManager(s.threads[t]) <==> s.gmLock == Some(t))
    requires s.threads[t].phase.Both?
    ensures ShiftsWell(s, t)
  {
  }

  lemma LeavingShifts(s: State, t: Tid)
    requires Local(s, t) && Enabled(s, t) && (HoldsManager(s.threads[t]) <==> s.gmLock == Some(t))
    requires s.threads[t].phase.Leaving?
    ensures ShiftsWell(s, t)
  {
  }

  lemma SearchingHitShifts(s: State, t: Tid)
    requires Local(s, t) && Enabled(s, t) && (HoldsManager(s.threads[t]) <==> s.gmLock == Some(t))
    requires s.threads[t].phase.Searching? && s.threads[t].phase.cur.Some?
    ensures ShiftsWell(s, t)
  {
  }

  lemma ScanEndShifts(s: State, t: Tid)
    requires Local(s, t) && Enabled(s, t) && (HoldsManager(s.threads[t]) <==> s.gmLock == Some(t))
    requires s.threads[t].phase.ScanAt? && (s.threads[t].phase.cur.None? || |s.threads[t].phase.acc| >= 10)
    ensures ShiftsWell(s, t)
  {
  }

  // ---- taking and releasing the lock of a game ----

  lemma SameGames(heap: map<Ptr, Cell>, heap': map<Ptr, Cell>, ps: seq<Ptr>)
    requires Mapped(heap, ps) && Mapped(heap', ps)
    requires forall i :: 0 <= i < |ps| ==> heap[ps[i]].game == heap'[ps[i]].game
    ensures Games(heap, ps) == Games(heap', ps)
  {
  }

  /** The state after thread t changed the lock of p and moved on. */
  function Relocked(s: State, t: Tid, p: Ptr, lock: Option<Tid>, th: Thread): State
    requires t < |s.threads| && p in s.heap
  {
    SetLock(s, p, lock).(threads := s.threads[t := th])
  }

  /** Thread t, holding gm->lock, takes the free lock of p, or gives back the lock of p. */
  predicate LockMove(s: State, t: Tid, p: Ptr, lock: Option<Tid>, th: Thread) {
    && t < |s.threads| && p in s.heap
    && HoldsManager(th) == HoldsManager(s.threads[t])
    && (Owned(th) == Owned(s.threads[t]))
    && if lock.Some? then
         lock == Some(t) && s.heap[p].lock.None? && HoldsManager(th) && p in s.order &&
         HeldGame(s.threads[t]).None? && HeldGame(th) == Some(p)
       else HeldGame(s.threads[t]) == Some(p) && HeldGame(th).None?
  }

  lemma RelockedLocks(s: State, t: Tid, p: Ptr, lock: Option<Tid>, th: Thread)
    requires LocksOk(s) && LockMove(s, t, p, lock, th)
    ensures LocksOk(Relocked(s, t, p, lock, th))
  {
  }

  lemma RelockedHeap(s: State, t: Tid, p: Ptr, lock: Option<Tid>, th: Thread)
    requires HeapOk(s) && LockMove(s, t, p, lock, th)
    ensures HeapOk(Relocked(s, t, p, lock, th))
  {
  }

  lemma SameFirst(s: State, s': State, p: Ptr)
    requires Mapped(s.heap, s.order) && Mapped(s'.heap, s'.order) && s'.order == s.order && SameIds(s.heap, s'.heap)
    ensures StaysFirst(s, s', p)
  {
    forall id | FirstMatch(s.heap, s.order, p, id) ensures FirstMatch(s'.heap, s'.order, p, id) {
      var i :| 0 <= i < |s.order| && MatchAt(s.heap, s.order, i, p, id);
      assert MatchAt(s'.heap, s'.order, i, p, id);
    }
  }

  /** What the invariant says about two threads, one of which is about to step. */
  predicate Others(s: State, t: Tid, u: Tid) {
    && t < |s.threads| && u < |s.threads| && u != t && ListOk(s)
    && (HoldsManager(s.threads[t]) ==> !HoldsManager(s.threads[u]))
    && (HeldGame(s.threads[u]).Some? ==>
          HeldGame(s.threads[u]).value in s.heap && s.heap[HeldGame(s.threads[u]).value].lock == Some(u))
    && (Owned(s.threads[u]).Some? ==>
          Owned(s.threads[u]).value in s.heap && Owned(s.threads[u]).value !in s.order &&
          Owned(s.threads[u]).value < s.brk && Owned(s.threads[u]) != Owned(s.threads[t]))
  }

  lemma KnowsOthers(s: State, t: Tid, u: Tid)
    requires ListOk(s) && LocksOk(s) && HeapOk(s) && t < |s.threads| && u < |s.threads| && u != t
    ensures Others(s, t, u)
  {
  }

  lemma RelockedFrame(s: State, t: Tid, p: Ptr, lock: Option<Tid>, th: Thread, u: Tid)
    requires Others(s, t, u) && LockMove(s, t, p, lock, th)
    requires lock.None? ==> s.heap[p].lock == Some(t)
    ensures Frame(s, Relocked(s, t, p, lock, th), u)
  {
    if HeldGame(s.threads[u]).Some? {
      SameFirst(s, Relocked(s, t, p, lock, th), HeldGame(s.threads[u]).value);
    }
  }

  lemma RelockedList(s: State, t: Tid, p: Ptr, lock: Option<Tid>, th: Thread)
    requires ListOk(s) && LogOk(s) && t < |s.threads| && p in s.heap
    ensures ListOk(Relocked(s, t, p, lock, th)) && LogOk(Relocked(s, t, p, lock, th))
  {
    SameGames(s.heap, Relocked(s, t, p, lock, th).heap, s.order);
  }

  lemma Relock(s: State, t: Tid, p: Ptr, lock: Option<Tid>, th: Thread)
    requires Inv(s) && LockMove(s, t, p, lock, th) && ThreadOk(Relocked(s, t, p, lock, th), t)
    ensures Inv(Relocked(s, t, p, lock, th))
  {
    var s' := Relocked(s, t, p, lock, th);
    RelockedList(s, t, p, lock, th);
    RelockedLocks(s, t, p, lock, th);
    RelockedHeap(s, t, p, lock, th);
    forall u | 0 <= u < |s.threads| && u != t ensures Frame(s, s', u) {
      KnowsOthers(s, t, u);
      RelockedFrame(s, t, p, lock, th, u);
    }
    Assemble(s, s', t);
  }

  /** The next step is of this kind and leaves the thread in a good phase. */
  predicate LocksWell(s: State, t: Tid, p: Ptr, lock: Option<Tid>)
    requires Enabled(s, t) && Mapped(s.heap, s.order)
  {
    var s' := Next(s, t);
    LockMove(s, t, p, lock, s'.threads[t]) && s' == Relocked(s, t, p, lock, s'.threads[t]) && ThreadOk(s', t)
  }

  lemma MatchRelock(heap: map<Ptr, Cell>, ps: seq<Ptr>, i: nat, p: Ptr, id: u32, lock: Option<Tid>)
    requires Mapped(heap, ps) && MatchAt(heap, ps, i, p, id)
    ensures MatchAt(heap[p := heap[p].(lock := lock)], ps, i, p, id)
    ensures FirstMatch(heap[p := heap[p].(lock := lock)], ps, p, id)
  {
  }

  /** A lock move that keeps the history of the call. */
  lemma RelockedThread(s: State, t: Tid, p: Ptr, lock: Option<Tid>, phase: Phase)
    requires Local(s, t) && p in s.heap && Mapped(s.heap[p := s.heap[p].(lock := lock)], s.order)
    requires PhaseOk(s.heap[p := s.heap[p].(lock := lock)], s.order, s.threads[t].op, phase)
    requires TookEffect(phase) == TookEffect(s.threads[t].phase) && Pending(phase) == Pending(s.threads[t].phase)
    requires !phase.Linked? && !phase.Reporting? && !s.threads[t].phase.Crashed?
    ensures ThreadOk(Relocked(s, t, p, lock, s.threads[t].(phase := phase)), t)
  {
  }

  lemma FoundLocks(s: State, t: Tid)
    requires Local(s, t) && Enabled(s, t) && s.threads[t].phase.Found?
    ensures LocksWell(s, t, s.threads[t].phase.p, Some(t))
  {
    var ph := s.threads[t].phase;
    assert s.order[ph.i] in s.order;
    MatchRelock(s.heap, s.order, ph.i, ph.p, s.threads[t].op.id, Some(t));
    RelockedThread(s, t, ph.p, Some(t), AfterFound(s, t));
    FoundIs(s, t);
  }

  function AfterFound(s: State, t: Tid): Phase
    requires t < |s.threads| && s.threads[t].Running? && s.threads[t].op.On? && s.threads[t].phase.Found?
  {
    var ph := s.threads[t].phase;
    if s.threads[t].op.call.Leave? then LeaveInside(ph.i, ph.prev, ph.p) else Both(ph.p)
  }

  lemma FoundIs(s: State, t: Tid)
    requires Enabled(s, t) && s.threads[t].phase.Found? && s.threads[t].phase.p in s.heap
    ensures s.heap[s.threads[t].phase.p].lock.None?
    ensures Next(s, t) == Relocked(s, t, s.threads[t].phase.p, Some(t), s.threads[t].(phase := AfterFound(s, t)))
  {
  }

  lemma ScanAtLocks(s: State, t: Tid)
    requires Local(s, t) && Enabled(s, t) && s.threads[t].phase.ScanAt?
    requires s.threads[t].phase.cur.Some? && |s.threads[t].phase.acc| < 10
    ensures LocksWell(s, t, s.threads[t].phase.cur.value, Some(t))
  {
    var ph := s.threads[t].phase;
    var p := ph.cur.value;
    assert s.order[ph.i] in s.order;
    ScannedRelock(s.heap, s.order, ph.i, p, Some(t));
    RelockedThread(s, t, p, Some(t), ScanLocked(ph.i, p, ph.acc));
    ScanAtIs(s, t);
  }

  lemma ScanAtIs(s: State, t: Tid)
    requires Enabled(s, t) && s.threads[t].phase.ScanAt?
    requires s.threads[t].phase.cur.Some? && |s.threads[t].phase.acc| < 10 && s.threads[t].phase.cur.value in s.heap
    ensures var ph := s.threads[t].phase;
      && s.heap[ph.cur.value].lock.None?
      && var th := s.threads[t].(phase := ScanLocked(ph.i, ph.cur.value, ph.acc));
      Next(s, t) == Relocked(s, t, ph.cur.value, Some(t), th)
  {
  }

  /** Changing the lock of node i leaves what a scan has seen before it. */
  lemma ScannedRelock(heap: map<Ptr, Cell>, ps: seq<Ptr>, i: nat, p: Ptr, lock: Option<Tid>)
    requires Mapped(heap, ps) && Distinct(ps) && PtrAt(ps, i) == Some(p) && FreeUpTo(heap, ps, i)
    ensures var heap' := heap[p := heap[p].(lock := lock)];
      && FreeUpTo(heap', ps, i) && (lock.None? ==> FreeUpTo(heap', ps, i + 1))
      && SeenLobby(heap', ps, i) == SeenLobby(heap, ps, i) && SeenLobby(heap', ps, i + 1) == SeenLobby(heap, ps, i + 1)
  {
    var heap' := heap[p := heap[p].(lock := lock)];
    SeenLobbySame(heap, heap', ps, i);
  }

  lemma WrittenLocks(s: State, t: Tid)
    requires Local(s, t) && Enabled(s, t) && s.threads[t].phase.Written?
    ensures LocksWell(s, t, s.threads[t].phase.p, None)
  {
  }

  lemma KeptLocks(s: State, t: Tid)
    requires Local(s, t) && Enabled(s, t) && s.threads[t].phase.Kept?
    ensures LocksWell(s, t, s.threads[t].phase.p, None)
  {
  }

  lemma UnlinkedLocks(s: State, t: Tid)
    requires Local(s, t) && Enabled(s, t) && s.threads[t].phase.Unlinked?
    ensures LocksWell(s, t, s.threads[t].phase.p, None)
  {
  }

  lemma ScanReadLocks(s: State, t: Tid)
    requires Local(s, t) && Enabled(s, t) && s.threads[t].phase.ScanRead?
    ensures LocksWell(s, t, s.threads[t].phase.p, None)
  {
    var ph := s.threads[t].phase;
    ScannedRelock(s.heap, s.order, ph.i, ph.p, None);
    RelockedThread(s, t, ph.p, None, ScanNext(ph.i, ph.p, ph.acc));
    ScanReadIs(s, t);
  }

  lemma ScanReadIs(s: State, t: Tid)
    requires Enabled(s, t) && s.threads[t].phase.ScanRead? && s.threads[t].phase.p in s.heap
    ensures var ph := s.threads[t].phase;
      Next(s, t) == Relocked(s, t, ph.p, None, s.threads[t].(phase := ScanNext(ph.i, ph.p, ph.acc)))
  {
  }
}
