/** The invariant of the interleaving model and its preservation by every step. */
module ThreadInvariant {
  import opened TrisTypes
  import opened GameRules
  import opened GameLife
  import opened ManagerSpec
  import opened ManagerThreads

  // ---- what a phase holds ----

  predicate HoldsManager(th: Thread) {
    th.Running? &&
    match th.phase
    case Linking(_) | Linked(_) | Searching(_, _, _) | Found(_, _, _) | Both(_) => true
    case LeaveInside(_, _, _) | LeaveLoaded(_, _, _, _) | Kept(_, _) | Unlinked(_, _) | Freeing(_, _) => true
    case Leaving(_) => true
    case ScanAt(_, _, _) | ScanLocked(_, _, _) | ScanRead(_, _, _) | ScanNext(_, _, _) | ScanDone(_, _) => true
    case _ => false
  }

  /** The game whose lock the thread holds. */
  function HeldGame(th: Thread): Option<Ptr> {
    if th.Idle? then None
    else
      match th.phase
      case Both(p) => Some(p)
      case Inside(p) => Some(p)
      case Loaded(p, _) => Some(p)
      case Written(p, _) => Some(p)
      case LeaveInside(_, _, p) => Some(p)
      case LeaveLoaded(_, _, p, _) => Some(p)
      case Kept(p, _) => Some(p)
      case Unlinked(p, _) => Some(p)
      case ScanLocked(_, p, _) => Some(p)
      case ScanRead(_, p, _) => Some(p)
      case _ => None
  }

  /** A node that is in the heap but not in the list belongs to one thread. */
  function Owned(th: Thread): Option<Ptr> {
    if th.Idle? then None
    else
      match th.phase
      case Fresh(p) => Some(p)
      case Linking(p) => Some(p)
      case Unlinked(p, _) => Some(p)
      case Freeing(p, _) => Some(p)
      case _ => None
  }

  // ---- shape of the list and ownership of the locks ----

  function PtrAt(ps: seq<Ptr>, i: int): Option<Ptr> {
    if 0 <= i < |ps| then Some(ps[i]) else None
  }

  predicate Mapped(heap: map<Ptr, Cell>, ps: seq<Ptr>) {
    forall i :: 0 <= i < |ps| ==> ps[i] in heap
  }

  /** head, tail and next pointers represent exactly the sequence, which has no repeats. */
  predicate Chain(head: Option<Ptr>, tail: Option<Ptr>, heap: map<Ptr, Cell>, ps: seq<Ptr>) {
    && Distinct(ps)
    && Mapped(heap, ps)
    && head == PtrAt(ps, 0)
    && tail == PtrAt(ps, |ps| - 1)
    && forall i {:trigger heap[ps[i]]} :: 0 <= i < |ps| ==> heap[ps[i]].next == PtrAt(ps, i + 1)
  }

  predicate ListOk(s: State) { Chain(s.head, s.tail, s.heap, s.order) }

  /** A lock is held by a thread exactly when the thread is in a phase that holds it. */
  predicate Locks(gmLock: Option<Tid>, heap: map<Ptr, Cell>, threads: seq<Thread>) {
    && (forall t :: 0 <= t < |threads| ==> (HoldsManager(threads[t]) <==> gmLock == Some(t)))
    && (gmLock.Some? ==> gmLock.value < |threads|)
    && (forall t :: 0 <= t < |threads| && HeldGame(threads[t]).Some? ==>
          HeldGame(threads[t]).value in heap && heap[HeldGame(threads[t]).value].lock == Some(t))
    && (forall p :: p in heap && heap[p].lock.Some? ==>
          heap[p].lock.value < |threads| && HeldGame(threads[heap[p].lock.value]) == Some(p))
  }

  predicate LocksOk(s: State) { Locks(s.gmLock, s.heap, s.threads) }

  /** Addresses stay below the allocation mark; a node under construction or about to be freed
      is out of the list and has one owner. */
  predicate Cells(heap: map<Ptr, Cell>, ps: seq<Ptr>, brk: Ptr, threads: seq<Thread>) {
    && (forall p :: p in heap ==> p < brk)
    && (forall t :: 0 <= t < |threads| && Owned(threads[t]).Some? ==>
          Owned(threads[t]).value in heap && Owned(threads[t]).value !in ps)
    && (forall t, u :: 0 <= t < |threads| && 0 <= u < |threads| && t != u && Owned(threads[t]).Some? ==>
          Owned(threads[t]) != Owned(threads[u]))
  }

  predicate HeapOk(s: State) { Cells(s.heap, s.order, s.brk, s.threads) }

  /** The games stored at a series of addresses. */
  function Games(heap: map<Ptr, Cell>, ps: seq<Ptr>): (games: seq<Game>)
    requires Mapped(heap, ps)
    ensures |games| == |ps| && forall i :: 0 <= i < |ps| ==> games[i] == heap[ps[i]].game
  {
    seq(|ps|, i requires 0 <= i < |ps| => heap[ps[i]].game)
  }

  // ---- what a thread knows in each phase ----

  /** No node among the first n of the list has the id. */
  predicate NoneBefore(heap: map<Ptr, Cell>, ps: seq<Ptr>, n: int, id: u32)
    requires Mapped(heap, ps) && n <= |ps|
  {
    forall k :: 0 <= k < n ==> heap[ps[k]].game.id != id
  }

  /** p is the node at position i and the first of the list with the id. */
  predicate MatchAt(heap: map<Ptr, Cell>, ps: seq<Ptr>, i: nat, p: Ptr, id: u32)
    requires Mapped(heap, ps)
  {
    i < |ps| && ps[i] == p && heap[p].game.id == id && NoneBefore(heap, ps, i, id)
  }

  predicate FirstMatch(heap: map<Ptr, Cell>, ps: seq<Ptr>, p: Ptr, id: u32)
    requires Mapped(heap, ps)
  {
    exists i :: 0 <= i < |ps| && MatchAt(heap, ps, i, p, id)
  }

  predicate FreeUpTo(heap: map<Ptr, Cell>, ps: seq<Ptr>, i: nat)
    requires Mapped(heap, ps) && i <= |ps|
  {
    forall k :: 0 <= k < i ==> heap[ps[k]].lock.None?
  }

  /** What the lobby scan has collected after the first i nodes. */
  function SeenLobby(heap: map<Ptr, Cell>, ps: seq<Ptr>, i: nat): seq<Snapshot>
    requires Mapped(heap, ps) && i <= |ps|
  {
    if i == 0 then []
    else
      var r := SeenLobby(heap, ps, i - 1);
      var g := heap[ps[i - 1]].game;
      if |r| < 10 && Joinable(g) then r + [SnapshotOf(g)] else r
  }

  lemma {:induction false} SeenLobbyIs(heap: map<Ptr, Cell>, ps: seq<Ptr>, i: nat)
    requires Mapped(heap, ps) && i <= |ps|
    ensures SeenLobby(heap, ps, i) == Lobby(Games(heap, ps)[..i])
  {
    if i > 0 {
      SeenLobbyIs(heap, ps, i - 1);
      assert Games(heap, ps)[..i][..i - 1] == Games(heap, ps)[..i - 1];
    }
  }

  lemma {:induction false} SeenLobbySame(heap: map<Ptr, Cell>, heap': map<Ptr, Cell>, ps: seq<Ptr>, i: nat)
    requires Mapped(heap, ps) && Mapped(heap', ps) && i <= |ps|
    requires forall k :: 0 <= k < i ==> heap[ps[k]].game == heap'[ps[k]].game
    ensures SeenLobby(heap, ps, i) == SeenLobby(heap', ps, i)
  {
    if i > 0 { SeenLobbySame(heap, heap', ps, i - 1); }
  }

  /** The scan has seen exactly the first i nodes, and none of them is locked. */
  predicate Scanned(heap: map<Ptr, Cell>, ps: seq<Ptr>, i: nat, acc: seq<Snapshot>)
    requires Mapped(heap, ps)
  {
    i <= |ps| && FreeUpTo(heap, ps, i) && acc == SeenLobby(heap, ps, i)
  }

  predicate NewNode(heap: map<Ptr, Cell>, op: Op, p: Ptr) {
    op.Create? && p in heap &&
    heap[p] == Cell(NewGame(heap[p].game.id, op.socket, op.owner), None, None)
  }

  /** What a thread in the middle of a call knows about the list. */
  predicate PhaseOk(heap: map<Ptr, Cell>, ps: seq<Ptr>, op: Op, phase: Phase)
    requires Mapped(heap, ps)
  {
    Fits(op, phase) &&
    match phase
    case Fresh(p) => NewNode(heap, op, p)
    case Linking(p) => NewNode(heap, op, p)
    case Searching(i, prev, cur) =>
      i <= |ps| && cur == PtrAt(ps, i) && prev == PtrAt(ps, i - 1) && NoneBefore(heap, ps, i, op.id)
    case Found(i, prev, p) => prev == PtrAt(ps, i - 1) && MatchAt(heap, ps, i, p, op.id)
    case Both(p) => FirstMatch(heap, ps, p, op.id)
    case Inside(p) => FirstMatch(heap, ps, p, op.id)
    case Loaded(p, g) => FirstMatch(heap, ps, p, op.id) && heap[p].game == g
    case Written(p, _) => p in ps
    case LeaveInside(i, prev, p) => prev == PtrAt(ps, i - 1) && MatchAt(heap, ps, i, p, op.id)
    case LeaveLoaded(i, prev, p, g) =>
      prev == PtrAt(ps, i - 1) && MatchAt(heap, ps, i, p, op.id) && heap[p].game == g
    case Kept(p, _) => p in ps
    case Freeing(p, _) => p in heap && heap[p].lock.None?
    case ScanAt(i, cur, acc) => Scanned(heap, ps, i, acc) && cur == PtrAt(ps, i)
    case ScanLocked(i, p, acc) => Scanned(heap, ps, i, acc) && PtrAt(ps, i) == Some(p) && |acc| < 10
    case ScanRead(i, p, acc) =>
      PtrAt(ps, i) == Some(p) && FreeUpTo(heap, ps, i) && acc == SeenLobby(heap, ps, i + 1)
    case ScanNext(i, p, acc) => PtrAt(ps, i) == Some(p) && Scanned(heap, ps, i + 1, acc)
    case ScanDone(i, acc) => Scanned(heap, ps, i, acc) && (i == |ps| || |acc| >= 10)
    case _ => true
  }

  // ---- history: when each call took effect ----

  predicate TookEffect(phase: Phase) {
    match phase
    case Linked(_) | Reporting(_) | Written(_, _) | Kept(_, _) | Unlinked(_, _) | Freeing(_, _) => true
    case Leaving(_) | Done(_) => true
    case _ => false
  }

  function Pending(phase: Phase): Option<Reply> {
    match phase
    case Written(_, reply) => Some(reply)
    case Kept(_, reply) => Some(reply)
    case Unlinked(_, reply) => Some(reply)
    case Freeing(_, reply) => Some(reply)
    case Leaving(reply) => Some(reply)
    case Done(reply) => Some(reply)
    case _ => None
  }

  predicate SilentSince(log: seq<Entry>, from: nat, t: Tid) {
    forall k :: from <= k < |log| ==> log[k].tid != t
  }

  /** Entry k is the only one of thread t since the call began. */
  predicate OnlyEntry(log: seq<Entry>, from: nat, k: nat, t: Tid) {
    && from <= k < |log| && log[k].tid == t
    && forall j :: from <= j < |log| && j != k ==> log[j].tid != t
  }

  /** The call has exactly one entry in the log since it began if it took effect, none otherwise;
      the entry carries its operation and the reply it is about to return. */
  predicate HistoryOk(log: seq<Entry>, t: Tid, th: Thread)
    requires th.Running?
  {
    && th.since <= |log|
    && (th.lin.None? ==> !TookEffect(th.phase) && SilentSince(log, th.since, t))
    && (th.lin.Some? ==>
          && (TookEffect(th.phase) || th.phase.Crashed?)
          && OnlyEntry(log, th.since, th.lin.value, t)
          && log[th.lin.value].op == th.op
          && (Pending(th.phase).Some? ==> Pending(th.phase).value == log[th.lin.value].reply))
  }

  /** Some later leave succeeded on the id. */
  predicate DeletedSince(log: seq<Entry>, from: int, id: u32) {
    exists k :: from < k < |log| && 0 <= k && SuccessfulLeave(log[k], id)
  }

  predicate SuccessfulLeave(e: Entry, id: u32) {
    e.op.On? && e.op.id == id && e.op.call.Leave? && e.reply == Left
  }

  /** A creator between linking its node and reading the id back: while the node is in the heap
      it carries the logged id; it is out of the list only because of a later leave. */
  predicate CreatorKnows(heap: map<Ptr, Cell>, ps: seq<Ptr>, log: seq<Entry>, th: Thread, p: Ptr)
    requires th.Running?
  {
    && th.op.Create? && th.lin.Some? && th.lin.value < |log|
    && var e := log[th.lin.value];
       && e.reply == Created(if th.op.wantsId then Some(e.newId) else None)
       && (p in heap ==> heap[p].game.id == e.newId)
       && (p in ps || DeletedSince(log, th.lin.value, e.newId))
  }

  predicate CreatorOk(heap: map<Ptr, Cell>, ps: seq<Ptr>, brk: Ptr, log: seq<Entry>, th: Thread)
    requires th.Running?
  {
    match th.phase
    case Linked(p) => p in ps && p < brk && CreatorKnows(heap, ps, log, th, p)
    case Reporting(p) => p < brk && CreatorKnows(heap, ps, log, th, p)
    case _ => true
  }

  predicate LogOk(s: State)
    requires Mapped(s.heap, s.order)
  {
    Legal(s.log) && Replay(s.log) == Games(s.heap, s.order)
  }

  predicate ThreadOk(s: State, t: Tid)
    requires t < |s.threads| && Mapped(s.heap, s.order)
  {
    var th := s.threads[t];
    th.Running? ==>
      && PhaseOk(s.heap, s.order, th.op, th.phase)
      && HistoryOk(s.log, t, th)
      && CreatorOk(s.heap, s.order, s.brk, s.log, th)
  }

  predicate Inv(s: State) {
    && ListOk(s) && LocksOk(s) && HeapOk(s) && LogOk(s)
    && forall t :: 0 <= t < |s.threads| ==> ThreadOk(s, t)
  }

  lemma StartInv(n: nat)
    ensures Inv(Start(n))
  {
  }

  // ---- frame: what a step of one thread leaves alone for another ----

  predicate SameIds(heap: map<Ptr, Cell>, heap': map<Ptr, Cell>) {
    forall p :: p in heap && p in heap' ==> heap'[p].game.id == heap[p].game.id
  }

  /** Unlocked nodes of the list stay unlocked and keep their game. */
  predicate FreeStay(heap: map<Ptr, Cell>, heap': map<Ptr, Cell>, ps: seq<Ptr>)
    requires Mapped(heap, ps) && Mapped(heap', ps)
  {
    forall k :: 0 <= k < |ps| && heap[ps[k]].lock.None? ==>
      heap'[ps[k]].lock.None? && heap'[ps[k]].game == heap[ps[k]].game
  }

  /** A node stays in the list and stays the first with its id. */
  ghost predicate StaysFirst(s: State, s': State, p: Ptr)
    requires Mapped(s.heap, s.order) && Mapped(s'.heap, s'.order)
  {
    && (p in s.order ==> p in s'.order)
    && forall id :: FirstMatch(s.heap, s.order, p, id) ==> FirstMatch(s'.heap, s'.order, p, id)
  }

  /** The log grows by entries of other threads only. */
  predicate LogGrows(log: seq<Entry>, log': seq<Entry>, u: Tid) {
    log <= log' && forall k :: |log| <= k < |log'| ==> log'[k].tid != u
  }

  predicate Removals(s: State, s': State)
    requires Mapped(s.heap, s.order)
  {
    forall p :: p in s.order && p !in s'.order ==> p in s.heap && DeletedSince(s'.log, |s.log| - 1, s.heap[p].game.id)
  }

  /** What a step leaves untouched from the point of view of thread u. */
  ghost predicate Frame(s: State, s': State, u: Tid)
    requires u < |s.threads| && Mapped(s.heap, s.order) && Mapped(s'.heap, s'.order)
  {
    var th := s.threads[u];
    && |s'.threads| == |s.threads| && s'.threads[u] == th
    && LogGrows(s.log, s'.log, u)
    && s.brk <= s'.brk
    && SameIds(s.heap, s'.heap)
    && (forall p :: p !in s.heap && p in s'.heap ==> s.brk <= p)
    && (HoldsManager(th) ==> s'.order == s.order && FreeStay(s.heap, s'.heap, s.order))
    && (HeldGame(th).Some? ==>
          var p := HeldGame(th).value;
          p in s.heap && p in s'.heap && s'.heap[p].game == s.heap[p].game && StaysFirst(s, s', p))
    && (Owned(th).Some? ==>
          var p := Owned(th).value;
          p in s.heap && p in s'.heap && (s.heap[p].lock.None? ==> s'.heap[p] == s.heap[p]))
    && Removals(s, s')
  }

  lemma FrameKeepsPhase(s: State, s': State, u: Tid)
    requires u < |s.threads| && Mapped(s.heap, s.order) && Mapped(s'.heap, s'.order) && Frame(s, s', u)
    requires s.threads[u].Running? && PhaseOk(s.heap, s.order, s.threads[u].op, s.threads[u].phase)
    ensures PhaseOk(s'.heap, s'.order, s.threads[u].op, s.threads[u].phase)
  {
    if HoldsManager(s.threads[u]) && !s.threads[u].op.Create? {
      ManagerFrame(s.heap, s'.heap, s.order, s.threads[u].op, s.threads[u].phase);
    }
  }

  /** The holder of gm->lock sees the same list, and the same games except one locked by another. */
  lemma ManagerFrame(heap: map<Ptr, Cell>, heap': map<Ptr, Cell>, ps: seq<Ptr>, op: Op, phase: Phase)
    requires Mapped(heap, ps) && Mapped(heap', ps) && PhaseOk(heap, ps, op, phase)
    requires SameIds(heap, heap') && FreeStay(heap, heap', ps)
    requires HoldsManager(Running(op, 0, None, phase)) && !op.Create?
    requires var held := HeldGame(Running(op, 0, None, phase));
      held.Some? ==> held.value in heap && held.value in heap' && heap'[held.value].game == heap[held.value].game
    requires var own := Owned(Running(op, 0, None, phase));
      own.Some? ==>
        own.value in heap && own.value in heap' && (heap[own.value].lock.None? ==> heap'[own.value] == heap[own.value])
    ensures PhaseOk(heap', ps, op, phase)
  {
    match phase
    case Searching(i, prev, cur) => NoneBeforeFrame(heap, heap', ps, i, op.id);
    case Found(i, prev, p) => NoneBeforeFrame(heap, heap', ps, i, op.id);
    case LeaveInside(i, prev, p) => NoneBeforeFrame(heap, heap', ps, i, op.id);
    case LeaveLoaded(i, prev, p, g) => NoneBeforeFrame(heap, heap', ps, i, op.id);
    case Both(p) => FirstFrame(heap, heap', ps, p, op.id);
    case ScanAt(i, cur, acc) => ScannedFrame(heap, heap', ps, i);
    case ScanLocked(i, p, acc) => ScannedFrame(heap, heap', ps, i);
    case ScanRead(i, p, acc) => ScannedFrame(heap, heap', ps, i);
    case ScanNext(i, p, acc) => ScannedFrame(heap, heap', ps, i + 1);
    case ScanDone(i, acc) => ScannedFrame(heap, heap', ps, i);
    case _ =>
  }

  lemma FirstFrame(heap: map<Ptr, Cell>, heap': map<Ptr, Cell>, ps: seq<Ptr>, p: Ptr, id: u32)
    requires Mapped(heap, ps) && Mapped(heap', ps) && SameIds(heap, heap') && FirstMatch(heap, ps, p, id)
    ensures FirstMatch(heap', ps, p, id)
  {
    var i :| 0 <= i < |ps| && MatchAt(heap, ps, i, p, id);
    NoneBeforeFrame(heap, heap', ps, i, id);
    assert MatchAt(heap', ps, i, p, id);
  }

  lemma NoneBeforeFrame(heap: map<Ptr, Cell>, heap': map<Ptr, Cell>, ps: seq<Ptr>, i: int, id: u32)
    requires Mapped(heap, ps) && Mapped(heap', ps) && i <= |ps| && SameIds(heap, heap')
    ensures NoneBefore(heap, ps, i, id) ==> NoneBefore(heap', ps, i, id)
  {
  }

  lemma ScannedFrame(heap: map<Ptr, Cell>, heap': map<Ptr, Cell>, ps: seq<Ptr>, i: nat)
    requires Mapped(heap, ps) && Mapped(heap', ps) && i <= |ps| && FreeUpTo(heap, ps, i) && FreeStay(heap, heap', ps)
    ensures FreeUpTo(heap', ps, i) && SeenLobby(heap, ps, i) == SeenLobby(heap', ps, i)
  {
    SeenLobbySame(heap, heap', ps, i);
  }

  lemma FrameKeepsHistory(s: State, s': State, u: Tid)
    requires u < |s.threads| && s.threads[u].Running? && LogGrows(s.log, s'.log, u)
    requires HistoryOk(s.log, u, s.threads[u])
    ensures HistoryOk(s'.log, u, s.threads[u])
  {
  }

  lemma FrameKeepsCreator(s: State, s': State, u: Tid)
    requires u < |s.threads| && Mapped(s.heap, s.order) && Mapped(s'.heap, s'.order) && Frame(s, s', u)
    requires s.threads[u].Running? && CreatorOk(s.heap, s.order, s.brk, s.log, s.threads[u])
    ensures CreatorOk(s'.heap, s'.order, s'.brk, s'.log, s.threads[u])
  {
    var th := s.threads[u];
    if th.phase.Linked? || th.phase.Reporting? {
      var from := th.lin.value;
      var id := s.log[from].newId;
      if DeletedSince(s.log, from, id) {
        var k :| from < k < |s.log| && 0 <= k && SuccessfulLeave(s.log[k], id);
        assert SuccessfulLeave(s'.log[k], id);
      } else if th.phase.p !in s'.order {
        var k :| |s.log| - 1 < k < |s'.log| && 0 <= k && SuccessfulLeave(s'.log[k], id);
      }
    }
  }

  lemma FrameKeepsThread(s: State, s': State, u: Tid)
    requires u < |s.threads| && Mapped(s.heap, s.order) && Mapped(s'.heap, s'.order) && Frame(s, s', u)
    requires ThreadOk(s, u)
    ensures ThreadOk(s', u)
  {
    if s.threads[u].Running? {
      FrameKeepsPhase(s, s', u);
      FrameKeepsHistory(s, s', u);
      FrameKeepsCreator(s, s', u);
    }
  }
}
