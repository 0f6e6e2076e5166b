/** What the interleaving model guarantees: every run is equivalent to an atomic one, freed
    nodes are not touched except in one place, and calls neither deadlock nor run forever. */
module ThreadResults {
  import opened TrisTypes
  import opened GameRules
  import opened ManagerSpec
  import opened RunLaws
  import opened ManagerThreads
  import opened ThreadInvariant
  import opened ThreadSteps
  import opened ThreadEffects

  // ---- the invariant holds in every run ----

  lemma ShiftStep(s: State, t: Tid)
    requires Inv(s) && Enabled(s, t) && ShiftsWell(s, t)
    ensures Inv(Next(s, t))
  {
    Shift(s, t, Next(s, t).threads[t], Next(s, t).gmLock);
  }

  lemma LockingStep(s: State, t: Tid, p: Ptr, lock: Option<Tid>)
    requires Inv(s) && Enabled(s, t) && LocksWell(s, t, p, lock)
    ensures Inv(Next(s, t))
  {
    Relock(s, t, p, lock, Next(s, t).threads[t]);
  }

  lemma CreateStepKeepsInv(s: State, t: Tid)
    requires Inv(s) && Enabled(s, t) && s.threads[t].op.Create?
    ensures Inv(Next(s, t))
  {
    Knows(s, t);
    match s.threads[t].phase
    case Drawing => KeepsDrawing(s, t);
    case Fresh(_) => FreshShifts(s, t); ShiftStep(s, t);
    case Linking(_) => KeepsLinking(s, t);
    case Linked(_) => LinkedShifts(s, t); ShiftStep(s, t);
    case Reporting(_) => ReportingShifts(s, t); ShiftStep(s, t);
  }

  lemma LookupStepKeepsInv(s: State, t: Tid)
    requires Inv(s) && Enabled(s, t) && s.threads[t].op.On?
    ensures Inv(Next(s, t))
  {
    Knows(s, t);
    match s.threads[t].phase
    case Entering => EnteringShifts(s, t); ShiftStep(s, t);
    case Searching(_, _, cur) =>
      if cur.None? { SearchMiss(s, t); } else { SearchingHitShifts(s, t); ShiftStep(s, t); }
    case Found(_, _, p) => FoundLocks(s, t); LockingStep(s, t, p, Some(t));
    case Both(_) => InsideStepKeepsInv(s, t);
    case Inside(_) => InsideStepKeepsInv(s, t);
    case Loaded(_, _) => InsideStepKeepsInv(s, t);
    case Written(_, _) => InsideStepKeepsInv(s, t);
    case _ => LeaveStepKeepsInv(s, t);
  }

  lemma InsideStepKeepsInv(s: State, t: Tid)
    requires Inv(s) && Enabled(s, t)
    requires var ph := s.threads[t].phase; ph.Both? || ph.Inside? || ph.Loaded? || ph.Written?
    ensures Inv(Next(s, t))
  {
    Knows(s, t);
    match s.threads[t].phase
    case Both(_) => BothShifts(s, t); ShiftStep(s, t);
    case Inside(_) => InsideShifts(s, t); ShiftStep(s, t);
    case Loaded(_, _) => KeepsLoaded(s, t);
    case Written(p, _) => WrittenLocks(s, t); LockingStep(s, t, p, None);
  }

  lemma LeaveStepKeepsInv(s: State, t: Tid)
    requires Inv(s) && Enabled(s, t) && s.threads[t].op.On?
    requires var ph := s.threads[t].phase;
      ph.LeaveInside? || ph.LeaveLoaded? || ph.Kept? || ph.Unlinked? || ph.Freeing? || ph.Leaving?
    ensures Inv(Next(s, t))
  {
    Knows(s, t);
    match s.threads[t].phase
    case LeaveInside(_, _, _) => LeaveInsideShifts(s, t); ShiftStep(s, t);
    case LeaveLoaded(_, _, _, g) =>
      var (g', reply) := OnGame(g, s.threads[t].op.call);
      if reply == Left && Vacant(g') { KeepsUnlinking(s, t); } else { KeepsLeaveLoaded(s, t); }
    case Kept(p, _) => KeptLocks(s, t); LockingStep(s, t, p, None);
    case Unlinked(p, _) => UnlinkedLocks(s, t); LockingStep(s, t, p, None);
    case Freeing(_, _) => KeepsFreeing(s, t);
    case Leaving(_) => LeavingShifts(s, t); ShiftStep(s, t);
  }

  lemma ScanStepKeepsInv(s: State, t: Tid)
    requires Inv(s) && Enabled(s, t) && s.threads[t].op.List?
    ensures Inv(Next(s, t))
  {
    Knows(s, t);
    match s.threads[t].phase
    case Entering => EnteringShifts(s, t); ShiftStep(s, t);
    case ScanAt(_, cur, acc) =>
      if cur.Some? && |acc| < 10 { ScanAtLocks(s, t); LockingStep(s, t, cur.value, Some(t)); }
      else { ScanEndShifts(s, t); ShiftStep(s, t); }
    case ScanLocked(_, _, _) => ScanLockedShifts(s, t); ShiftStep(s, t);
    case ScanRead(_, p, _) => ScanReadLocks(s, t); LockingStep(s, t, p, None);
    case ScanNext(_, _, _) => ScanNextShifts(s, t); ShiftStep(s, t);
    case ScanDone(_, _) => ScanEnds(s, t);
  }

  /** Every action of every thread keeps the invariant. */
  lemma ActionKeepsInv(s: State, a: Action)
    requires Inv(s) && Possible(s, a)
    ensures Inv(Do(s, a))
  {
    match a
    case Call(t, _) => Shift(s, t, Do(s, a).threads[t], s.gmLock);
    case Step(t) =>
      match s.threads[t].op {
        case Create(_, _, _) => CreateStepKeepsInv(s, t);
        case On(_, _) => LookupStepKeepsInv(s, t);
        case List => ScanStepKeepsInv(s, t);
      }
    case Return(t) => Shift(s, t, Idle, s.gmLock);
  }

  lemma {:induction false} RunKeepsInv(s: State, actions: seq<Action>)
    requires Inv(s) && Run(s, actions).Some?
    ensures Inv(Run(s, actions).value)
  {
    if actions != [] {
      var n := |actions| - 1;
      RunKeepsInv(s, actions[..n]);
      ActionKeepsInv(Run(s, actions[..n]).value, actions[n]);
    }
  }

  lemma ReachableInv(n: nat, s: State)
    requires Reachable(n, s)
    ensures Inv(s)
  {
    var actions :| Run(Start(n), actions) == Some(s);
    StartInv(n);
    RunKeepsInv(Start(n), actions);
  }

  // ---- linearizability ----

  /** In every reachable state the games in the list are those of the logged atomic run, and every
      logged reply is the atomic one. */
  lemma RunIsAtomic(n: nat, s: State)
    requires Reachable(n, s)
    ensures Mapped(s.heap, s.order) && Legal(s.log) && Replay(s.log) == Games(s.heap, s.order)
  {
    ReachableInv(n, s);
  }

  predicate NotBy(actions: seq<Action>, t: Tid) {
    forall k :: 0 <= k < |actions| ==> actions[k].t == t ==> actions[k].Step?
  }

  /** A step changes no other thread, and nothing about its own call but the phase. */
  lemma StepShape(s: State, t: Tid)
    requires Enabled(s, t)
    ensures Shaped(s, Next(s, t), t)
  {
    match s.threads[t].op
    case Create(_, _, _) => CreateShape(s, t);
    case On(_, _) => LookupShape(s, t);
    case List => ScanShape(s, t);
  }

  predicate Shaped(s: State, s': State, t: Tid)
    requires t < |s.threads| && s.threads[t].Running?
  {
    && |s'.threads| == |s.threads| && s'.threads == s.threads[t := s'.threads[t]]
    && s'.threads[t].Running? && s'.threads[t].op == s.threads[t].op && s'.threads[t].since == s.threads[t].since
    && (s'.log == s.log || (|s'.log| == |s.log| + 1 && s.log <= s'.log && s'.log[|s.log|].op == s.threads[t].op))
  }

  lemma CreateShape(s: State, t: Tid)
    requires Enabled(s, t) && s.threads[t].op.Create?
    ensures Shaped(s, Next(s, t), t)
  {
  }

  lemma LookupShape(s: State, t: Tid)
    requires Enabled(s, t) && s.threads[t].op.On?
    ensures Shaped(s, Next(s, t), t)
  {
  }

  lemma ScanShape(s: State, t: Tid)
    requires Enabled(s, t) && s.threads[t].op.List?
    ensures Shaped(s, Next(s, t), t)
  {
  }

  lemma ActionKeepsLog(s: State, a: Action, t: Tid)
    requires Possible(s, a) && t < |s.threads| && s.threads[t].Running? && (a.t == t ==> a.Step?)
    ensures var s' := Do(s, a);
      && s.log <= s'.log && |s'.threads| == |s.threads| && s'.threads[t].Running?
      && s'.threads[t].op == s.threads[t].op && s'.threads[t].since == s.threads[t].since
  {
    if a.Step? { StepShape(s, a.t); }
  }

  /** While a thread is inside a call, the call stays the same and the log only grows. */
  lemma {:induction false} CallGoesOn(s: State, actions: seq<Action>, t: Tid)
    requires Inv(s) && Run(s, actions).Some? && t < |s.threads| && s.threads[t].Running? && NotBy(actions, t)
    ensures var s' := Run(s, actions).value;
      && Inv(s') && s.log <= s'.log && |s'.threads| == |s.threads| && s'.threads[t].Running?
      && s'.threads[t].op == s.threads[t].op && s'.threads[t].since == s.threads[t].since
  {
    if actions != [] {
      var n := |actions| - 1;
      CallGoesOn(s, actions[..n], t);
      var mid := Run(s, actions[..n]).value;
      ActionKeepsLog(mid, actions[n], t);
      ActionKeepsInv(mid, actions[n]);
    }
  }

  /** Linearizability. A thread calls `op` in a reachable state and later returns. Then between
      the call and the return the call entered the log exactly once, with the reply it returns;
      and the log is an atomic run that explains every reply and the games in the list. */
  lemma Linearizable(n: nat, before: State, t: Tid, op: Op, actions: seq<Action>)
    requires Reachable(n, before) && Possible(before, Call(t, op)) && NotBy(actions, t)
    requires Run(Do(before, Call(t, op)), actions).Some?
    requires Possible(Run(Do(before, Call(t, op)), actions).value, Return(t))
    ensures var after := Run(Do(before, Call(t, op)), actions).value;
      && before.log <= after.log && Legal(after.log)
      && Mapped(after.heap, after.order) && Replay(after.log) == Games(after.heap, after.order)
      && exists k :: |before.log| <= k < |after.log| && OnlyEntry(after.log, |before.log|, k, t)
           && after.log[k].op == op && after.log[k].reply == after.threads[t].phase.reply
  {
    ReachableInv(n, before);
    ActionKeepsInv(before, Call(t, op));
    CallGoesOn(Do(before, Call(t, op)), actions, t);
    var after := Run(Do(before, Call(t, op)), actions).value;
    assert ThreadOk(after, t);
    assert OnlyEntry(after.log, |before.log|, after.threads[t].lin.value, t);
  }

  /** The lobby a scan is about to return is that of the whole list at this very moment, although
      its games were locked one at a time. */
  lemma ConsistentSnapshot(n: nat, s: State, t: Tid)
    requires Reachable(n, s) && t < |s.threads| && s.threads[t].Running? && s.threads[t].phase.ScanDone?
    ensures Mapped(s.heap, s.order) && s.threads[t].phase.acc == Lobby(Games(s.heap, s.order))
  {
    ReachableInv(n, s);
    assert ThreadOk(s, t);
    var i := s.threads[t].phase.i;
    SeenLobbyIs(s.heap, s.order, i);
    if i == |s.order| { assert Games(s.heap, s.order)[..i] == Games(s.heap, s.order); }
    else { LobbyFull(Games(s.heap, s.order), i); }
  }

  // ---- what the atomic results give for every interleaving ----

  predicate RealOp(op: Op) {
    match op
    case Create(socket, _, _) => socket != NOBODY
    case On(_, call) => RealSocket(call)
    case List => true
  }

  predicate RealCalls(actions: seq<Action>) {
    forall k :: 0 <= k < |actions| && actions[k].Call? ==> RealOp(actions[k].op)
  }

  predicate RealState(s: State) {
    && (forall t :: 0 <= t < |s.threads| && s.threads[t].Running? ==> RealOp(s.threads[t].op))
    && RealSockets(s.log)
  }

  lemma ActionKeepsReal(s: State, a: Action)
    requires RealState(s) && Possible(s, a) && (a.Call? ==> RealOp(a.op))
    ensures RealState(Do(s, a))
  {
    if a.Step? { StepShape(s, a.t); }
  }

  lemma {:induction false} RunIsReal(n: nat, actions: seq<Action>)
    requires RealCalls(actions) && Run(Start(n), actions).Some?
    ensures RealState(Run(Start(n), actions).value)
  {
    if actions != [] {
      var k := |actions| - 1;
      RunIsReal(n, actions[..k]);
      ActionKeepsReal(Run(Start(n), actions[..k]).value, actions[k]);
    }
  }

  /** In every interleaving of calls with real sockets, every listed game satisfies the game
      invariant and its board is the replay of the moves accepted since its last reset. */
  lemma EveryInterleavingIsHonest(n: nat, actions: seq<Action>)
    requires RealCalls(actions) && Run(Start(n), actions).Some?
    ensures var s := Run(Start(n), actions).value;
      Mapped(s.heap, s.order) && AllOk(Games(s.heap, s.order)) &&
      AllHonest(Games(s.heap, s.order), Histories(s.log))
  {
    var s := Run(Start(n), actions).value;
    RunIsAtomic(n, s);
    RunIsReal(n, actions);
    RunKeepsOk(s.log);
    RunIsHonest(s.log);
  }

  /** In every interleaving a move that is reported reports honestly. */
  lemma EveryInterleavingReportsHonestly(n: nat, actions: seq<Action>, k: nat)
    requires RealCalls(actions) && Run(Start(n), actions).Some?
    requires var log := Run(Start(n), actions).value.log; k < |log| && log[k].reply.Played?
    ensures var log := Run(Start(n), actions).value.log;
      log[k].op.On? &&
      var before, after := Replay(log[..k]), Replay(log[..k + 1]);
      var i := IndexOf(before, log[k].op.id);
      i < |before| == |after| && HonestReport(before[i], after[i], log[k].op.call, log[k].reply.winner)
  {
    RunIsAtomic(n, Run(Start(n), actions).value);
    RunIsReal(n, actions);
    RunReportsHonestly(Run(Start(n), actions).value.log, k);
  }

  /** In every interleaving whose joins took effect with a foreign socket, exactly the right moves
      are accepted. */
  lemma EveryInterleavingMovesRight(n: nat, actions: seq<Action>, k: nat)
    requires RealCalls(actions) && Run(Start(n), actions).Some? && Guarded(Run(Start(n), actions).value.log)
    requires var log := Run(Start(n), actions).value.log; k < |log| && log[k].op.On? && log[k].op.call.Play?
    ensures var log := Run(Start(n), actions).value.log;
      MovesRight(Replay(log[..k]), Replay(log[..k + 1]), log[k].op.id, log[k].op.call, log[k].reply)
  {
    RunIsAtomic(n, Run(Start(n), actions).value);
    RunIsReal(n, actions);
    MoveInEveryRun(Run(Start(n), actions).value.log, k);
  }

  /** In every interleaving a joined game refuses all further joins until a decision on it or the
      leave of the joiner takes effect. */
  lemma EveryInterleavingRefusesOthers(n: nat, actions: seq<Action>, k: nat, j: nat, id: u32, joiner: int)
    requires RealCalls(actions) && Run(Start(n), actions).Some?
    requires var log := Run(Start(n), actions).value.log;
      && k < j < |log| && JoinsAt(log, k, id, joiner) && Unanswered(log, k, j, id, joiner)
      && log[j].op.On? && log[j].op.id == id && log[j].op.call.Join?
    ensures var log := Run(Start(n), actions).value.log;
      log[j].reply == Failed && Replay(log[..j + 1]) == Replay(log[..j])
  {
    RunIsAtomic(n, Run(Start(n), actions).value);
    RunIsReal(n, actions);
    JoinedRefusesOthers(Run(Start(n), actions).value.log, k, j, id, joiner);
  }

  /** In every interleaving whose joins took effect with a foreign socket, seats are distinct. */
  lemma EveryInterleavingSeatsOnce(n: nat, actions: seq<Action>)
    requires RealCalls(actions) && Run(Start(n), actions).Some? && Guarded(Run(Start(n), actions).value.log)
    ensures var s := Run(Start(n), actions).value; Mapped(s.heap, s.order) && AllDistinct(Games(s.heap, s.order))
  {
    RunIsAtomic(n, Run(Start(n), actions).value);
    RunIsReal(n, actions);
    RunKeepsSeatsDistinct(Run(Start(n), actions).value.log);
  }

  /** And every leave does exactly what it should. */
  lemma EveryInterleavingLeavesRight(n: nat, actions: seq<Action>, k: nat)
    requires RealCalls(actions) && Run(Start(n), actions).Some? && Guarded(Run(Start(n), actions).value.log)
    requires var log := Run(Start(n), actions).value.log; k < |log| && log[k].op.On? && log[k].op.call.Leave?
    ensures var log := Run(Start(n), actions).value.log;
      LeavesRight(Replay(log[..k]), Replay(log[..k + 1]), log[k].reply, log[k].op.id, log[k].op.call.socket)
  {
    RunIsAtomic(n, Run(Start(n), actions).value);
    RunIsReal(n, actions);
    LeaveInEveryRun(Run(Start(n), actions).value.log, k);
  }

  /** In every interleaving without the two orphaned calls no listed game is vacant. */
  lemma EveryInterleavingIsOccupied(n: nat, actions: seq<Action>)
    requires RealCalls(actions) && Run(Start(n), actions).Some?
    requires var log := Run(Start(n), actions).value.log;
      forall k :: 0 <= k < |log| ==> !Strands(Replay(log[..k]), log[k].op)
    ensures var s := Run(Start(n), actions).value; Mapped(s.heap, s.order) && NoneVacant(Games(s.heap, s.order))
  {
    RunIsAtomic(n, Run(Start(n), actions).value);
    RunIsReal(n, actions);
    RunHasNoVacantGame(Run(Start(n), actions).value.log);
  }

  // ---- memory safety ----

  /** Addresses a phase is still going to use. */
  function Mentions(phase: Phase): set<Ptr> {
    match phase
    case Fresh(p) => {p}
    case Linking(p) => {p}
    case Linked(p) => {p}
    case Reporting(p) => {p}
    case Searching(_, prev, cur) => Address(prev) + Address(cur)
    case Found(_, prev, p) => Address(prev) + {p}
    case Both(p) => {p}
    case Inside(p) => {p}
    case Loaded(p, _) => {p}
    case Written(p, _) => {p}
    case LeaveInside(_, prev, p) => Address(prev) + {p}
    case LeaveLoaded(_, prev, p, _) => Address(prev) + {p}
    case Kept(p, _) => {p}
    case Unlinked(p, _) => {p}
    case Freeing(p, _) => {p}
    case ScanAt(_, cur, _) => Address(cur)
    case ScanLocked(_, p, _) => {p}
    case ScanRead(_, p, _) => {p}
    case ScanNext(_, p, _) => {p}
    case _ => {}
  }

  function Address(p: Option<Ptr>): set<Ptr> { if p.Some? then {p.value} else {} }

  /** A thread that keeps an address holds gm->lock, or the lock of that game, or it is still
      building the node; the one exception is a creator about to report the id. */
  lemma AddressesAreProtected(n: nat, s: State, t: Tid, p: Ptr)
    requires Reachable(n, s) && t < |s.threads| && s.threads[t].Running? && p in Mentions(s.threads[t].phase)
    ensures s.threads[t].phase.Reporting? ||
      (p in s.heap &&
       (s.gmLock == Some(t) || s.heap[p].lock == Some(t) || (s.threads[t].phase.Fresh? && p !in s.order)))
  {
    ReachableInv(n, s);
    Knows(s, t);
    ProtectedLocally(s, t, p);
  }

  lemma ProtectedLocally(s: State, t: Tid, p: Ptr)
    requires Local(s, t) && p in Mentions(s.threads[t].phase)
    requires HoldsManager(s.threads[t]) ==> s.gmLock == Some(t)
    requires Owned(s.threads[t]).Some? ==> Owned(s.threads[t]).value !in s.order
    requires HeldGame(s.threads[t]).Some? ==> s.heap[HeldGame(s.threads[t]).value].lock == Some(t)
    ensures s.threads[t].phase.Reporting? ||
      (p in s.heap &&
       (s.gmLock == Some(t) || s.heap[p].lock == Some(t) || (s.threads[t].phase.Fresh? && p !in s.order)))
  {
  }

  /** When a node is freed no other thread holds its lock, waits for it or keeps its address,
      apart from a creator about to report the id. */
  lemma FreedNodeIsForgotten(n: nat, s: State, t: Tid, u: Tid)
    requires Reachable(n, s) && t < |s.threads| && s.threads[t].Running? && s.threads[t].phase.Freeing?
    requires u < |s.threads| && u != t && s.threads[u].Running? && !s.threads[u].phase.Reporting?
    ensures s.threads[t].phase.p in s.heap && s.heap[s.threads[t].phase.p].lock.None?
    ensures s.threads[t].phase.p !in Mentions(s.threads[u].phase)
  {
    ReachableInv(n, s);
    Knows(s, t);
    KnowsOthers(s, t, u);
    assert ThreadOk(s, u);
    ForgottenLocally(s, t, u);
  }

  lemma ForgottenLocally(s: State, t: Tid, u: Tid)
    requires Others(s, t, u) && s.threads[t].Running? && s.threads[t].phase.Freeing?
    requires s.threads[t].phase.p in s.heap && s.heap[s.threads[t].phase.p].lock.None?
    requires s.threads[u].Running? && !s.threads[u].phase.Reporting?
    ensures s.threads[t].phase.p !in Mentions(s.threads[u].phase)
  {
    assert !HoldsManager(s.threads[u]);
  }

  /** The next step of the thread touches a freed or null node. */
  predicate Crashes(s: State, t: Tid)
    requires Enabled(s, t)
  {
    var s' := Next(s, t);
    t < |s'.threads| && s'.threads[t].Running? && s'.threads[t].phase.Crashed?
  }

  /** The only place of a use after free: a creator's final read of g->id, made after releasing
      gm->lock. No other step of any thread ever touches a freed or null node. */
  lemma CrashesExactly(n: nat, s: State, t: Tid)
    requires Reachable(n, s) && Enabled(s, t)
    ensures Crashes(s, t) <==>
      s.threads[t].phase.Reporting? && s.threads[t].op.wantsId && s.threads[t].phase.p !in s.heap
  {
    ReachableInv(n, s);
    Knows(s, t);
    if !s.threads[t].phase.Reporting? { NoOtherCrash(s, t); }
  }

  lemma NoOtherCrash(s: State, t: Tid)
    requires Local(s, t) && Enabled(s, t) && !s.threads[t].phase.Reporting?
    ensures !Crashes(s, t)
  {
    match s.threads[t].op
    case Create(_, _, _) => CreateSafe(s, t);
    case On(_, call) => if call.Leave? { LeaveSafe(s, t); } else { LookupSafe(s, t); }
    case List => ScanSafe(s, t);
  }

  lemma CreateSafe(s: State, t: Tid)
    requires Local(s, t) && Enabled(s, t) && s.threads[t].op.Create? && !s.threads[t].phase.Reporting?
    ensures !Crashes(s, t)
  {
  }

  lemma LookupSafe(s: State, t: Tid)
    requires Local(s, t) && Enabled(s, t) && s.threads[t].op.On? && !s.threads[t].op.call.Leave?
    ensures !Crashes(s, t)
  {
  }

  lemma LeaveSafe(s: State, t: Tid)
    requires Local(s, t) && Enabled(s, t) && s.threads[t].op.On? && s.threads[t].op.call.Leave?
    ensures !Crashes(s, t)
  {
  }

  lemma ScanSafe(s: State, t: Tid)
    requires Local(s, t) && Enabled(s, t) && s.threads[t].op.List?
    ensures !Crashes(s, t)
  {
  }

  /** The creator's node is freed only if, after the create took effect and before its return,
      some leave on the new id succeeded. A create whose game is not left meanwhile is safe. */
  lemma CrashNeedsALeave(n: nat, s: State, t: Tid)
    requires Reachable(n, s) && t < |s.threads| && s.threads[t].Running? && s.threads[t].phase.Reporting?
    requires s.threads[t].phase.p !in s.heap
    ensures s.threads[t].lin.Some? && s.threads[t].lin.value < |s.log|
    ensures DeletedSince(s.log, s.threads[t].lin.value, s.log[s.threads[t].lin.value].newId)
  {
    ReachableInv(n, s);
    assert ThreadOk(s, t);
  }

  // ---- ids ----

  /** Ids in use are distinct and below the counter. */
  predicate IdsOk(s: State) {
    && (forall p :: p in s.heap ==> s.heap[p].game.id < s.drawn)
    && (forall p, q :: p in s.heap && q in s.heap && p != q ==> s.heap[p].game.id != s.heap[q].game.id)
  }

  /** The ids of old nodes stay, and a new node gets the id that was drawn for it. */
  predicate NewIds(s: State, s': State) {
    && SameIds(s.heap, s'.heap) && s.drawn <= s'.drawn
    && forall p :: p in s'.heap && p !in s.heap ==>
         p == s.brk && s'.drawn == s.drawn + 1 && s'.heap[p].game.id == s.drawn % UINT32_LIMIT
  }

  /** How a step changes the stored ids: a draw adds one node, nothing else adds or renames. */
  lemma StepIds(s: State, t: Tid)
    requires Local(s, t) && Enabled(s, t) && s.brk !in s.heap
    ensures NewIds(s, Next(s, t))
  {
    match s.threads[t].phase
    case Loaded(p, g) => WriteIds(s, t, p, g);
    case LeaveLoaded(i, prev, p, g) => WriteLeaveIds(s, t, i, prev, p, g);
    case _ => OtherIds(s, t);
  }

  predicate SameNodes(s: State, s': State) {
    SameIds(s.heap, s'.heap) && s'.drawn == s.drawn && forall p :: p in s'.heap ==> p in s.heap
  }

  lemma WriteIds(s: State, t: Tid, p: Ptr, g: Game)
    requires t < |s.threads| && s.threads[t].Running? && s.threads[t].op.On? && p in s.heap && s.heap[p].game == g
    ensures SameNodes(s, Write(s, t, p, g))
  {
  }

  lemma WriteLeaveIds(s: State, t: Tid, i: nat, prev: Option<Ptr>, p: Ptr, g: Game)
    requires t < |s.threads| && s.threads[t].Running? && s.threads[t].op.On? && p in s.heap && s.heap[p].game == g
    ensures SameNodes(s, WriteLeave(s, t, i, prev, p, g))
  {
  }

  predicate DrawsOrKeeps(s: State, s': State) {
    SameNodes(s, s') ||
    (SameIds(s.heap, s'.heap) && s'.drawn == s.drawn + 1 &&
     forall p :: p in s'.heap && p !in s.heap ==> p == s.brk && s'.heap[p].game.id == s.drawn % UINT32_LIMIT)
  }

  lemma OtherIds(s: State, t: Tid)
    requires Enabled(s, t) && s.brk !in s.heap
    requires !s.threads[t].phase.Loaded? && !s.threads[t].phase.LeaveLoaded?
    ensures DrawsOrKeeps(s, Next(s, t))
  {
    match s.threads[t].op
    case Create(_, _, _) => CreateIds(s, t);
    case On(_, _) => LookupIds(s, t);
    case List => ScanIds(s, t);
  }

  lemma CreateIds(s: State, t: Tid)
    requires Enabled(s, t) && s.brk !in s.heap && s.threads[t].op.Create?
    ensures DrawsOrKeeps(s, Next(s, t))
  {
  }

  lemma LookupIds(s: State, t: Tid)
    requires Enabled(s, t) && s.threads[t].op.On? && !s.threads[t].phase.Loaded? && !s.threads[t].phase.LeaveLoaded?
    ensures SameNodes(s, Next(s, t))
  {
  }

  lemma ScanIds(s: State, t: Tid)
    requires Enabled(s, t) && s.threads[t].op.List?
    ensures SameNodes(s, Next(s, t))
  {
  }

  lemma ActionKeepsIds(s: State, a: Action)
    requires Inv(s) && IdsOk(s) && Possible(s, a) && Do(s, a).drawn <= UINT32_LIMIT
    ensures IdsOk(Do(s, a))
  {
    if a.Step? {
      Knows(s, a.t);
      StepIds(s, a.t);
      var s' := Do(s, a);
      assert s.drawn < UINT32_LIMIT ==> s.drawn % UINT32_LIMIT == s.drawn;
    }
  }

  lemma ActionDraws(s: State, a: Action)
    requires Possible(s, a)
    ensures s.drawn <= Do(s, a).drawn
  {
  }

  lemma {:induction false} RunKeepsIds(n: nat, actions: seq<Action>)
    requires Run(Start(n), actions).Some? && Run(Start(n), actions).value.drawn <= UINT32_LIMIT
    ensures IdsOk(Run(Start(n), actions).value)
  {
    if actions != [] {
      var k := |actions| - 1;
      var before := Run(Start(n), actions[..k]).value;
      ActionDraws(before, actions[k]);
      RunKeepsIds(n, actions[..k]);
      ReachableInv(n, before);
      ActionKeepsIds(before, actions[k]);
    }
  }

  /** In every interleaving with at most 2^32 creates, all listed and in-flight games have pairwise
      distinct ids below the counter. */
  lemma UniqueIdsInEveryRun(n: nat, actions: seq<Action>)
    requires Run(Start(n), actions).Some? && Run(Start(n), actions).value.drawn <= UINT32_LIMIT
    ensures var s := Run(Start(n), actions).value;
      && IdsOk(s) && Mapped(s.heap, s.order) && UniqueIds(Games(s.heap, s.order))
  {
    RunKeepsIds(n, actions);
    ReachableInv(n, Run(Start(n), actions).value);
  }
}
