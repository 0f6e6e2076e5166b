/** Manager calls neither deadlock nor run forever. */
module ThreadProgress {
  import opened TrisTypes
  import opened GameLife
  import opened ManagerSpec
  import opened ManagerThreads
  import opened ThreadInvariant
  import opened ThreadSteps
  import opened ThreadResults

  // ---- deadlock freedom ----

  /** gm->lock is taken before a game's lock, at most one game lock is held, and a thread that
      waits for a game's lock holds gm->lock only: the order that rules out circular waiting. */
  lemma LockOrder(n: nat, s: State, t: Tid)
    requires Reachable(n, s) && Active(s, t) && !Enabled(s, t)
    ensures HeldGame(s.threads[t]).None?
    ensures s.gmLock.Some? &&
      (s.gmLock == Some(t) <==> s.threads[t].phase.Found? || s.threads[t].phase.ScanAt?)
  {
    ReachableInv(n, s);
  }

  /** A thread that holds a game's lock is never blocked. */
  lemma GameHolderRuns(s: State, t: Tid)
    requires t < |s.threads| && HeldGame(s.threads[t]).Some? && Mapped(s.heap, s.order) && ThreadOk(s, t)
    ensures Enabled(s, t)
  {
  }

  /** With gm->lock free every thread inside a call can step. */
  lemma FreeManagerRuns(s: State, t: Tid)
    requires LocksOk(s) && s.gmLock.None? && Active(s, t)
    ensures Enabled(s, t)
  {
    assert !HoldsManager(s.threads[t]);
  }

  /** The holder of gm->lock waits only for a game, whose lock another thread holds. */
  lemma HolderWaitsFor(s: State, h: Tid) returns (v: Tid)
    requires ListOk(s) && LocksOk(s) && h < |s.threads| && HoldsManager(s.threads[h]) && ThreadOk(s, h)
    requires !Enabled(s, h)
    ensures v < |s.threads| && HeldGame(s.threads[v]).Some?
  {
    assert s.threads[h].phase.Found? || s.threads[h].phase.ScanAt?;
    var p := if s.threads[h].phase.Found? then s.threads[h].phase.p else s.threads[h].phase.cur.value;
    v := s.heap[p].lock.value;
  }

  /** In every reachable state with an unfinished call some thread can step. */
  lemma NoDeadlock(n: nat, s: State, t: Tid)
    requires Reachable(n, s) && Active(s, t)
    ensures exists u :: Enabled(s, u)
  {
    ReachableInv(n, s);
    if s.gmLock.None? {
      FreeManagerRuns(s, t);
    } else {
      var h := s.gmLock.value;
      assert HoldsManager(s.threads[h]) && ThreadOk(s, h);
      if !Enabled(s, h) {
        var v := HolderWaitsFor(s, h);
        assert ThreadOk(s, v);
        GameHolderRuns(s, v);
      }
    }
  }

  // ---- termination ----

  /** The call will still append a node to the list. */
  predicate Builds(th: Thread) {
    th.Running? && (th.phase.Drawing? || th.phase.Fresh? || th.phase.Linking?)
  }

  function Builders(threads: seq<Thread>): nat {
    if threads == [] then 0
    else
      var n := |threads| - 1;
      Builders(threads[..n]) + One(Builds(threads[n]))
  }

  /** The longest the list can become without further calls. */
  function Bound(s: State): nat { |s.order| + Builders(s.threads) }

  /** An upper bound on the steps a call still takes while the list has at most b nodes. */
  function Steps(th: Thread, b: nat): int {
    if th.Idle? then 0
    else
      match th.phase
      case Drawing => 5
      case Fresh(_) => 4
      case Linking(_) => 3
      case Linked(_) => 2
      case Reporting(_) => 1
      case Entering => 4 * b + 8
      case Searching(i, _, _) => b - i + 7
      case Found(_, _, _) => 6
      case Both(_) => 4
      case Inside(_) => 3
      case Loaded(_, _) => 2
      case Written(_, _) => 1
      case LeaveInside(_, _, _) => 5
      case LeaveLoaded(_, _, _, _) => 4
      case Kept(_, _) => 2
      case Unlinked(_, _) => 3
      case Freeing(_, _) => 2
      case Leaving(_) => 1
      case ScanAt(i, _, _) => 4 * (b - i) + 3
      case ScanLocked(i, _, _) => 4 * (b - i) + 2
      case ScanRead(i, _, _) => 4 * (b - i) + 1
      case ScanNext(i, _, _) => 4 * (b - i)
      case ScanDone(_, _) => 1
      case Done(_) => 0
      case Crashed => 0
  }

  function Total(threads: seq<Thread>, b: nat): int {
    if threads == [] then 0
    else
      var n := |threads| - 1;
      Total(threads[..n], b) + Steps(threads[n], b)
  }

  function Work(s: State): int { Total(s.threads, Bound(s)) }

  lemma {:induction false} TotalUpdate(threads: seq<Thread>, t: Tid, th: Thread, b: nat)
    requires t < |threads|
    ensures Total(threads[t := th], b) == Total(threads, b) - Steps(threads[t], b) + Steps(th, b)
    ensures Builders(threads[t := th]) == Builders(threads) - One(Builds(threads[t])) + One(Builds(th))
  {
    var n := |threads| - 1;
    if t < n {
      assert threads[t := th][..n] == threads[..n][t := th];
      TotalUpdate(threads[..n], t, th, b);
    } else {
      assert threads[t := th][..n] == threads[..n];
    }
  }

  lemma {:induction false} TotalMono(threads: seq<Thread>, a: nat, b: nat)
    requires a <= b
    ensures Total(threads, a) <= Total(threads, b)
  {
    if threads != [] { TotalMono(threads[..|threads| - 1], a, b); }
  }

  lemma {:induction false} TotalNatural(threads: seq<Thread>, b: nat)
    requires forall t :: 0 <= t < |threads| ==> Steps(threads[t], b) >= 0
    ensures Total(threads, b) >= 0
  {
    if threads != [] { TotalNatural(threads[..|threads| - 1], b); }
  }

  lemma WorkNatural(s: State)
    requires Inv(s)
    ensures Work(s) >= 0
  {
    forall t | 0 <= t < |s.threads| ensures Steps(s.threads[t], Bound(s)) >= 0 {
      assert ThreadOk(s, t);
    }
    TotalNatural(s.threads, Bound(s));
  }

  /** What a step does to the length of the list and to the stepping thread. */
  predicate Shrinks(s: State, s': State, t: Tid, b: nat)
    requires t < |s.threads| && t < |s'.threads|
  {
    && |s'.order| + One(Builds(s'.threads[t])) <= |s.order| + One(Builds(s.threads[t]))
    && Steps(s'.threads[t], b) < Steps(s.threads[t], b)
  }

  lemma StepShrinks(s: State, t: Tid, b: nat)
    requires Local(s, t) && Enabled(s, t) && |s.order| <= b
    ensures t < |Next(s, t).threads| && Shrinks(s, Next(s, t), t, b)
  {
    match s.threads[t].op
    case Create(_, _, _) => CreateShrinks(s, t, b);
    case On(_, _) =>
      var ph := s.threads[t].phase;
      if ph.LeaveLoaded? { LeaveShrinks(s, t, b); }
      else if ph.Loaded? { WriteShrinks(s, t, b); }
      else if ph.Entering? || ph.Searching? || ph.Found? { SearchShrinks(s, t, b); }
      else if ph.Both? || ph.Inside? || ph.Written? { InsideShrinks(s, t, b); }
      else { LeavingShrinks(s, t, b); }
    case List =>
      var ph := s.threads[t].phase;
      if ph.Entering? || ph.ScanAt? || ph.ScanDone? { ScanShrinks(s, t, b); } else { ScanInsideShrinks(s, t, b); }
  }

  lemma CreateShrinks(s: State, t: Tid, b: nat)
    requires Enabled(s, t) && s.threads[t].op.Create?
    ensures t < |Next(s, t).threads| && Shrinks(s, Next(s, t), t, b)
  {
    var ph := Next(s, t).threads[t].phase;
    match s.threads[t].phase
    case Drawing => assert ph == Fresh(s.brk);
    case Fresh(p) => assert ph == Linking(p);
    case Linking(p) => assert ph.Crashed? || ph.Linked?;
    case Linked(p) => assert ph == Reporting(p);
    case Reporting(_) => assert ph.Done? || ph.Crashed?;
  }

  lemma SearchShrinks(s: State, t: Tid, b: nat)
    requires Enabled(s, t) && s.threads[t].op.On?
    requires var ph := s.threads[t].phase; ph.Entering? || (ph.Searching? && ph.i <= b) || ph.Found?
    ensures t < |Next(s, t).threads| && Shrinks(s, Next(s, t), t, b)
  {
  }

  lemma InsideShrinks(s: State, t: Tid, b: nat)
    requires Enabled(s, t)
    requires var ph := s.threads[t].phase; ph.Both? || ph.Inside? || ph.Written?
    ensures t < |Next(s, t).threads| && Shrinks(s, Next(s, t), t, b)
  {
    var ph := Next(s, t).threads[t].phase;
    match s.threads[t].phase
    case Both(p) => assert ph == Inside(p);
    case Inside(p) => assert ph.Crashed? || ph.Loaded?;
    case Written(_, reply) => assert ph.Crashed? || ph.Done?;
  }

  lemma LeavingShrinks(s: State, t: Tid, b: nat)
    requires Enabled(s, t)
    requires var ph := s.threads[t].phase; ph.LeaveInside? || ph.Kept? || ph.Unlinked? || ph.Freeing? || ph.Leaving?
    ensures t < |Next(s, t).threads| && Shrinks(s, Next(s, t), t, b)
  {
    var ph := Next(s, t).threads[t].phase;
    match s.threads[t].phase
    case LeaveInside(i, prev, p) => assert ph.Crashed? || ph.LeaveLoaded?;
    case Kept(_, reply) => assert ph.Crashed? || ph.Leaving?;
    case Unlinked(p, reply) => assert ph.Crashed? || ph.Freeing?;
    case Freeing(_, reply) => assert ph.Crashed? || ph.Leaving?;
    case Leaving(reply) => assert ph == Done(reply);
  }

  lemma WriteShrinks(s: State, t: Tid, b: nat)
    requires Enabled(s, t) && s.threads[t].phase.Loaded?
    ensures t < |Next(s, t).threads| && Shrinks(s, Next(s, t), t, b)
  {
  }

  lemma LeaveShrinks(s: State, t: Tid, b: nat)
    requires Enabled(s, t) && s.threads[t].phase.LeaveLoaded?
    ensures t < |Next(s, t).threads| && Shrinks(s, Next(s, t), t, b)
  {
    var ph := Next(s, t).threads[t].phase;
    assert ph.Crashed? || ph.Kept? || ph.Unlinked?;
  }

  lemma ScanShrinks(s: State, t: Tid, b: nat)
    requires Enabled(s, t) && s.threads[t].op.List?
    requires var ph := s.threads[t].phase; ph.Entering? || (ph.ScanAt? && ph.i <= b) || ph.ScanDone?
    ensures t < |Next(s, t).threads| && Shrinks(s, Next(s, t), t, b)
  {
    var ph := Next(s, t).threads[t].phase;
    match s.threads[t].phase
    case Entering => assert ph == ScanAt(0, s.head, []);
    case ScanAt(i, cur, acc) =>
      assert if cur.Some? && |acc| < 10 then ph.Crashed? || (ph.ScanLocked? && ph.i == i) else ph.ScanDone?;
    case ScanDone(_, acc) => assert ph.Done?;
  }

  lemma ScanInsideShrinks(s: State, t: Tid, b: nat)
    requires Enabled(s, t)
    requires var ph := s.threads[t].phase; (ph.ScanLocked? || ph.ScanRead? || ph.ScanNext?) && ph.i < b
    ensures t < |Next(s, t).threads| && Shrinks(s, Next(s, t), t, b)
  {
    var ph := Next(s, t).threads[t].phase;
    match s.threads[t].phase
    case ScanLocked(i, p, _) => assert ph.Crashed? || (ph.ScanRead? && ph.i == i);
    case ScanRead(i, p, acc) => assert ph.Crashed? || ph == ScanNext(i, p, acc);
    case ScanNext(i, p, acc) => assert ph.Crashed? || (ph.ScanAt? && ph.i == i + 1);
  }

  lemma StepLowersWork(s: State, t: Tid)
    requires Inv(s) && Enabled(s, t)
    ensures Work(Next(s, t)) < Work(s)
  {
    var s' := Next(s, t);
    Knows(s, t);
    StepShape(s, t);
    StepShrinks(s, t, Bound(s));
    TotalUpdate(s.threads, t, s'.threads[t], Bound(s));
    TotalMono(s'.threads, Bound(s'), Bound(s));
  }

  /** From a reachable state, threads can take only a bounded number of steps without new calls. */
  lemma {:induction false} StepsAreBounded(s: State, steps: seq<Action>)
    requires Inv(s) && Run(s, steps).Some? && forall k :: 0 <= k < |steps| ==> steps[k].Step?
    ensures Inv(Run(s, steps).value) && |steps| + Work(Run(s, steps).value) <= Work(s)
  {
    if steps != [] {
      var n := |steps| - 1;
      StepsAreBounded(s, steps[..n]);
      var mid := Run(s, steps[..n]).value;
      StepLowersWork(mid, steps[n].t);
      ActionKeepsInv(mid, steps[n]);
    }
  }

  /** Every call returns: from a reachable state any way of letting threads step ends within
      Work(s) steps, and when no thread can step any more, none is inside a call. */
  lemma EveryCallEnds(n: nat, s: State, steps: seq<Action>)
    requires Reachable(n, s) && Run(s, steps).Some? && forall k :: 0 <= k < |steps| ==> steps[k].Step?
    ensures |steps| <= Work(s)
    ensures var s' := Run(s, steps).value;
      (forall u :: !Enabled(s', u)) ==> forall t :: !Active(s', t)
  {
    ReachableInv(n, s);
    StepsAreBounded(s, steps);
    var s' := Run(s, steps).value;
    WorkNatural(s');
    if t :| Active(s', t) {
      RunExtends(n, s, steps);
      NoDeadlock(n, s', t);
    }
  }

  lemma RunExtends(n: nat, s: State, actions: seq<Action>)
    requires Reachable(n, s) && Run(s, actions).Some?
    ensures Reachable(n, Run(s, actions).value)
  {
    var before :| Run(Start(n), before) == Some(s);
    RunConcat(Start(n), before, actions);
  }

  lemma {:induction false} RunConcat(s: State, a: seq<Action>, b: seq<Action>)
    requires Run(s, a).Some?
    ensures Run(s, a + b) == Run(Run(s, a).value, b)
  {
    if b == [] {
      assert a + b == a;
    } else {
      var n := |b| - 1;
      assert (a + b)[..|a + b| - 1] == a + b[..n];
      RunConcat(s, a, b[..n]);
    }
  }
}
