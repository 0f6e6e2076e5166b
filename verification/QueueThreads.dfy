/** The queue under its mutex and two condition variables: any number of producers and
    consumers, blocking or not, with spurious wakeups. */
module QueueThreads {
  import opened TrisTypes
  import opened RingQueue

  type Tid = nat
  type Item = int

  datatype Call = PushCall(x: Item, block: bool) | PopCall(block: bool)

  datatype Result = Succeeded | Got(x: Item) | Refused

  datatype Phase =
    | Entering(woken: bool)      // wants the mutex; `woken` after a wait
    | Holding(woken: bool)       // holds the mutex, about to test the condition
    | Asleep                     // in pthread_cond_wait, mutex released
    | Signalling(result: Result) // holds the mutex, item moved, signal still to be sent
    | Unlocking(result: Result)  // holds the mutex
    | Done(result: Result)

  datatype Thread = Idle | Running(call: Call, phase: Phase)

  /** A call that took effect or was refused, and who made it. */
  datatype Entry = Entry(t: Tid, call: Call)

  /** What a call returned. */
  datatype Answer = Answer(call: Call, result: Result)

  /** History: the items pushed and popped, the calls in the order of their turns under the mutex,
      and what each thread has returned so far. No step depends on it. */
  datatype State = State(
    lock: Option<Tid>, ring: Ring<Item>, threads: seq<Thread>, pushed: seq<Item>, popped: seq<Item>,
    log: seq<Entry>, returned: seq<seq<Answer>>)

  function Start(capacity: nat, n: nat): State {
    State(None, Ring(seq(capacity, _ => 0), 0, 0, 0), seq(n, _ => Idle), [], [], [], seq(n, _ => []))
  }

  // ---- steps ----

  predicate HoldsLock(th: Thread) {
    th.Running? && (th.phase.Holding? || th.phase.Signalling? || th.phase.Unlocking?)
  }

  function Goto(s: State, t: Tid, phase: Phase): State
    requires t < |s.threads| && s.threads[t].Running?
  {
    s.(threads := s.threads[t := s.threads[t].(phase := phase)])
  }

  predicate Enabled(s: State, t: Tid) {
    && t < |s.threads| && s.threads[t].Running? && s.ring.Ok()
    && match s.threads[t].phase
       case Entering(_) => s.lock.None?
       case Asleep | Done(_) => false
       case _ => true
  }

  /** The state with the call of thread t written down. */
  function Noted(s: State, t: Tid): State
    requires t < |s.threads| && s.threads[t].Running?
  {
    s.(log := s.log + [Entry(t, s.threads[t].call)])
  }

  /** One turn under the mutex: wait, refuse, or move an item. */
  function Turn(s: State, t: Tid): State
    requires t < |s.threads| && s.threads[t].Running? && s.ring.Ok()
  {
    match s.threads[t].call
    case PushCall(x, block) =>
      if s.ring.count == |s.ring.buffer| then
        if block then Goto(s.(lock := None), t, Asleep) else Goto(Noted(s, t), t, Unlocking(Refused))
      else Goto(Noted(s, t).(ring := s.ring.Push(x), pushed := s.pushed + [x]), t, Signalling(Succeeded))
    case PopCall(block) =>
      if s.ring.count == 0 then
        if block then Goto(s.(lock := None), t, Asleep) else Goto(Noted(s, t), t, Unlocking(Refused))
      else
        var x := s.ring.buffer[s.ring.head];
        Goto(Noted(s, t).(ring := s.ring.Pop(), popped := s.popped + [x]), t, Signalling(Got(x)))
  }

  /** The sleeper can be woken by a signal of the given call: a push signals `not_empty`. */
  predicate WokenBy(th: Thread, signaller: Call) {
    th.Running? && th.phase.Asleep? && th.call.PushCall? != signaller.PushCall?
  }

  /** A signal wakes at least one thread that waits on its condition, if there is any. */
  predicate SignalChoice(s: State, t: Tid, wake: set<Tid>)
    requires t < |s.threads| && s.threads[t].Running?
  {
    && (forall u :: u in wake ==> u < |s.threads| && WokenBy(s.threads[u], s.threads[t].call))
    && ((exists u :: 0 <= u < |s.threads| && WokenBy(s.threads[u], s.threads[t].call)) ==> wake != {})
  }

  function Wake(threads: seq<Thread>, wake: set<Tid>): (r: seq<Thread>)
    ensures |r| == |threads|
  {
    seq(|threads|, u requires 0 <= u < |threads| =>
      if u in wake && threads[u].Running? then threads[u].(phase := Entering(true)) else threads[u])
  }

  datatype Action =
    | Begin(t: Tid, call: Call)
    | Step(t: Tid)
    | Signal(t: Tid, wake: set<Tid>)
    | Spurious(t: Tid)
    | Return(t: Tid)

  predicate Possible(s: State, a: Action) {
    && a.t < |s.threads|
    && match a
       case Begin(t, _) => s.threads[t].Idle?
       case Step(t) => Enabled(s, t) && !s.threads[t].phase.Signalling?
       case Signal(t, wake) => Enabled(s, t) && s.threads[t].phase.Signalling? && SignalChoice(s, t, wake)
       case Spurious(t) => s.threads[t].Running? && s.threads[t].phase.Asleep?
       case Return(t) => s.threads[t].Running? && s.threads[t].phase.Done? && t < |s.returned|
  }

  function Do(s: State, a: Action): State
    requires Possible(s, a)
  {
    match a
    case Begin(t, call) => s.(threads := s.threads[t := Running(call, Entering(false))])
    case Step(t) =>
      (match s.threads[t].phase
       case Entering(woken) => Goto(s.(lock := Some(t)), t, Holding(woken))
       case Holding(_) => Turn(s, t)
       case Unlocking(result) => Goto(s.(lock := None), t, Done(result)))
    case Signal(t, wake) =>
      var th := s.threads[t];
      s.(threads := Wake(s.threads, wake)[t := th.(phase := Unlocking(th.phase.result))])
    case Spurious(t) => Goto(s, t, Entering(true))
    case Return(t) =>
      var answer := Answer(s.threads[t].call, s.threads[t].phase.result);
      s.(threads := s.threads[t := Idle], returned := s.returned[t := s.returned[t] + [answer]])
  }

  function Run(s: State, actions: seq<Action>): Option<State> {
    if actions == [] then Some(s)
    else
      var n := |actions| - 1;
      match Run(s, actions[..n])
      case None => None
      case Some(before) => if Possible(before, actions[n]) then Some(Do(before, actions[n])) else None
  }

  // ---- counting threads ----

  datatype Kind = SleepingPush | SleepingPop | WokenPush | WokenPop | SignallingPush | SignallingPop

  predicate Is(th: Thread, k: Kind) {
    th.Running? &&
    match k
    case SleepingPush => th.call.PushCall? && th.phase.Asleep?
    case SleepingPop => th.call.PopCall? && th.phase.Asleep?
    case WokenPush => th.call.PushCall? && (th.phase.Entering? || th.phase.Holding?) && th.phase.woken
    case WokenPop => th.call.PopCall? && (th.phase.Entering? || th.phase.Holding?) && th.phase.woken
    case SignallingPush => th.call.PushCall? && th.phase.Signalling?
    case SignallingPop => th.call.PopCall? && th.phase.Signalling?
  }

  function One(b: bool): nat { if b then 1 else 0 }

  function Tally(threads: seq<Thread>, k: Kind): nat {
    if threads == [] then 0
    else Tally(threads[..|threads| - 1], k) + One(Is(threads[|threads| - 1], k))
  }

  lemma {:induction false} TallyUpdate(threads: seq<Thread>, t: Tid, th: Thread, k: Kind)
    requires t < |threads|
    ensures Tally(threads[t := th], k) == Tally(threads, k) - One(Is(threads[t], k)) + One(Is(th, k))
  {
    var n := |threads| - 1;
    if t < n {
      assert threads[t := th][..n] == threads[..n][t := th];
      TallyUpdate(threads[..n], t, th, k);
    } else {
      assert threads[t := th][..n] == threads[..n];
    }
  }

  lemma {:induction false} TallyPositive(threads: seq<Thread>, k: Kind)
    ensures Tally(threads, k) > 0 <==> exists t :: 0 <= t < |threads| && Is(threads[t], k)
  {
    if threads != [] {
      var n := |threads| - 1;
      TallyPositive(threads[..n], k);
      if Is(threads[n], k) {
        assert Tally(threads, k) > 0;
      } else if t :| 0 <= t < |threads| && Is(threads[t], k) {
        assert Is(threads[..n][t], k);
      }
    }
  }

  /** Pointwise, no thread of kind k stops being one, and at some t one starts. */
  lemma {:induction false} TallyGrows(a: seq<Thread>, b: seq<Thread>, k: Kind)
    requires |a| == |b| && forall t :: 0 <= t < |a| && Is(a[t], k) ==> Is(b[t], k)
    ensures Tally(b, k) >= Tally(a, k)
    ensures (exists t :: 0 <= t < |a| && Is(b[t], k) && !Is(a[t], k)) ==> Tally(b, k) > Tally(a, k)
  {
    if a != [] {
      var n := |a| - 1;
      TallyGrows(a[..n], b[..n], k);
      if t :| 0 <= t < |a| && Is(b[t], k) && !Is(a[t], k) {
        if t < n { assert Is(b[..n][t], k) && !Is(a[..n][t], k); }
      }
    }
  }

  // ---- the invariant ----

  predicate LockOk(s: State) {
    && (forall t :: 0 <= t < |s.threads| ==> (HoldsLock(s.threads[t]) <==> s.lock == Some(t)))
    && (s.lock.Some? ==> s.lock.value < |s.threads|)
  }

  /** First in, first out, nothing lost: what was pushed is what was popped plus what is queued. */
  predicate FifoOk(s: State) {
    s.ring.Ok() && s.pushed == s.popped + s.ring.Contents()
  }

  /** While a consumer sleeps, every queued item is covered by a woken consumer yet to run or by
      a signal about to be sent. */
  predicate ItemsCovered(s: State) {
    Tally(s.threads, SleepingPop) > 0 ==>
      s.ring.count <= Tally(s.threads, WokenPop) + Tally(s.threads, SignallingPush)
  }

  predicate SlotsCovered(s: State) {
    Tally(s.threads, SleepingPush) > 0 ==>
      |s.ring.buffer| - s.ring.count <= Tally(s.threads, WokenPush) + Tally(s.threads, SignallingPop)
  }

  predicate Inv(s: State) {
    LockOk(s) && FifoOk(s) && ItemsCovered(s) && SlotsCovered(s)
  }

  lemma {:induction false} IdleTally(n: nat, k: Kind)
    ensures Tally(seq(n, _ => Idle), k) == 0
  {
    if n > 0 {
      assert seq(n, _ => Idle)[..n - 1] == seq(n - 1, _ => Idle);
      IdleTally(n - 1, k);
    }
  }

  lemma StartInv(capacity: nat, n: nat)
    requires capacity > 0
    ensures Inv(Start(capacity, n))
  {
    IdleTally(n, SleepingPop);
    IdleTally(n, SleepingPush);
  }

  /** A step of one thread, by what it does to the tallies. */
  lemma MoveTallies(s: State, t: Tid, th: Thread)
    requires t < |s.threads|
    ensures forall k ::
      Tally(s.threads[t := th], k) == Tally(s.threads, k) - One(Is(s.threads[t], k)) + One(Is(th, k))
  {
    forall k ensures Tally(s.threads[t := th], k) ==
      Tally(s.threads, k) - One(Is(s.threads[t], k)) + One(Is(th, k))
    {
      TallyUpdate(s.threads, t, th, k);
    }
  }

  lemma PushKeepsInv(s: State, t: Tid)
    requires Inv(s) && Enabled(s, t) && s.threads[t].phase.Holding? && s.threads[t].call.PushCall?
    ensures Inv(Turn(s, t))
  {
    MoveTallies(s, t, Turn(s, t).threads[t]);
    if s.ring.count < |s.ring.buffer| { PushAppends(s.ring, s.threads[t].call.x); }
  }

  lemma PopKeepsInv(s: State, t: Tid)
    requires Inv(s) && Enabled(s, t) && s.threads[t].phase.Holding? && s.threads[t].call.PopCall?
    ensures Inv(Turn(s, t))
  {
    MoveTallies(s, t, Turn(s, t).threads[t]);
    if s.ring.count > 0 { PopRemovesFirst(s.ring); }
  }

  lemma TurnKeepsInv(s: State, t: Tid)
    requires Inv(s) && Enabled(s, t) && s.threads[t].phase.Holding?
    ensures Inv(Turn(s, t))
  {
    if s.threads[t].call.PushCall? { PushKeepsInv(s, t); } else { PopKeepsInv(s, t); }
  }

  function Sleeping(push: bool): Kind { if push then SleepingPush else SleepingPop }

  function Woken(push: bool): Kind { if push then WokenPush else WokenPop }

  lemma SignalKeepsInv(s: State, t: Tid, wake: set<Tid>)
    requires Inv(s) && Possible(s, Signal(t, wake))
    ensures Inv(Do(s, Signal(t, wake)))
  {
    var s' := Do(s, Signal(t, wake));
    var woken := Wake(s.threads, wake);
    assert woken[t] == s.threads[t];
    MoveTallies(s.(threads := woken), t, s'.threads[t]);
    WakeTallies(s, t, wake);
    SignalWakesOne(s, t, wake);
  }

  /** If anybody sleeps on the signalled condition, at least one of them starts to run. */
  lemma SignalWakesOne(s: State, t: Tid, wake: set<Tid>)
    requires t < |s.threads| && s.threads[t].Running? && SignalChoice(s, t, wake)
    ensures var woken, push := Wake(s.threads, wake), s.threads[t].call.PushCall?;
      Tally(s.threads, Sleeping(!push)) > 0 ==> Tally(woken, Woken(!push)) > Tally(s.threads, Woken(!push))
  {
    var woken, push := Wake(s.threads, wake), s.threads[t].call.PushCall?;
    TallyPositive(s.threads, Sleeping(!push));
    if Tally(s.threads, Sleeping(!push)) > 0 {
      var u :| 0 <= u < |s.threads| && Is(s.threads[u], Sleeping(!push));
      assert WokenBy(s.threads[u], s.threads[t].call);
      var v :| v in wake;
      assert Is(woken[v], Woken(!push)) && !Is(s.threads[v], Woken(!push));
      TallyGrows(s.threads, woken, Woken(!push));
    }
  }

  /** Waking sleepers of the other side changes only the two tallies of that side. */
  lemma WakeTallies(s: State, t: Tid, wake: set<Tid>)
    requires t < |s.threads| && s.threads[t].Running? && SignalChoice(s, t, wake)
    ensures var woken, push := Wake(s.threads, wake), s.threads[t].call.PushCall?;
      && Tally(woken, SignallingPush) == Tally(s.threads, SignallingPush)
      && Tally(woken, SignallingPop) == Tally(s.threads, SignallingPop)
      && Tally(woken, Sleeping(push)) == Tally(s.threads, Sleeping(push))
      && Tally(woken, Woken(push)) == Tally(s.threads, Woken(push))
      && Tally(woken, Sleeping(!push)) <= Tally(s.threads, Sleeping(!push))
      && Tally(woken, Woken(!push)) >= Tally(s.threads, Woken(!push))
  {
    var woken, push := Wake(s.threads, wake), s.threads[t].call.PushCall?;
    TallySame(s.threads, woken, SignallingPush);
    TallySame(s.threads, woken, SignallingPop);
    TallySame(s.threads, woken, Sleeping(push));
    TallySame(s.threads, woken, Woken(push));
    TallyGrows(woken, s.threads, Sleeping(!push));
    TallyGrows(s.threads, woken, Woken(!push));
  }

  lemma TallySame(a: seq<Thread>, b: seq<Thread>, k: Kind)
    requires |a| == |b| && forall t :: 0 <= t < |a| ==> (Is(a[t], k) <==> Is(b[t], k))
    ensures Tally(a, k) == Tally(b, k)
  {
    TallyGrows(a, b, k);
    TallyGrows(b, a, k);
  }

  lemma ActionKeepsInv(s: State, a: Action)
    requires Inv(s) && Possible(s, a)
    ensures Inv(Do(s, a))
  {
    match a
    case Signal(t, wake) => SignalKeepsInv(s, t, wake);
    case Step(t) => if s.threads[t].phase.Holding? { TurnKeepsInv(s, t); } else { LockStepKeepsInv(s, t); }
    case _ => OutsideKeepsInv(s, a);
  }

  lemma LockStepKeepsInv(s: State, t: Tid)
    requires Inv(s) && Possible(s, Step(t)) && !s.threads[t].phase.Holding?
    ensures Inv(Do(s, Step(t)))
  {
    MoveTallies(s, t, Do(s, Step(t)).threads[t]);
  }

  lemma OutsideKeepsInv(s: State, a: Action)
    requires Inv(s) && Possible(s, a) && (a.Begin? || a.Spurious? || a.Return?)
    ensures Inv(Do(s, a))
  {
    MoveTallies(s, a.t, Do(s, a).threads[a.t]);
  }

  lemma {:induction false} RunKeepsInv(s: State, actions: seq<Action>)
    requires Inv(s) && Run(s, actions).Some?
    ensures Inv(Run(s, actions).value)
  {
    if actions != [] {
      var n := |actions| - 1;
      RunKeepsInv(s, actions[..n]);
      ActionKeepsInv(Run(s, actions[..n]).value, actions[n]);
    }
  }

  /** No lost wakeup, in every run: while a thread sleeps on `not_empty` the items are at most the
      woken consumers yet to run plus the signals about to be sent, and no signal is about to be
      sent while the mutex is free; dually for free slots. */
  lemma NoLostWakeup(capacity: nat, n: nat, actions: seq<Action>)
    requires capacity > 0 && Run(Start(capacity, n), actions).Some?
    ensures var s := Run(Start(capacity, n), actions).value;
      && FifoOk(s) && ItemsCovered(s) && SlotsCovered(s)
      && (s.lock.None? && Tally(s.threads, SleepingPop) > 0 ==> s.ring.count <= Tally(s.threads, WokenPop))
      && (s.lock.None? && Tally(s.threads, SleepingPush) > 0 ==>
            |s.ring.buffer| - s.ring.count <= Tally(s.threads, WokenPush))
  {
    StartInv(capacity, n);
    RunKeepsInv(Start(capacity, n), actions);
    var s := Run(Start(capacity, n), actions).value;
    TallyPositive(s.threads, SignallingPush);
    TallyPositive(s.threads, SignallingPop);
  }

  /** When no thread can move, each thread inside a call sleeps; consumers sleep only on an empty
      queue and producers only on a full one. So nobody sleeps while there is work for him. */
  lemma NobodySleepsOnWork(capacity: nat, n: nat, actions: seq<Action>)
    requires capacity > 0 && Run(Start(capacity, n), actions).Some?
    requires forall t :: !Enabled(Run(Start(capacity, n), actions).value, t)
    ensures var s := Run(Start(capacity, n), actions).value;
      forall t :: 0 <= t < |s.threads| && s.threads[t].Running? && !s.threads[t].phase.Done? ==>
        s.threads[t].phase.Asleep? &&
        if s.threads[t].call.PopCall? then s.ring.count == 0 else s.ring.count == |s.ring.buffer|
  {
    var s := Run(Start(capacity, n), actions).value;
    StartInv(capacity, n);
    RunKeepsInv(Start(capacity, n), actions);
    if s.lock.Some? { assert Enabled(s, s.lock.value); }
    forall k | k == WokenPop || k == WokenPush || k == SignallingPush || k == SignallingPop
      ensures Tally(s.threads, k) == 0
    {
      TallyPositive(s.threads, k);
      if t :| 0 <= t < |s.threads| && Is(s.threads[t], k) { assert Enabled(s, t); }
    }
    forall t | 0 <= t < |s.threads| && s.threads[t].Running? && !s.threads[t].phase.Done?
      ensures s.threads[t].phase.Asleep? &&
        if s.threads[t].call.PopCall? then s.ring.count == 0 else s.ring.count == |s.ring.buffer|
    {
      assert !Enabled(s, t);
      var k := if s.threads[t].call.PopCall? then SleepingPop else SleepingPush;
      assert Is(s.threads[t], k);
      TallyPositive(s.threads, k);
    }
  }
}
