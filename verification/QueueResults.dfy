/** What the calls of the queue return, in every interleaving: each gets the answer that an atomic
    bounded queue gives at its turn. */
module QueueResults {
  import opened TrisTypes
  import opened RingQueue
  import opened QueueThreads

  // ---- the atomic queue ----

  /** The answer of a bounded queue that holds the given items. */
  function AnswerOf(items: seq<Item>, capacity: nat, call: Call): Result {
    match call
    case PushCall(_, _) => if |items| == capacity then Refused else Succeeded
    case PopCall(_) => if items == [] then Refused else Got(items[0])
  }

  function ItemsAfter(items: seq<Item>, capacity: nat, call: Call): seq<Item> {
    match call
    case PushCall(x, _) => if |items| == capacity then items else items + [x]
    case PopCall(_) => if items == [] then items else items[1..]
  }

  /** The items after a series of calls on an empty queue. */
  function Replayed(log: seq<Entry>, capacity: nat): seq<Item> {
    if log == [] then []
    else
      var n := |log| - 1;
      ItemsAfter(Replayed(log[..n], capacity), capacity, log[n].call)
  }

  /** The answer of the atomic queue to call k of the series. */
  function AnswerAt(log: seq<Entry>, capacity: nat, k: nat): Result
    requires k < |log|
  {
    AnswerOf(Replayed(log[..k], capacity), capacity, log[k].call)
  }

  /** The answers that one thread should have got, in order. */
  function Due(log: seq<Entry>, capacity: nat, t: Tid): seq<Answer> {
    if log == [] then []
    else
      var n := |log| - 1;
      Due(log[..n], capacity, t) +
      if log[n].t == t then [Answer(log[n].call, AnswerAt(log, capacity, n))] else []
  }

  /** The items of the pushes that the atomic queue accepts, in order. */
  function Stored(log: seq<Entry>, capacity: nat): seq<Item> {
    if log == [] then []
    else
      var n := |log| - 1;
      Stored(log[..n], capacity) +
      if log[n].call.PushCall? && AnswerAt(log, capacity, n) == Succeeded then [log[n].call.x] else []
  }

  /** The items that the atomic queue hands out, in order. */
  function Taken(log: seq<Entry>, capacity: nat): seq<Item> {
    if log == [] then []
    else
      var n := |log| - 1;
      Taken(log[..n], capacity) +
      match AnswerAt(log, capacity, n) case Got(x) => [x] case _ => []
  }

  /** No blocking call is refused. */
  predicate BlockingIsServed(log: seq<Entry>, capacity: nat) {
    forall k :: 0 <= k < |log| && log[k].call.block ==> AnswerAt(log, capacity, k) != Refused
  }

  lemma LogGrows(log: seq<Entry>, capacity: nat, e: Entry)
    ensures var items := Replayed(log, capacity);
      var answer := AnswerOf(items, capacity, e.call);
      && Replayed(log + [e], capacity) == ItemsAfter(items, capacity, e.call)
      && AnswerAt(log + [e], capacity, |log|) == answer
      && (forall k :: 0 <= k < |log| ==> AnswerAt(log + [e], capacity, k) == AnswerAt(log, capacity, k))
      && (forall t :: Due(log + [e], capacity, t) ==
            Due(log, capacity, t) + if e.t == t then [Answer(e.call, answer)] else [])
      && Stored(log + [e], capacity) ==
           Stored(log, capacity) + (if e.call.PushCall? && answer == Succeeded then [e.call.x] else [])
      && Taken(log + [e], capacity) == Taken(log, capacity) + match answer case Got(x) => [x] case _ => []
  {
    assert (log + [e])[..|log|] == log;
    forall k | 0 <= k < |log| ensures AnswerAt(log + [e], capacity, k) == AnswerAt(log, capacity, k) {
      assert (log + [e])[..k] == log[..k];
    }
  }

  // ---- the invariant ----

  /** What a thread has returned, with the answer it is about to return. */
  function Given(s: State, t: Tid): seq<Answer>
    requires t < |s.threads| == |s.returned|
  {
    s.returned[t] +
    match s.threads[t]
    case Idle => []
    case Running(call, phase) =>
      if phase.Signalling? || phase.Unlocking? || phase.Done? then [Answer(call, phase.result)] else []
  }

  /** Only a blocking call sleeps, or has slept. */
  predicate SleepsByChoice(th: Thread) {
    th.Running? && (th.phase.Asleep? || ((th.phase.Entering? || th.phase.Holding?) && th.phase.woken)) ==> th.call.block
  }

  predicate Answered(s: State) {
    && |s.returned| == |s.threads| && s.ring.Ok()
    && s.ring.Contents() == Replayed(s.log, |s.ring.buffer|)
    && (forall t :: 0 <= t < |s.threads| ==> Given(s, t) == Due(s.log, |s.ring.buffer|, t))
    && (forall t :: 0 <= t < |s.threads| ==> SleepsByChoice(s.threads[t]))
    && s.pushed == Stored(s.log, |s.ring.buffer|) && s.popped == Taken(s.log, |s.ring.buffer|)
    && BlockingIsServed(s.log, |s.ring.buffer|)
    && (forall k :: 0 <= k < |s.log| ==> s.log[k].t < |s.threads|)
  }

  /** A step that neither enters the log nor touches the ring. */
  lemma QuietStep(s: State, s': State)
    requires Answered(s) && |s'.threads| == |s.threads| == |s'.returned|
    requires s'.ring == s.ring && s'.log == s.log && s'.pushed == s.pushed && s'.popped == s.popped
    requires forall t :: 0 <= t < |s.threads| ==> Given(s', t) == Given(s, t) && SleepsByChoice(s'.threads[t])
    ensures Answered(s')
  {
  }

  /** A turn that enters the log: the thread holds the answer of the atomic queue. */
  lemma LoggedTurn(s: State, s': State, t: Tid, answer: Result)
    requires Answered(s) && t < |s.threads| && s.threads[t].Running? && s.threads[t].phase.Holding?
    requires s'.log == s.log + [Entry(t, s.threads[t].call)] && s'.returned == s.returned
    requires |s'.threads| == |s.threads| && s'.threads == s.threads[t := s'.threads[t]] && s'.threads[t].Running?
    requires s'.threads[t].call == s.threads[t].call
    requires s'.threads[t].phase == Signalling(answer) || s'.threads[t].phase == Unlocking(answer)
    requires s'.ring.Ok() && |s'.ring.buffer| == |s.ring.buffer|
    requires var call, items := s.threads[t].call, s.ring.Contents();
      && answer == AnswerOf(items, |s.ring.buffer|, call)
      && (call.block ==> answer != Refused)
      && s'.ring.Contents() == ItemsAfter(items, |s.ring.buffer|, call)
      && s'.pushed == s.pushed + (if call.PushCall? && answer == Succeeded then [call.x] else [])
      && s'.popped == s.popped + match answer case Got(x) => [x] case _ => []
    ensures Answered(s')
  {
    LogGrows(s.log, |s.ring.buffer|, Entry(t, s.threads[t].call));
    var capacity := |s.ring.buffer|;
    forall u | 0 <= u < |s'.threads| ensures Given(s', u) == Due(s'.log, capacity, u) {
      if u != t { assert Given(s', u) == Given(s, u); }
    }
  }

  lemma FullTurnAnswers(s: State, t: Tid)
    requires Answered(s) && Enabled(s, t) && s.threads[t].phase.Holding?
    requires if s.threads[t].call.PushCall? then s.ring.count == |s.ring.buffer| else s.ring.count == 0
    ensures Answered(Turn(s, t))
  {
    var s' := Turn(s, t);
    if s.threads[t].call.block { QuietStep(s, s'); } else { LoggedTurn(s, s', t, Refused); }
  }

  lemma PushTurnAnswers(s: State, t: Tid)
    requires Answered(s) && Enabled(s, t) && s.threads[t].phase.Holding?
    requires s.threads[t].call.PushCall? && s.ring.count < |s.ring.buffer|
    ensures Answered(Turn(s, t))
  {
    PushAppends(s.ring, s.threads[t].call.x);
    LoggedTurn(s, Turn(s, t), t, Succeeded);
  }

  lemma PopTurnAnswers(s: State, t: Tid)
    requires Answered(s) && Enabled(s, t) && s.threads[t].phase.Holding?
    requires s.threads[t].call.PopCall? && s.ring.count > 0
    ensures Answered(Turn(s, t))
  {
    PopRemovesFirst(s.ring);
    LoggedTurn(s, Turn(s, t), t, Got(s.ring.Contents()[0]));
  }

  lemma TurnAnswers(s: State, t: Tid)
    requires Answered(s) && Enabled(s, t) && s.threads[t].phase.Holding?
    ensures Answered(Turn(s, t))
  {
    if if s.threads[t].call.PushCall? then s.ring.count == |s.ring.buffer| else s.ring.count == 0 {
      FullTurnAnswers(s, t);
    } else if s.threads[t].call.PushCall? {
      PushTurnAnswers(s, t);
    } else {
      PopTurnAnswers(s, t);
    }
  }

  /** A signal moves sleepers and nothing else that the invariant speaks of. */
  lemma SignalAnswers(s: State, t: Tid, wake: set<Tid>)
    requires Answered(s) && Possible(s, Signal(t, wake))
    ensures Answered(Do(s, Signal(t, wake)))
  {
    var s' := Do(s, Signal(t, wake));
    forall u | 0 <= u < |s.threads| ensures Given(s', u) == Given(s, u) && SleepsByChoice(s'.threads[u]) {
      assert SleepsByChoice(s.threads[u]);
    }
    QuietStep(s, s');
  }

  lemma OutsideAnswers(s: State, a: Action)
    requires Answered(s) && Possible(s, a) && !a.Signal? && !(a.Step? && s.threads[a.t].phase.Holding?)
    ensures Answered(Do(s, a))
  {
    var s' := Do(s, a);
    assert SleepsByChoice(s.threads[a.t]);
    assert Given(s', a.t) == Given(s, a.t);
    forall u | 0 <= u < |s.threads| && u != a.t ensures Given(s', u) == Given(s, u) && s'.threads[u] == s.threads[u] {}
    QuietStep(s, s');
  }

  lemma ActionAnswers(s: State, a: Action)
    requires Answered(s) && Possible(s, a)
    ensures Answered(Do(s, a))
  {
    if a.Step? && s.threads[a.t].phase.Holding? {
      TurnAnswers(s, a.t);
    } else if a.Signal? {
      SignalAnswers(s, a.t, a.wake);
    } else {
      OutsideAnswers(s, a);
    }
  }

  lemma {:induction false} RunAnswers(s: State, actions: seq<Action>)
    requires Answered(s) && Run(s, actions).Some?
    ensures Answered(Run(s, actions).value)
  {
    if actions != [] {
      var n := |actions| - 1;
      RunAnswers(s, actions[..n]);
      ActionAnswers(Run(s, actions[..n]).value, actions[n]);
    }
  }

  // ---- what the calls of a run return ----

  /** In every run the queue behaves as an atomic one: its items are those of the logged calls, and
      each thread has returned, or is about to return, just the answers due to its calls, in order.
      No blocking call is refused, and no other call sleeps. */
  lemma QueueIsAtomic(capacity: nat, n: nat, actions: seq<Action>)
    requires capacity > 0 && Run(Start(capacity, n), actions).Some?
    ensures var s := Run(Start(capacity, n), actions).value;
      && |s.ring.buffer| == capacity && Answered(s)
      && s.ring.Contents() == Replayed(s.log, capacity)
      && (forall t :: 0 <= t < |s.threads| ==> Given(s, t) == Due(s.log, capacity, t))
      && BlockingIsServed(s.log, capacity)
      && (forall t :: 0 <= t < |s.threads| && s.threads[t].Running? && s.threads[t].phase.Asleep? ==>
            s.threads[t].call.block)
  {
    RunAnswers(Start(capacity, n), actions);
    CapacityStays(Start(capacity, n), actions);
    assert forall t :: 0 <= t < |Run(Start(capacity, n), actions).value.threads| ==>
      SleepsByChoice(Run(Start(capacity, n), actions).value.threads[t]);
  }

  lemma {:induction false} CapacityStays(s: State, actions: seq<Action>)
    requires Run(s, actions).Some?
    ensures |Run(s, actions).value.ring.buffer| == |s.ring.buffer|
  {
    if actions != [] { CapacityStays(s, actions[..|actions| - 1]); }
  }

  /** A pop that hands out an item hands out the one at its place among the popped items. */
  lemma {:induction false} TakenAt(log: seq<Entry>, capacity: nat, k: nat)
    requires k < |log| && AnswerAt(log, capacity, k).Got?
    ensures var i := |Taken(log[..k], capacity)|;
      i < |Taken(log, capacity)| && AnswerAt(log, capacity, k) == Got(Taken(log, capacity)[i])
  {
    var n := |log| - 1;
    if k < n {
      assert log[..n][..k] == log[..k];
      TakenAt(log[..n], capacity, k);
    }
  }

  /** And each popped item is handed out by exactly one pop. */
  lemma {:induction false} TakenBy(log: seq<Entry>, capacity: nat, i: nat) returns (k: nat)
    requires i < |Taken(log, capacity)|
    ensures k < |log| && log[k].call.PopCall?
    ensures AnswerAt(log, capacity, k) == Got(Taken(log, capacity)[i]) && |Taken(log[..k], capacity)| == i
    ensures forall m :: 0 <= m < |log| && m != k && AnswerAt(log, capacity, m).Got? ==>
      |Taken(log[..m], capacity)| != i
  {
    var n := |log| - 1;
    if i < |Taken(log[..n], capacity)| {
      k := TakenBy(log[..n], capacity, i);
      assert log[..n][..k] == log[..k];
    } else {
      k := n;
    }
    forall m | 0 <= m < |log| && m != k && AnswerAt(log, capacity, m).Got?
      ensures |Taken(log[..m], capacity)| != i
    {
      TakenGrows(log, capacity, if m < k then m else k, if m < k then k else m);
    }
  }

  lemma {:induction false} TakenGrows(log: seq<Entry>, capacity: nat, j: nat, k: nat)
    requires j < k <= |log| && AnswerAt(log, capacity, j).Got?
    ensures |Taken(log[..j], capacity)| < |Taken(log[..k], capacity)|
  {
    assert log[..k][..k - 1] == log[..k - 1] && log[..k][..j] == log[..j];
    if j < k - 1 { TakenGrows(log, capacity, j, k - 1); }
  }

  /** The same for pushes: those that succeed are those whose items were pushed, one each. */
  lemma {:induction false} StoredAt(log: seq<Entry>, capacity: nat, k: nat)
    requires k < |log| && AnswerAt(log, capacity, k) == Succeeded
    ensures var i := |Stored(log[..k], capacity)|;
      i < |Stored(log, capacity)| && log[k].call.PushCall? && log[k].call.x == Stored(log, capacity)[i]
  {
    var n := |log| - 1;
    if k < n {
      assert log[..n][..k] == log[..k];
      StoredAt(log[..n], capacity, k);
    }
  }

  lemma {:induction false} StoredBy(log: seq<Entry>, capacity: nat, i: nat) returns (k: nat)
    requires i < |Stored(log, capacity)|
    ensures k < |log| && log[k].call.PushCall? && log[k].call.x == Stored(log, capacity)[i]
    ensures AnswerAt(log, capacity, k) == Succeeded && |Stored(log[..k], capacity)| == i
    ensures forall m :: 0 <= m < |log| && m != k && AnswerAt(log, capacity, m) == Succeeded ==>
      |Stored(log[..m], capacity)| != i
  {
    var n := |log| - 1;
    if i < |Stored(log[..n], capacity)| {
      k := StoredBy(log[..n], capacity, i);
      assert log[..n][..k] == log[..k];
    } else {
      k := n;
    }
    forall m | 0 <= m < |log| && m != k && AnswerAt(log, capacity, m) == Succeeded
      ensures |Stored(log[..m], capacity)| != i
    {
      StoredGrows(log, capacity, if m < k then m else k, if m < k then k else m);
    }
  }

  lemma {:induction false} StoredGrows(log: seq<Entry>, capacity: nat, j: nat, k: nat)
    requires j < k <= |log| && AnswerAt(log, capacity, j) == Succeeded
    ensures |Stored(log[..j], capacity)| < |Stored(log[..k], capacity)|
  {
    assert log[..k][..k - 1] == log[..k - 1] && log[..k][..j] == log[..j];
    if j < k - 1 { StoredGrows(log, capacity, j, k - 1); }
  }

  /** Each answer due to a thread belongs to a call of his in the log. */
  lemma {:induction false} DueFrom(log: seq<Entry>, capacity: nat, t: Tid, i: nat) returns (k: nat)
    requires i < |Due(log, capacity, t)|
    ensures k < |log| && log[k].t == t && |Due(log[..k], capacity, t)| == i
    ensures Due(log, capacity, t)[i] == Answer(log[k].call, AnswerAt(log, capacity, k))
  {
    var n := |log| - 1;
    if i < |Due(log[..n], capacity, t)| {
      k := DueFrom(log[..n], capacity, t, i);
      assert log[..n][..k] == log[..k];
    } else {
      k := n;
    }
  }

  /** In every run answer i of thread t is that of one call in the log, by this thread. A pop that
      got an item got the item at its own place in `popped`, and a push that succeeded put its
      item at its own place in `pushed`. A refusal went to a non-blocking call, at a full or an
      empty queue, and changed neither the queue nor its history. */
  lemma EveryAnswerIsDue(capacity: nat, n: nat, actions: seq<Action>, t: Tid, i: nat) returns (k: nat)
    requires capacity > 0 && Run(Start(capacity, n), actions).Some?
    requires var s := Run(Start(capacity, n), actions).value;
      t < |s.threads| == |s.returned| && i < |Given(s, t)|
    ensures var s := Run(Start(capacity, n), actions).value;
      var answer := Given(s, t)[i];
      && k < |s.log| && s.log[k] == Entry(t, answer.call) && |Due(s.log[..k], capacity, t)| == i
      && match answer.result
         case Got(x) =>
           var m := |Taken(s.log[..k], capacity)|;
           answer.call.PopCall? && m < |s.popped| && s.popped[m] == x
         case Succeeded =>
           var m := |Stored(s.log[..k], capacity)|;
           answer.call.PushCall? && m < |s.pushed| && s.pushed[m] == answer.call.x
         case Refused =>
           && !answer.call.block
           && |Replayed(s.log[..k], capacity)| == (if answer.call.PushCall? then capacity else 0)
           && Replayed(s.log[..k + 1], capacity) == Replayed(s.log[..k], capacity)
           && Stored(s.log[..k + 1], capacity) == Stored(s.log[..k], capacity)
           && Taken(s.log[..k + 1], capacity) == Taken(s.log[..k], capacity)
  {
    QueueIsAtomic(capacity, n, actions);
    var s := Run(Start(capacity, n), actions).value;
    k := DueFrom(s.log, capacity, t, i);
    assert s.log[..k + 1][..k] == s.log[..k];
    match Given(s, t)[i].result
    case Got(_) => TakenAt(s.log, capacity, k);
    case Succeeded => StoredAt(s.log, capacity, k);
    case Refused =>
  }

  /** Each call in the log has its answer among those of its thread. */
  lemma {:induction false} DueAt(log: seq<Entry>, capacity: nat, k: nat)
    requires k < |log|
    ensures var t := log[k].t;
      var i := |Due(log[..k], capacity, t)|;
      i < |Due(log, capacity, t)| && Due(log, capacity, t)[i] == Answer(log[k].call, AnswerAt(log, capacity, k))
  {
    var n := |log| - 1;
    if k < n {
      assert log[..n][..k] == log[..k];
      DueAt(log[..n], capacity, k);
    }
  }

  /** Conversely, in every run each popped item is the answer of a pop, of one thread at one place
      in the log, and no other call got the item at this place. */
  lemma EveryItemIsHandedOut(capacity: nat, n: nat, actions: seq<Action>, m: nat) returns (k: nat)
    requires capacity > 0 && Run(Start(capacity, n), actions).Some?
    requires m < |Run(Start(capacity, n), actions).value.popped|
    ensures var s := Run(Start(capacity, n), actions).value;
      && k < |s.log| && s.log[k].t < |s.threads| == |s.returned| && s.log[k].call.PopCall?
      && var t := s.log[k].t;
      var i := |Due(s.log[..k], capacity, t)|;
      i < |Given(s, t)| && Given(s, t)[i] == Answer(s.log[k].call, Got(s.popped[m]))
    ensures var s := Run(Start(capacity, n), actions).value;
      forall j :: 0 <= j < |s.log| && j != k && AnswerAt(s.log, capacity, j).Got? ==>
        |Taken(s.log[..j], capacity)| != m
  {
    QueueIsAtomic(capacity, n, actions);
    var s := Run(Start(capacity, n), actions).value;
    k := TakenBy(s.log, capacity, m);
    DueAt(s.log, capacity, k);
  }

  /** And each pushed item is that of one push that succeeded. */
  lemma EveryItemWasPushed(capacity: nat, n: nat, actions: seq<Action>, m: nat) returns (k: nat)
    requires capacity > 0 && Run(Start(capacity, n), actions).Some?
    requires m < |Run(Start(capacity, n), actions).value.pushed|
    ensures var s := Run(Start(capacity, n), actions).value;
      && k < |s.log| && s.log[k].t < |s.threads| == |s.returned|
      && s.log[k].call.PushCall? && s.log[k].call.x == s.pushed[m]
      && var t := s.log[k].t;
      var i := |Due(s.log[..k], capacity, t)|;
      i < |Given(s, t)| && Given(s, t)[i] == Answer(s.log[k].call, Succeeded)
    ensures var s := Run(Start(capacity, n), actions).value;
      forall j :: 0 <= j < |s.log| && j != k && AnswerAt(s.log, capacity, j) == Succeeded ==>
        |Stored(s.log[..j], capacity)| != m
  {
    QueueIsAtomic(capacity, n, actions);
    var s := Run(Start(capacity, n), actions).value;
    k := StoredBy(s.log, capacity, m);
    DueAt(s.log, capacity, k);
  }

  /** So the m-th item handed out is the m-th item stored. */
  lemma FirstInFirstOut(capacity: nat, n: nat, actions: seq<Action>)
    requires capacity > 0 && Run(Start(capacity, n), actions).Some?
    ensures var s := Run(Start(capacity, n), actions).value;
      Taken(s.log, capacity) <= Stored(s.log, capacity) &&
      Stored(s.log, capacity) == Taken(s.log, capacity) + Replayed(s.log, capacity)
  {
    QueueIsAtomic(capacity, n, actions);
    StartInv(capacity, n);
    RunKeepsInv(Start(capacity, n), actions);
  }
}
