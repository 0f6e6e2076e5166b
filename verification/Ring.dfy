/** The client's bounded queue: a ring buffer over a fixed array that refines a FIFO sequence. */
module RingQueue {
  /** The fields of the queue that its mutex protects. */
  datatype Ring<T> = Ring(buffer: seq<T>, head: nat, tail: nat, count: nat) {
    predicate Ok() {
      && |buffer| > 0 && head < |buffer| && count <= |buffer|
      && tail == (head + count) % |buffer|
    }

    /** The queued items, oldest first. */
    function Contents(): (items: seq<T>)
      requires Ok()
      ensures |items| == count
    {
      seq(count, i requires 0 <= i < count => buffer[(head + i) % |buffer|])
    }

    function Push(x: T): Ring<T>
      requires Ok()
    {
      Ring(buffer[tail := x], head, (tail + 1) % |buffer|, count + 1)
    }

    function Pop(): Ring<T>
      requires Ok() && count > 0
    {
      Ring(buffer, (head + 1) % |buffer|, tail, count - 1)
    }
  }

  lemma Wrap(a: nat, m: nat)
    requires a < 2 * m
    ensures a % m == if a < m then a else a - m
  {
    var q := a / m;
    assert a == q * m + a % m;
    assert q == 0 ==> q * m == 0;
    assert q == 1 ==> q * m == m;
    assert q >= 2 ==> q * m >= 2 * m;
  }

  lemma PushAppends<T>(r: Ring<T>, x: T)
    requires r.Ok() && r.count < |r.buffer|
    ensures r.Push(x).Ok() && r.Push(x).Contents() == r.Contents() + [x]
  {
    var n := |r.buffer|;
    Wrap(r.head + r.count, n);
    Wrap(r.tail + 1, n);
    Wrap(r.head + r.count + 1, n);
    forall i | 0 <= i < r.count ensures r.Push(x).Contents()[i] == r.Contents()[i] {
      Wrap(r.head + i, n);
    }
  }

  lemma PopRemovesFirst<T>(r: Ring<T>)
    requires r.Ok() && r.count > 0
    ensures r.Pop().Ok() && r.Contents() == [r.buffer[r.head]] + r.Pop().Contents()
  {
    var n := |r.buffer|;
    Wrap(r.head, n);
    Wrap(r.head + 1, n);
    Wrap(r.head + r.count, n);
    Wrap(r.Pop().head + r.count - 1, n);
    forall i | 0 <= i < r.count - 1 ensures r.Pop().Contents()[i] == r.Contents()[i + 1] {
      Wrap(r.head + i + 1, n);
      Wrap(r.Pop().head + i, n);
    }
  }

  /** How one turn under the mutex ends: the operation is done, refused, or the caller must wait. */
  datatype PushTurn = Stored | Full | WaitNotFull
  datatype PopTurn<T> = Taken(item: T) | Empty | WaitNotEmpty

  class Queue<T(0)> {
    var buffer: array<T>
    var head: nat
    var tail: nat
    var count: nat

    function Value(): Ring<T>
      reads this, buffer
    {
      Ring(buffer[..], head, tail, count)
    }

    ghost predicate Valid()
      reads this, buffer
    {
      Value().Ok()
    }

    ghost function Contents(): seq<T>
      requires Valid()
      reads this, buffer
    {
      Value().Contents()
    }

    constructor (capacity: nat)
      requires capacity > 0
      ensures Valid() && Contents() == [] && buffer.Length == capacity && fresh(buffer)
    {
      buffer := new T[capacity];
      head, tail, count := 0, 0, 0;
    }

    /** `queue_create` refuses a capacity of zero. */
    static method Create(capacity: nat) returns (q: Queue?<T>)
      ensures q == null <==> capacity == 0
      ensures q != null ==> fresh(q) && q.Valid() && q.Contents() == [] && q.buffer.Length == capacity
    {
      if capacity == 0 {
        return null;
      }
      q := new Queue(capacity);
    }

    /** One turn of a push between taking the mutex and releasing it or waiting. */
    method PushTurn(data: T, block: bool) returns (turn: PushTurn)
      requires Valid()
      modifies this, buffer
      ensures Valid() && buffer == old(buffer)
      ensures turn == Stored <==> |old(Contents())| < buffer.Length
      ensures turn == Stored ==> Value() == old(Value()).Push(data) && Contents() == old(Contents()) + [data]
      ensures turn != Stored ==> turn == (if block then WaitNotFull else Full) && Value() == old(Value())
    {
      if count == buffer.Length {
        return if block then WaitNotFull else Full;
      }
      PushAppends(Value(), data);
      buffer[tail] := data;
      tail := (tail + 1) % buffer.Length;
      count := count + 1;
      assert Value() == old(Value()).Push(data);
      return Stored;
    }

    /** One turn of a pop. */
    method PopTurn(block: bool) returns (turn: PopTurn<T>)
      requires Valid()
      modifies this
      ensures Valid() && buffer == old(buffer)
      ensures turn.Taken? <==> old(Contents()) != []
      ensures turn.Taken? ==>
        Value() == old(Value()).Pop() && old(Contents()) == [turn.item] + Contents()
      ensures !turn.Taken? ==> turn == (if block then WaitNotEmpty else Empty) && Value() == old(Value())
    {
      if count == 0 {
        return if block then WaitNotEmpty else Empty;
      }
      PopRemovesFirst(Value());
      var item := buffer[head];
      head := (head + 1) % buffer.Length;
      count := count - 1;
      assert Value() == old(Value()).Pop();
      return Taken(item);
    }

    /** `pthread_cond_wait`: while the mutex is released other threads push and pop at will. */
    method Wait()
      requires Valid()
      modifies this, buffer
      ensures Valid() && buffer == old(buffer)
    {
      var n := buffer.Length;
      for i := 0 to n
        invariant Valid() && buffer == old(buffer) && buffer.Length == n
      {
        buffer[i] := *;
      }
      var newHead: nat :| newHead < n;
      var newCount: nat :| newCount <= n;
      head, count, tail := newHead, newCount, (newHead + newCount) % n;
    }

    /** The whole push, with its wait loop. `before` is what the queue held when the mutex was last
        taken. A blocking push that is still asleep after the given number of wakeups is reported
        as waiting. */
    method Push(data: T, block: bool, wakeups: nat) returns (turn: PushTurn, ghost before: seq<T>)
      requires Valid()
      modifies this, buffer
      ensures Valid() && buffer == old(buffer)
      ensures turn == Stored ==> |before| < buffer.Length && Contents() == before + [data]
      ensures turn != Stored ==> |before| == buffer.Length && Contents() == before
      ensures turn == Full ==> !block
      ensures turn == WaitNotFull ==> block
      ensures !block || |old(Contents())| < buffer.Length ==> before == old(Contents())
    {
      var left := wakeups;
      before := Contents();
      turn := PushTurn(data, block);
      while turn == WaitNotFull && left > 0
        invariant Valid() && buffer == old(buffer)
        invariant turn == Stored ==> |before| < buffer.Length && Contents() == before + [data]
        invariant turn != Stored ==> |before| == buffer.Length && Contents() == before
        invariant (turn == Full ==> !block) && (turn == WaitNotFull ==> block)
        invariant !block || |old(Contents())| < buffer.Length ==> before == old(Contents()) && turn != WaitNotFull
        decreases left
      {
        Wait();
        left := left - 1;
        before := Contents();
        turn := PushTurn(data, block);
      }
    }

    /** The whole pop, with its wait loop. */
    method Pop(block: bool, wakeups: nat) returns (turn: PopTurn<T>, ghost before: seq<T>)
      requires Valid()
      modifies this, buffer
      ensures Valid() && buffer == old(buffer)
      ensures turn.Taken? ==> before == [turn.item] + Contents()
      ensures !turn.Taken? ==> before == [] == Contents()
      ensures turn.Empty? ==> !block
      ensures turn.WaitNotEmpty? ==> block
      ensures !block || old(Contents()) != [] ==> before == old(Contents())
    {
      var left := wakeups;
      before := Contents();
      turn := PopTurn(block);
      while turn.WaitNotEmpty? && left > 0
        invariant Valid() && buffer == old(buffer)
        invariant turn.Taken? ==> before == [turn.item] + Contents()
        invariant !turn.Taken? ==> before == [] == Contents()
        invariant (turn.Empty? ==> !block) && (turn.WaitNotEmpty? ==> block)
        invariant !block || old(Contents()) != [] ==> before == old(Contents()) && !turn.WaitNotEmpty?
        decreases left
      {
        Wait();
        left := left - 1;
        before := Contents();
        turn := PopTurn(block);
      }
    }

    method Size() returns (size: nat)
      requires Valid()
      ensures size == |Contents()|
    {
      return count;
    }

    method IsEmpty() returns (empty: bool)
      requires Valid()
      ensures empty <==> Contents() == []
    {
      return count == 0;
    }
  }
}
