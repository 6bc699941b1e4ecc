// The task queue of threadpool.c: a ring of fixed size with head, tail and count, and the two critical sections that use
// it. The functions give what they do in terms of the list of pending tasks.
module TaskRing {

  datatype Shutdown = Running | Immediate | Graceful

  // What threadpool_add returns.
  datatype AddResult = Accepted | QueueFull | ShuttingDown

  function AddTo<T>(pending: seq<T>, size: nat, shutdown: Shutdown, task: T): (AddResult, seq<T>) {
    if |pending| == size then (QueueFull, pending)
    else if !shutdown.Running? then (ShuttingDown, pending)
    else (Accepted, pending + [task])
  }

  // What a worker that holds the lock does next.
  datatype Turn<T> = Sleep | Exit | Start(task: T)

  function TurnOf<T>(pending: seq<T>, shutdown: Shutdown): Turn<T> {
    if pending == [] && shutdown.Running? then Sleep
    else if shutdown.Immediate? || (shutdown.Graceful? && pending == []) then Exit
    else Start(pending[0])
  }

  // The list a ring holds, oldest first.
  function Unrolled<T>(ring: seq<T>, head: nat, count: nat): (pending: seq<T>)
    requires count <= |ring| && (head < |ring| || (ring == [] && head == 0))
    ensures |pending| == count
  {
    if head + count <= |ring| then ring[head..head + count] else ring[head..] + ring[..head + count - |ring|]
  }

  function Next(i: nat, size: nat): nat {
    if i + 1 == size then 0 else i + 1
  }

  // Where the next task goes.
  function Slot(head: nat, count: nat, size: nat): nat
    requires head < size && count <= size
  {
    if head + count < size then head + count else head + count - size
  }

  lemma SlotIsModulo(head: nat, count: nat, size: nat)
    requires head < size && count <= size
    ensures Slot(head, count, size) == (head + count) % size
  {
    if head + count >= size {
      assert (head + count) / size == 1;
    }
  }

  lemma PutUnrolled<T>(ring: seq<T>, head: nat, count: nat, x: T)
    requires head < |ring| && count < |ring|
    ensures var tail := Slot(head, count, |ring|);
            && Unrolled(ring[tail := x], head, count + 1) == Unrolled(ring, head, count) + [x]
            && Slot(head, count + 1, |ring|) == Next(tail, |ring|)
  {
  }

  lemma TakeUnrolled<T>(ring: seq<T>, head: nat, count: nat)
    requires head < |ring| && 0 < count <= |ring|
    ensures var head' := Next(head, |ring|);
            && Unrolled(ring, head, count)[0] == ring[head]
            && Unrolled(ring, head', count - 1) == Unrolled(ring, head, count)[1..]
            && Slot(head', count - 1, |ring|) == Slot(head, count, |ring|)
  {
  }

  // Does threadpool_free give the pool back?
  predicate Frees(started: int) {
    started <= 0
  }

  class Ring<T(0)> {
    const queueSize: nat
    const queue: array<T>
    var head: nat
    var tail: nat
    var count: nat
    var shutdown: Shutdown
    var started: int

    ghost predicate Valid()
      reads this
    {
      && queue.Length == queueSize && count <= queueSize
      && if queueSize == 0 then head == 0 && tail == 0 else head < queueSize && tail == Slot(head, count, queueSize)
    }

    ghost function Pending(): seq<T>
      requires Valid()
      reads this, queue
    {
      Unrolled(queue[..], head, count)
    }

    constructor (size: nat, threads: nat)
      ensures Valid() && Pending() == [] && queueSize == size && shutdown == Running && started == threads && fresh(queue)
    {
      queueSize := size;
      queue := new T[size];
      head, tail, count := 0, 0, 0;
      shutdown, started := Running, threads;
    }

    // The critical section of threadpool_add, but for the signal.
    method Add(task: T) returns (err: AddResult)
      requires Valid()
      modifies this`tail, this`count, queue
      ensures Valid() && (queueSize > 0 ==> tail == (head + count) % queueSize)
      ensures (err, Pending()) == AddTo(old(Pending()), queueSize, shutdown, task)
      ensures err.Accepted? <==> old(count) < queueSize && shutdown.Running?
      ensures err.QueueFull? <==> old(count) == queueSize
      ensures Pending() == if err.Accepted? then old(Pending()) + [task] else old(Pending())
      ensures count == |Pending()|
    {
      hide Unrolled;
      if queueSize > 0 {
        SlotIsModulo(head, count, queueSize);
      }
      var next := tail + 1;
      next := if next == queueSize then 0 else next;
      if count == queueSize {
        return QueueFull;
      }
      if !shutdown.Running? {
        return ShuttingDown;
      }
      PutUnrolled(queue[..], head, count, task);
      queue[tail] := task;
      assert queue[..] == old(queue[..])[tail := task];
      tail := next;
      count := count + 1;
      SlotIsModulo(head, count, queueSize);
      return Accepted;
    }

    // One pass of a worker through the lock.
    method Turn() returns (turn: Turn<T>)
      requires Valid()
      modifies this`head, this`count, this`started
      ensures Valid()
      ensures turn == TurnOf(old(Pending()), shutdown)
      ensures turn.Sleep? <==> old(count) == 0 && shutdown.Running?
      ensures turn.Exit? <==> shutdown.Immediate? || (shutdown.Graceful? && old(count) == 0)
      ensures turn.Start? ==> old(count) > 0 && turn.task == old(queue[head])
      ensures Pending() == if turn.Start? then old(Pending())[1..] else old(Pending())
      ensures started == if turn.Exit? then old(started) - 1 else old(started)
    {
      hide Unrolled;
      if count == 0 && shutdown.Running? {
        return Sleep;
      }
      if shutdown.Immediate? || (shutdown.Graceful? && count == 0) {
        started := started - 1;
        return Exit;
      }
      TakeUnrolled(queue[..], head, count);
      turn := Start(queue[head]);
      head := head + 1;
      head := if head == queueSize then 0 else head;
      count := count - 1;
    }

    // threadpool_free frees only a pool whose workers have all left.
    method Free() returns (r: int)
      ensures r == if Frees(started) then 0 else -1
    {
      r := if started > 0 then -1 else 0;
    }
  }
}
