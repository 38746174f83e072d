/**
 * One queue of the background task registry: a FIFO of work descriptors (the source's
 * `ConcurrentQueue<T>`) paired with an availability counter (its `SemaphoreSlim`,
 * created with count 0). Modelled sequentially: a dequeue that would wait is `WouldBlock`.
 */
module WorkQueues {

  /**
   * What a dequeue yields: the wait was cancelled; it would block (count 0); it took
   * the head item; or the count was taken but `TryDequeue` found nothing (`Missing`).
   */
  datatype Wait<T> = Cancelled | WouldBlock | Got(item: T) | Missing

  /** The queued items, oldest first, and the semaphore's current count. */
  datatype QueueState<T> = QueueState(items: seq<T>, signal: nat)

  /** The pairing invariant: one available signal per queued item. */
  predicate Consistent<T>(s: QueueState<T>)
  {
    s.signal == |s.items|
  }

  /** A new queue and `new SemaphoreSlim(0)`. */
  function Initial<T>(): (s: QueueState<T>)
    ensures Consistent(s) && s.items == []
  {
    QueueState([], 0)
  }

  /** `Enqueue(x)` followed by `Release()`. */
  function Enqueued<T>(s: QueueState<T>, x: T): (r: QueueState<T>)
    ensures Consistent(s) <==> Consistent(r)
    ensures |r.items| == |s.items| + 1 && r.items[|s.items|] == x && r.items[..|s.items|] == s.items
  {
    QueueState(s.items + [x], s.signal + 1)
  }

  /**
   * `WaitAsync(token)` followed by `TryDequeue`. A token that is already cancelled wins
   * over an available count; a count of 0 waits.
   */
  function Dequeued<T>(s: QueueState<T>, cancelled: bool): (r: (Wait<T>, QueueState<T>))
    ensures r.0.Cancelled? <==> cancelled
    ensures r.0.WouldBlock? <==> !cancelled && s.signal == 0
    ensures r.0.Cancelled? || r.0.WouldBlock? ==> r.1 == s
    ensures r.0.Got? || r.0.Missing? ==> r.1.signal + 1 == s.signal
    ensures r.0.Got? ==> s.items != [] && r.0.item == s.items[0] && r.1.items == s.items[1..]
  {
    if cancelled then (Cancelled, s)
    else if s.signal == 0 then (WouldBlock, s)
    else if s.items == [] then (Missing, QueueState(s.items, s.signal - 1))
    else (Got(s.items[0]), QueueState(s.items[1..], s.signal - 1))
  }

  /** Under the pairing invariant a signalled dequeue always finds an item, and the invariant survives. */
  lemma SignalAlwaysFindsItem<T>(s: QueueState<T>, cancelled: bool)
    requires Consistent(s)
    ensures !Dequeued(s, cancelled).0.Missing?
    ensures Consistent(Dequeued(s, cancelled).1)
    ensures !cancelled ==> (Dequeued(s, cancelled).0.Got? <==> s.items != [])
  {
  }

  /** Enqueueing each of `xs` in turn. */
  function EnqueuedAll<T>(s: QueueState<T>, xs: seq<T>): QueueState<T>
    decreases |xs|
  {
    if xs == [] then s else EnqueuedAll(Enqueued(s, xs[0]), xs[1..])
  }

  /** `n` uncancelled dequeues in a row: the items they got, and the state they leave. */
  function DequeuedN<T>(s: QueueState<T>, n: nat): (seq<T>, QueueState<T>)
    decreases n
  {
    if n == 0 then ([], s)
    else
      var first := Dequeued(s, false);
      var rest := DequeuedN(first.1, n - 1);
      ((if first.0.Got? then [first.0.item] else []) + rest.0, rest.1)
  }

  lemma {:induction false} EnqueuedAllAppends<T>(s: QueueState<T>, xs: seq<T>)
    ensures EnqueuedAll(s, xs).items == s.items + xs
    ensures EnqueuedAll(s, xs).signal == s.signal + |xs|
    decreases |xs|
  {
    if xs != [] {
      EnqueuedAllAppends(Enqueued(s, xs[0]), xs[1..]);
      assert s.items + [xs[0]] + xs[1..] == s.items + xs;
    }
  }

  lemma {:induction false} DrainConsistent<T>(items: seq<T>)
    ensures DequeuedN(QueueState(items, |items|), |items|).0 == items
    ensures DequeuedN(QueueState(items, |items|), |items|).1 == QueueState([], 0)
  {
    if items != [] {
      DrainConsistent(items[1..]);
    }
  }

  /**
   * FIFO, no loss, no duplication: after enqueueing `xs` on a consistent queue, as many
   * dequeues as there are items return the old items and then `xs`, in order, and leave
   * the queue empty.
   */
  lemma FifoRoundTrip<T>(s: QueueState<T>, xs: seq<T>)
    requires Consistent(s)
    ensures DequeuedN(EnqueuedAll(s, xs), |s.items| + |xs|).0 == s.items + xs
    ensures DequeuedN(EnqueuedAll(s, xs), |s.items| + |xs|).1 == Initial()
  {
    EnqueuedAllAppends(s, xs);
    assert EnqueuedAll(s, xs) == QueueState(s.items + xs, |s.items + xs|);
    DrainConsistent(s.items + xs);
  }

  /** A queue with its semaphore. */
  class WorkQueue<T> {
    var items: seq<T>
    var signal: nat

    function State(): QueueState<T>
      reads this
    {
      QueueState(items, signal)
    }

    ghost predicate Valid()
      reads this
    {
      Consistent(State())
    }

    constructor ()
      ensures Valid() && State() == Initial()
    {
      items := [];
      signal := 0;
    }

    /** `_queue.Enqueue(x); _signal.Release();` */
    method Enqueue(x: T)
      modifies this
      ensures State() == Enqueued(old(State()), x)
    {
      items := items + [x];
      signal := signal + 1;
    }

    /** `await _signal.WaitAsync(token); _queue.TryDequeue(out var item);` */
    method Dequeue(cancelled: bool) returns (w: Wait<T>)
      modifies this
      ensures w == Dequeued(old(State()), cancelled).0
      ensures State() == Dequeued(old(State()), cancelled).1
    {
      if cancelled {
        return Cancelled;
      }
      if signal == 0 {
        return WouldBlock;
      }
      signal := signal - 1;
      if items == [] {
        return Missing;
      }
      w := Got(items[0]);
      items := items[1..];
    }
  }
}
