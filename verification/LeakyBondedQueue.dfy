/** The bounded queue of system/common/leaky_bonded_queue.h that drops its oldest item when full. */
module LeakyBondedQueue {
  import opened Wrappers

  function Push<T>(q: seq<T>, capacity: nat, x: T): seq<T>
    requires capacity > 0
  {
    if |q| + 1 > capacity then q[1..] + [x] else q + [x]
  }

  /** What a push drops. */
  function Leaked<T>(q: seq<T>, capacity: nat): seq<T>
    requires capacity > 0
  {
    if |q| + 1 > capacity && |q| > 0 then [q[0]] else []
  }

  function LastOf<T>(s: seq<T>, n: nat): seq<T> {
    if |s| <= n then s else s[|s| - n..]
  }

  /** A queue fed one item at a time holds the last `capacity` of them, in order. */
  lemma PushIsLast<T>(s: seq<T>, capacity: nat, x: T)
    requires capacity > 0
    ensures |LastOf(s, capacity)| <= capacity
    ensures Push(LastOf(s, capacity), capacity, x) == LastOf(s + [x], capacity)
  {
  }

  /** What a dequeue comes to; the code takes the front whether there is one or not, and the front of an
      empty queue is undefined. */
  datatype Dequeued<T> = Undefined | Item(item: T)

  function Front<T>(q: seq<T>): Dequeued<T> {
    if q == [] then Undefined else Item(q[0])
  }

  /** What the header promises: the oldest item, or null for an empty queue. */
  ghost predicate AsDocumented<T>(q: seq<T>, result: Option<T>) {
    result == if q == [] then None else Some(q[0])
  }

  /** What a caller may be handed: the item, or anything at all where the outcome is undefined. */
  ghost predicate Possible<T>(outcome: Dequeued<T>, result: Option<T>) {
    outcome.Item? ==> result == Some(outcome.item)
  }

  /** A dequeue is sure to give what the header promises exactly when the queue is not empty. */
  lemma DequeueAsDocumented<T(!new)>(q: seq<T>, other: T)
    ensures (forall result :: Possible(Front(q), result) ==> AsDocumented(q, result)) <==> q != []
  {
    if q == [] {
      assert Possible(Front(q), Some(other)) && !AsDocumented(q, Some(other));
    }
  }

  class LeakyBondedQueue<T> {
    const capacity: nat
    var queue: seq<T>

    ghost predicate Valid()
      reads this
    {
      0 < capacity && |queue| <= capacity
    }

    constructor (capacity: nat)
      requires capacity > 0  // with capacity 0 the first Enqueue would pop an empty queue
      ensures Valid() && queue == [] && this.capacity == capacity
    {
      this.capacity := capacity;
      queue := [];
    }

    method Enqueue(item: T)
      requires Valid()
      modifies this
      ensures Valid() && queue == Push(old(queue), capacity, item)
    {
      if |queue| + 1 > capacity {
        queue := queue[1..];
      }
      queue := queue + [item];
    }

    method EnqueueWithPop(item: T) returns (popped: Option<T>)
      requires Valid()
      modifies this
      ensures Valid() && queue == Push(old(queue), capacity, item)
      ensures Leaked(old(queue), capacity) == if popped.Some? then [popped.value] else []
    {
      popped := None;
      if |queue| + 1 > capacity {
        popped := Some(queue[0]);
        queue := queue[1..];
      }
      queue := queue + [item];
    }

    method Dequeue() returns (outcome: Dequeued<T>)
      requires Valid()
      modifies this
      ensures outcome == Front(old(queue))
      ensures outcome.Item? ==> Valid() && [outcome.item] + queue == old(queue)
    {
      if |queue| == 0 {
        return Undefined;
      }
      outcome := Item(queue[0]);
      queue := queue[1..];
    }

    method Empty() returns (empty: bool)
      ensures empty == (queue == [])
    {
      empty := |queue| == 0;
    }

    method Length() returns (n: nat)
      ensures n == |queue|
    {
      n := |queue|;
    }

    method Clear()
      requires Valid()
      modifies this
      ensures Valid() && queue == []
    {
      while |queue| > 0
        invariant Valid()
      {
        queue := queue[1..];
      }
    }
  }
}
