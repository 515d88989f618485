/** Queue primitives of the scheduler.

    The C program links process control blocks through a `next` pointer;
    here a queue is the sequence of the elements it links, head first.
    Walking to the tail and splicing pointers become sequence concatenation.
 */
module Queues {

  datatype Option<+T> = None | Some(value: T)

  /** enqueue_tail: the element becomes the new last element and nothing
      else moves. */
  function EnqueueTail<T>(q: seq<T>, p: T): (r: seq<T>)
    ensures |r| == |q| + 1
    ensures r[..|q|] == q && r[|q|] == p
    ensures multiset(r) == multiset(q) + multiset{p}
  {
    q + [p]
  }

  /** enqueue_front: the element becomes the new head and every other
      element keeps its order behind it. */
  function EnqueueFront<T>(q: seq<T>, p: T): (r: seq<T>)
    ensures |r| == |q| + 1
    ensures r[0] == p && r[1..] == q
    ensures multiset(r) == multiset(q) + multiset{p}
  {
    [p] + q
  }

  /** append_queue: the pair (dest', src') after moving every element of
      `src`, in order, onto the end of `dest`; `src` is left empty. An empty
      `src` leaves `dest` as it was. */
  function AppendQueue<T>(dest: seq<T>, src: seq<T>): (r: (seq<T>, seq<T>))
    ensures r.1 == []
    ensures |r.0| == |dest| + |src|
    ensures r.0[..|dest|] == dest && r.0[|dest|..] == src
    ensures multiset(r.0) == multiset(dest) + multiset(src)
    ensures src == [] ==> r.0 == dest
  {
    if src == [] then (dest, src) else (dest + src, [])
  }

  /** deqPcb: removes the head; an empty queue yields nothing. */
  function Dequeue<T>(q: seq<T>): (r: Option<(T, seq<T>)>)
    ensures r.None? <==> q == []
    ensures r.Some? ==> [r.value.0] + r.value.1 == q
  {
    if q == [] then None else Some((q[0], q[1..]))
  }

  /** First in, first out: an element enqueued at the tail does not
      overtake the elements already queued. */
  lemma FifoOrder<T>(q: seq<T>, p: T)
    ensures q == [] ==> Dequeue(EnqueueTail(q, p)) == Some((p, []))
    ensures q != [] ==> Dequeue(EnqueueTail(q, p)) == Some((q[0], EnqueueTail(q[1..], p)))
  {
    if q != [] {
      assert (q + [p])[1..] == q[1..] + [p];
    }
  }

  /** An element put back at the front is the next one dequeued, and the
      queue behind it is exactly as it was. */
  lemma FrontIsNext<T>(q: seq<T>, p: T)
    ensures Dequeue(EnqueueFront(q, p)) == Some((p, q))
  {
    assert ([p] + q)[1..] == q;
  }

  /** Dequeuing the head and putting it back at the front restores the
      queue: the round trip of a dispatch followed by a preemption. */
  lemma DequeueFrontRoundTrip<T>(q: seq<T>)
    requires q != []
    ensures EnqueueFront(Dequeue(q).value.1, Dequeue(q).value.0) == q
  {
  }
}
