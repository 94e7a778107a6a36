/** include/queue/queue.h: a FIFO queue. The source wraps a lock-free
    concurrent queue; in sequential use it behaves as the sequence `contents`,
    front first. */
module Queues {

  class Queue<T> {
    /** The elements in the queue, oldest first. */
    var contents: seq<T>
    /** The value-initialised element `T()`, returned by a dequeue on an empty queue. */
    const zero: T

    constructor (zero: T)
      ensures contents == [] && this.zero == zero
    {
      contents := [];
      this.zero := zero;
    }

    /** Removes and returns the oldest element; on an empty queue returns
        `zero` and leaves the queue empty. */
    method Dequeue() returns (x: T)
      modifies this
      ensures old(contents) == [] ==> x == zero && contents == []
      ensures old(contents) != [] ==> x == old(contents)[0] && contents == old(contents)[1..]
    {
      x := zero;
      if contents != [] {
        x := contents[0];
        contents := contents[1..];
      }
    }

    /** Appends an element at the back. */
    method Enqueue(x: T)
      modifies this
      ensures contents == old(contents) + [x]
    {
      contents := contents + [x];
    }

    /** The number of queued elements. */
    method Size() returns (n: nat)
      ensures n == |contents|
    {
      n := |contents|;
    }

    /** Whether the queue holds nothing, computed as `Size() == 0`. */
    method Empty() returns (b: bool)
      ensures b <==> contents == []
    {
      var n := Size();
      b := n == 0;
    }
  }

  /** A short run of the queue showing first-in first-out order and the default
      value on an empty queue. */
  method FifoScenario(a: int, b: int)
  {
    var q := new Queue<int>(0);
    q.Enqueue(a);
    q.Enqueue(b);
    var n := q.Size();
    assert n == 2;
    var x := q.Dequeue();
    assert x == a;
    x := q.Dequeue();
    assert x == b;
    x := q.Dequeue();
    assert x == 0;
    var e := q.Empty();
    assert e;
  }
}
