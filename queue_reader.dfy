/** include/queue/queue_reader.h: a non-owning handle on a queue. The source
    holds a `std::weak_ptr`; here `target` is the queue it points at, and `null`
    is the expired handle (never connected, disconnected, or reset). */
module QueueReaders {
  import opened Wrappers
  import opened Queues

  class QueueReader<T> {
    var target: Queue?<T>

    /** A default reader points at nothing, so it is expired. */
    constructor ()
      ensures target == null
    {
      target := null;
    }

    /** A reader on `queue`; a null queue gives an expired reader. */
    constructor Of(queue: Queue?<T>)
      ensures target == queue
    {
      target := queue;
    }

    /** The copy constructor: the copy shares the target of `other`. */
    constructor Copy(other: QueueReader<T>)
      ensures target == other.target
    {
      target := other.target;
    }

    /** Whether the reader has no live target. */
    predicate Expired()
      reads this
    {
      target == null
    }

    /** Points the reader at `queue`; a null queue is refused and the reader
        keeps its old target. */
    method Connect(queue: Queue?<T>) returns (r: Outcome)
      modifies this
      ensures queue == null ==> r == Fail(InvalidArgument("Queue reference empty")) && target == old(target)
      ensures queue != null ==> r == Pass && target == queue
    {
      if queue == null {
        return Fail(InvalidArgument("Queue reference empty"));
      }
      target := queue;
      r := Pass;
    }

    /** Dequeues from the target; fails when the reader is expired. */
    method Dequeue() returns (r: Result<T>)
      modifies target
      ensures target == old(target)
      ensures target == null ==> r == Failure(RuntimeError("Queue reference expired"))
      ensures target != null && old(target.contents) == [] ==>
                r == Success(target.zero) && target.contents == []
      ensures target != null && old(target.contents) != [] ==>
                r == Success(old(target.contents)[0]) && target.contents == old(target.contents)[1..]
    {
      if Expired() {
        return Failure(RuntimeError("Queue reference expired"));
      }
      var x := target.Dequeue();
      r := Success(x);
    }

    /** Makes the reader expired. */
    method Disconnect()
      modifies this
      ensures target == null
    {
      target := null;
    }

    /** Whether the target is empty; fails when the reader is expired. */
    method Empty() returns (r: Result<bool>)
      ensures target == null ==> r == Failure(RuntimeError("Queue reference expired"))
      ensures target != null ==> r == Success(target.contents == [])
    {
      if Expired() {
        return Failure(RuntimeError("Queue reference expired"));
      }
      var b := target.Empty();
      r := Success(b);
    }

    /** The size of the target; fails when the reader is expired. */
    method Size() returns (r: Result<nat>)
      ensures target == null ==> r == Failure(RuntimeError("Queue reference expired"))
      ensures target != null ==> r == Success(|target.contents|)
    {
      if Expired() {
        return Failure(RuntimeError("Queue reference expired"));
      }
      var n := target.Size();
      r := Success(n);
    }

    /** Exchanges the targets of two readers. */
    method Swap(other: QueueReader<T>)
      modifies this, other
      ensures target == old(other.target) && other.target == old(target)
    {
      target, other.target := other.target, target;
    }
  }

  /** The reader's behaviour on a default reader, a connected reader and a
      disconnected one. */
  method ReaderScenario()
  {
    var expired := new QueueReader<int>();
    assert expired.Expired();
    var d := expired.Dequeue();
    assert d.Failure?;
    var q := new Queue<int>(0);
    var connected := new QueueReader<int>.Of(q);
    var e := connected.Empty();
    assert e == Success(true);
    q.Enqueue(7);
    e := connected.Empty();
    assert e == Success(false);
    d := connected.Dequeue();
    assert d == Success(7);
    var copy := new QueueReader<int>.Copy(connected);
    connected.Disconnect();
    assert connected.Expired() && !copy.Expired();
    var c := connected.Connect(null);
    assert c.Fail? && connected.Expired();
  }
}
