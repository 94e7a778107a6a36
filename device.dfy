/** include/device/device.h: a device reads inputs, resolves each to an
    output, tracks a state and emits events. `read(input)` checks the input
    domain, resolves the input, queues the output when it lies in the output
    domain, computes the new state from the old state, the input and the
    output, and queues one event per event function, computed from the new
    state. The device is generic in the type `Ev` of the events it queues
    (`Event<EventT>` in the source) and queues the values the event functions
    return. The source's queue stores a copy of each event, made through the
    registration-checked `Event` constructor; that copy is not modelled. */
module Devices {
  import opened Wrappers
  import opened Queues
  import opened QueueReaders

  /** The events that `events` compute from `state`, in list order. */
  function Emit<S, Ev>(events: seq<S -> Ev>, state: S): (r: seq<Ev>)
    ensures |r| == |events|
    ensures forall i :: 0 <= i < |events| ==> r[i] == events[i](state)
  {
    if events == [] then [] else [events[0](state)] + Emit(events[1..], state)
  }

  /** The events of a concatenated list are the events of each part, in order. */
  lemma EmitAppend<S, Ev>(a: seq<S -> Ev>, b: seq<S -> Ev>, state: S)
    ensures Emit(a + b, state) == Emit(a, state) + Emit(b, state)
  {
    var l, r := Emit(a + b, state), Emit(a, state) + Emit(b, state);
    assert |l| == |r|;
    forall i | 0 <= i < |l| ensures l[i] == r[i] {
      if i < |a| {
        assert (a + b)[i] == a[i];
      } else {
        assert (a + b)[i] == b[i - |a|];
      }
    }
  }

  class GenericDevice<I, O, S, Ev> {
    var inputDomain: I -> bool
    var outputDomain: O -> bool
    var resolution: I -> O
    var stateFunction: (S, I, O) -> S
    var eventList: seq<S -> Ev>
    /** `pOutputQueue` and `pEventQueue`: queues owned by the device. */
    const outputQueue: Queue<O>
    const eventQueue: Queue<Ev>
    /** `mInputConnection`: the reader the device pulls its inputs from. */
    const inputConnection: QueueReader<I>
    var currentState: S
    /** The value-initialised `OutputT()`, `Event<EventT>()` and `StateT()`. */
    const outputZero: O
    const eventZero: Ev
    const stateZero: S

    /** The device's own objects are distinct. */
    ghost predicate Valid()
      reads this
    {
      (outputQueue as object) != (eventQueue as object)
    }

    /** The constructor from the five functions: empty queues, an expired
        input connection and the default state. */
    constructor (inputDomain: I -> bool, outputDomain: O -> bool, resolution: I -> O,
                 stateFunction: (S, I, O) -> S, eventList: seq<S -> Ev>,
                 outputZero: O, eventZero: Ev, stateZero: S)
      ensures Valid()
      ensures this.inputDomain == inputDomain && this.outputDomain == outputDomain
      ensures this.resolution == resolution && this.stateFunction == stateFunction
      ensures this.eventList == eventList && currentState == stateZero
      ensures this.outputZero == outputZero && this.eventZero == eventZero && this.stateZero == stateZero
      ensures fresh(outputQueue) && fresh(eventQueue) && fresh(inputConnection)
      ensures outputQueue.contents == [] && eventQueue.contents == [] && inputConnection.target == null
    {
      this.inputDomain := inputDomain;
      this.outputDomain := outputDomain;
      this.resolution := resolution;
      this.stateFunction := stateFunction;
      this.eventList := eventList;
      this.outputZero := outputZero;
      this.eventZero := eventZero;
      this.stateZero := stateZero;
      outputQueue := new Queue<O>(outputZero);
      eventQueue := new Queue<Ev>(eventZero);
      inputConnection := new QueueReader<I>();
      currentState := stateZero;
    }

    /** `state`: the current state. */
    function State(): S
      reads this
    {
      currentState
    }

    /** What `read(input)` does, relating the state before to the state after:
        the answer is whether `input` lies in the input domain; a rejected input
        changes nothing; an accepted one queues its output when that lies in
        the output domain, moves to the new state, and queues the events of
        the new state. The functions of the device stay as they were. */
    twostate predicate Reacted(input: I, ok: bool)
      reads this, outputQueue, eventQueue
    {
      && inputDomain == old(inputDomain) && outputDomain == old(outputDomain)
      && resolution == old(resolution) && stateFunction == old(stateFunction)
      && eventList == old(eventList)
      && ok == inputDomain(input)
      && (!ok ==>
            && currentState == old(currentState)
            && outputQueue.contents == old(outputQueue.contents)
            && eventQueue.contents == old(eventQueue.contents))
      && (ok ==>
            var output := resolution(input);
            && currentState == stateFunction(old(currentState), input, output)
            && outputQueue.contents == old(outputQueue.contents) + (if outputDomain(output) then [output] else [])
            && eventQueue.contents == old(eventQueue.contents) + Emit(eventList, currentState))
    }

    /** `read(input)`. */
    method ReadInput(input: I) returns (ok: bool)
      requires Valid()
      modifies this, outputQueue, eventQueue
      ensures Valid()
      ensures Reacted(input, ok)
    {
      if !inputDomain(input) {
        return false;
      }
      var output := resolution(input);
      if outputDomain(output) {
        outputQueue.Enqueue(output);
      }
      var state := stateFunction(currentState, input, output);
      var i := 0;
      while i < |eventList|
        invariant 0 <= i <= |eventList|
        invariant eventQueue.contents == old(eventQueue.contents) + Emit(eventList[..i], state)
        invariant outputQueue.contents == old(outputQueue.contents) + (if outputDomain(output) then [output] else [])
        invariant inputDomain == old(inputDomain) && outputDomain == old(outputDomain) && resolution == old(resolution)
        invariant stateFunction == old(stateFunction) && eventList == old(eventList) && currentState == old(currentState)
      {
        EmitAppend(eventList[..i], [eventList[i]], state);
        assert eventList[..i + 1] == eventList[..i] + [eventList[i]];
        eventQueue.Enqueue(eventList[i](state));
        i := i + 1;
      }
      assert eventList[..i] == eventList;
      currentState := state;
      ok := true;
    }

    /** `read()`: pulls one input from the connected queue and reads it.
        Throws when no queue is connected; answers false, changing nothing,
        when the connected queue is empty. */
    method Read() returns (r: Result<bool>)
      requires Valid()
      requires inputConnection.target != null ==>
                 (inputConnection.target as object) != outputQueue && (inputConnection.target as object) != eventQueue
      modifies this, outputQueue, eventQueue, inputConnection.target
      ensures Valid()
      ensures inputConnection.target == old(inputConnection.target)
      ensures inputConnection.target == null ==>
                r == Failure(RuntimeError("No input connected")) && unchanged(this, outputQueue, eventQueue)
      ensures inputConnection.target != null && old(inputConnection.target.contents) == [] ==>
                r == Success(false) && unchanged(this, outputQueue, eventQueue, inputConnection.target)
      ensures inputConnection.target != null && old(inputConnection.target.contents) != [] ==>
                && inputConnection.target.contents == old(inputConnection.target.contents)[1..]
                && r.Success? && Reacted(old(inputConnection.target.contents)[0], r.value)
    {
      if inputConnection.Expired() {
        return Failure(RuntimeError("No input connected"));
      }
      var empty := inputConnection.Empty();
      if empty.value {
        return Success(false);
      }
      var input := inputConnection.Dequeue();
      var ok := ReadInput(input.value);
      r := Success(ok);
    }

    /** `combine`: a new device whose event list is this device's followed by
        `other`'s. The composite domain, resolution and state functions of the
        source have empty bodies; the model gives the new device this device's
        functions and promises nothing about them. */
    method Combine(other: GenericDevice<I, O, S, Ev>) returns (d: GenericDevice<I, O, S, Ev>)
      ensures fresh(d) && fresh(d.outputQueue) && fresh(d.eventQueue) && fresh(d.inputConnection)
      ensures d.Valid()
      ensures d.eventList == eventList + other.eventList
      ensures d.currentState == stateZero
      ensures d.outputQueue.contents == [] && d.eventQueue.contents == [] && d.inputConnection.target == null
    {
      d := new GenericDevice(inputDomain, outputDomain, resolution, stateFunction,
                             eventList + other.eventList, outputZero, eventZero, stateZero);
    }

    /** `connect(QueueReader<InputT>)`: takes its inputs from the queue of
        `reader`; an expired reader throws `std::invalid_argument` and the old
        connection stays. */
    method ConnectInput(reader: QueueReader<I>) returns (r: Outcome)
      modifies inputConnection
      ensures reader.target == old(reader.target)
      ensures old(reader.target) == null ==>
                r == Fail(InvalidArgument("Queue reference expired")) && inputConnection.target == old(inputConnection.target)
      ensures old(reader.target) != null ==> r == Pass && inputConnection.target == old(reader.target)
    {
      if reader.Expired() {
        return Fail(InvalidArgument("Queue reference expired"));
      }
      inputConnection.target := reader.target;
      r := Pass;
    }

    /** `connect(GenericDevice)`: takes its inputs from the output queue of `other`. */
    method ConnectFrom<I2, S2, Ev2>(other: GenericDevice<I2, I, S2, Ev2>)
      modifies inputConnection
      ensures inputConnection.target == other.outputQueue
    {
      inputConnection.target := other.outputQueue;
    }

    /** `connect(QueueReader<OutputT>&)`: points `reader` at the output queue. */
    method ConnectOutputReader(reader: QueueReader<O>)
      modifies reader
      ensures reader.target == outputQueue
    {
      var r := reader.Connect(outputQueue);
    }

    /** `connect(QueueReader<Event<EventT>>&)`: points `reader` at the event queue. */
    method ConnectEventReader(reader: QueueReader<Ev>)
      modifies reader
      ensures reader.target == eventQueue
    {
      var r := reader.Connect(eventQueue);
    }

    /** Drops the input connection. */
    method Disconnect()
      modifies inputConnection
      ensures inputConnection.target == null
    {
      inputConnection.Disconnect();
    }

    /** `swap` as written: exchanges the input domain, output domain and
        resolution function with `other`, but swaps the state function and the
        event list of this device with themselves, so those stay. */
    method SwapAsWritten(other: GenericDevice<I, O, S, Ev>)
      modifies this, other
      ensures inputDomain == old(other.inputDomain) && other.inputDomain == old(inputDomain)
      ensures outputDomain == old(other.outputDomain) && other.outputDomain == old(outputDomain)
      ensures resolution == old(other.resolution) && other.resolution == old(resolution)
      ensures stateFunction == old(stateFunction) && other.stateFunction == old(other.stateFunction)
      ensures eventList == old(eventList) && other.eventList == old(other.eventList)
      ensures currentState == old(currentState) && other.currentState == old(other.currentState)
    {
      inputDomain, other.inputDomain := other.inputDomain, inputDomain;
      outputDomain, other.outputDomain := other.outputDomain, outputDomain;
      resolution, other.resolution := other.resolution, resolution;
      stateFunction, stateFunction := stateFunction, stateFunction;
      eventList, eventList := eventList, eventList;
    }

    /** `swap` as intended: exchanges all five functions with `other`. */
    method Swap(other: GenericDevice<I, O, S, Ev>)
      modifies this, other
      ensures inputDomain == old(other.inputDomain) && other.inputDomain == old(inputDomain)
      ensures outputDomain == old(other.outputDomain) && other.outputDomain == old(outputDomain)
      ensures resolution == old(other.resolution) && other.resolution == old(resolution)
      ensures stateFunction == old(other.stateFunction) && other.stateFunction == old(stateFunction)
      ensures eventList == old(other.eventList) && other.eventList == old(eventList)
      ensures currentState == old(currentState) && other.currentState == old(other.currentState)
    {
      inputDomain, other.inputDomain := other.inputDomain, inputDomain;
      outputDomain, other.outputDomain := other.outputDomain, outputDomain;
      resolution, other.resolution := other.resolution, resolution;
      stateFunction, other.stateFunction := other.stateFunction, stateFunction;
      eventList, other.eventList := other.eventList, eventList;
    }
  }

  function Identity(x: int): int { x }
  function Twice(x: int): int { 2 * x }
  function KeepState(s: int, i: int, o: int): int { s }
  function AddInput(s: int, i: int, o: int): int { s + i }
  predicate AnyInt(x: int) { true }

  /** After `a.swap(b)` as written, `a` keeps its own state function, so it
      goes on computing states as before; after the intended swap it computes
      them as `b` did. */
  method SwapDiscrepancy()
  {
    var a := new GenericDevice<int, int, int, int>(AnyInt, AnyInt, Identity, KeepState, [], 0, 0, 0);
    var b := new GenericDevice<int, int, int, int>(AnyInt, AnyInt, Twice, AddInput, [], 0, 0, 0);
    a.SwapAsWritten(b);
    assert a.resolution == Twice && a.stateFunction == KeepState;
    var ok := a.ReadInput(3);
    assert a.State() == 0;
    a.Swap(b);
    assert a.resolution == Identity && a.stateFunction == AddInput;
  }
}
