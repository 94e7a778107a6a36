/** The switch circuit of the device tests (test/include/device_test.h), with
    volts and amps as exact reals instead of doubles, run through the device
    model. */
module CircuitScenario {
  import opened Wrappers
  import opened Queues
  import opened QueueReaders
  import opened Devices

  datatype CircuitState = CircuitState(isOn: bool, isIntact: bool)
  datatype CircuitEvent = On | Off | Broken | NoEvent

  /** The switch: a broken circuit stays broken, a low voltage turns it off,
      too much current breaks it, otherwise it turns (or stays) on. */
  function Switch(current: CircuitState, volts: real, amps: real): CircuitState
  {
    if !current.isIntact then current
    else if volts < 2.0 then CircuitState(false, true)
    else if amps > 1.0 then CircuitState(false, false)
    else if !current.isOn then CircuitState(true, true)
    else current
  }

  /** Input voltages must not be negative. */
  predicate VoltsInDomain(v: real) { v >= 0.0 }
  /** Output currents must not exceed two amps. */
  predicate AmpsInDomain(a: real) { a <= 2.0 }
  /** The current through the hundred-ohm switch. */
  function Current(v: real): real { v / 100.0 }
  function BrokenEvent(s: CircuitState): CircuitEvent { if !s.isIntact then Broken else NoEvent }
  function PowerEvent(s: CircuitState): CircuitEvent { if s.isOn then On else Off }

  method NewCircuit() returns (d: GenericDevice<real, real, CircuitState, CircuitEvent>)
    ensures fresh(d) && fresh(d.outputQueue) && fresh(d.eventQueue) && fresh(d.inputConnection)
    ensures d.Valid() && d.inputConnection.target == null
    ensures d.outputQueue.contents == [] && d.eventQueue.contents == []
    ensures d.currentState == CircuitState(false, true)
    ensures d.inputDomain == VoltsInDomain && d.outputDomain == AmpsInDomain
    ensures d.resolution == Current && d.stateFunction == Switch
    ensures d.eventList == [BrokenEvent, PowerEvent]
  {
    d := new GenericDevice<real, real, CircuitState, CircuitEvent>(
      VoltsInDomain, AmpsInDomain, Current, Switch, [BrokenEvent, PowerEvent],
      0.0, NoEvent, CircuitState(false, true));
  }

  /** `read_input`: a negative voltage is refused and produces nothing;
      five volts is accepted, queues its current and turns the switch on. */
  method ReadInputScenario()
  {
    var d := NewCircuit();
    var ok := d.ReadInput(-1.0);
    assert !ok && d.outputQueue.contents == [] && d.eventQueue.contents == [];
    ok := d.ReadInput(5.0);
    assert ok && d.outputQueue.contents == [0.05];
    assert d.State() == CircuitState(true, true);
    assert d.eventQueue.contents == [NoEvent, On];
  }

  /** `read_connection`: reading with no connection throws, an empty
      connected queue answers false, a queued voltage is read. */
  method ReadConnectionScenario()
  {
    var d := NewCircuit();
    var r := d.Read();
    assert r.Failure?;
    var volts := new Queue<real>(0.0);
    var reader := new QueueReader<real>.Of(volts);
    var c := d.ConnectInput(reader);
    assert c == Pass;
    r := d.Read();
    assert r == Success(false);
    volts.Enqueue(5.0);
    r := d.Read();
    assert r == Success(true) && volts.contents == [];
  }
}
