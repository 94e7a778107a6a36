# Multi-modal framework: a Dafny model

This project models the core of the NuiLab multi-modal framework, a C++ header library for building input devices and running experiments:

- **Queues.** `Queue` is a FIFO queue. `QueueReader` is a non-owning handle on a queue, which expires when it loses its target.
- **Observables.** `Observable` keeps a list of weak observer references and notifies the ones still alive. The Java `ThreadSafeObservable` keeps a registry of observers.
- **Devices.** A `Domain` is a predicate that can be combined with `+` (or) and `*` (and). An `Event` is a flag plus a type, and the type must first be registered in a process-wide registry. A `GenericDevice` reads an input and checks it against the input domain. It resolves the input to an output and queues the output if it lies in the output domain. It then computes the new state, queues one event per event function computed from that state, and stores the new state last.
- **State machines.** `StateMachine` holds named states and guarded transitions. Its step takes the first transition, in name order, whose guard holds.
- **Experiments.** `Experiment` runs a list of treatments. It moves through the states Initial, Started, Running, Paused and Stopped. Training treatments run before the others.

There is one Dafny module per source header:

| Module | File | Models |
|---|---|---|
| `Wrappers` | `wrappers.dfy` | Thrown exceptions, as `Result` and `Outcome` values. The error messages are the source's own strings. |
| `Queues` | `queue.dfy` | `queue.h` |
| `QueueReaders` | `queue_reader.dfy` | `queue_reader.h` |
| `Observables` | `observable.dfy` | `observable.h` |
| `ThreadSafeObservables` | `thread_safe_observable.dfy` | `ThreadSafeObservable.java` |
| `Domains` | `domain.dfy` | `domain.h` |
| `Events` | `event.dfy` | `event.h` |
| `Devices` | `device.dfy` | `device.h` |
| `StateMachines` | `state_machine.dfy` | `state_machine.h` |
| `Experiments` | `experiment.dfy` | `experiment.h` |
| `CircuitScenario` | `circuit_scenario.dfy` | The circuit device of the test headers, as a client of `Devices`. |

Objects whose fields the source updates are classes: queues, readers, observables, events, the event registry, devices, state machines and experiments. A `std::weak_ptr` is modelled as a nullable reference. An expired pointer is `null`. An observer's liveness is a set `alive` that the caller passes in.

What the source throws becomes a `Failure`/`Fail` value. Each of these carries the source's exception kind and message. Where the code differs from its own documentation, the model keeps both:

- an `…AsWritten` member follows the code;
- the corrected member follows the documented intent, and the rest of the model uses it.

See "## Findings".

## Model

| member | source | states |
|---|---|---|
| Queues.Queue.constructor | include/queue/queue.h:13-24 | A new queue is empty. |
| Queues.Queue.Dequeue | include/queue/queue.h:26-33 | Removes and returns the oldest element. On an empty queue it returns the value-initialised element and the queue stays empty. |
| Queues.Queue.Enqueue | include/queue/queue.h:41-45 | Appends the element at the back, so the order is first-in first-out. |
| Queues.Queue.Size | include/queue/queue.h:47-51 | Returns the number of queued elements. |
| Queues.Queue.Empty | include/queue/queue.h:35-39 | True exactly when the queue holds nothing. |
| QueueReaders.QueueReader.constructor | include/queue/queue_reader.h:15 | A default reader is expired. |
| QueueReaders.QueueReader.Of | include/queue/queue_reader.h:55-58 | A reader built on a queue targets exactly that queue. |
| QueueReaders.QueueReader.Copy | include/queue/queue_reader.h:37-40 | A copy shares the original's target. |
| QueueReaders.QueueReader.Connect | include/queue/queue_reader.h:60-67 | A null queue is refused with "Queue reference empty" and the old target is kept. Otherwise the reader targets the queue. |
| QueueReaders.QueueReader.Dequeue | include/queue/queue_reader.h:69-76 | An expired reader fails with "Queue reference expired". Otherwise it dequeues from the target exactly as the queue does. |
| QueueReaders.QueueReader.Disconnect | include/queue/queue_reader.h:78-82 | Afterwards the reader is expired. |
| QueueReaders.QueueReader.Empty | include/queue/queue_reader.h:84-91 | Fails when expired. Otherwise it reports whether the target is empty. |
| QueueReaders.QueueReader.Size | include/queue/queue_reader.h:99-106 | Fails when expired. Otherwise it reports the size of the target. |
| QueueReaders.QueueReader.Swap | include/queue/queue_reader.h:108-112 | The two readers exchange targets. |
| Observables.LiveObservers | include/observer/observable.h:102-116 | The observers a notification reaches are the live entries, in attachment order. There are no more of them than entries, and every one is alive. |
| Observables.BeforeNull | include/observer/observable.h:60-66 | The observers that the list version of `attach` adds before its first null; none of them is null. |
| Observables.WithoutRemovesLive | include/observer/observable.h:89-98 | After `detach`, no live entry equal to the observer remains. |
| Observables.WithoutKeepsOthers | include/observer/observable.h:89-98 | `detach` keeps every entry that is not a live reference to the observer. |
| Observables.WithoutIsFilter | include/observer/observable.h:89-98 | `detach` only drops entries. The result is a sub-multiset of the list, and it is the whole list exactly when nothing matched. |
| Observables.WithoutAppend | include/observer/observable.h:89-98 | `detach` keeps the order of what it keeps: detaching from a concatenation gives what is kept of each part, in the same order. |
| Observables.LiveObserversComplete | include/observer/observable.h:108-115 | Every live entry of the list is reached by a notification. |
| Observables.LiveObserversSound | include/observer/observable.h:108-115 | Every observer a notification reaches has an entry in the list. |
| Observables.LiveObserversAppend | include/observer/observable.h:108-115 | A notification reaches the observers of a concatenation part by part, in list order. |
| Observables.WithoutIdempotent | include/observer/observable.h:80-100 | Detaching the same observer twice is the same as detaching it once. |
| Observables.Observable.constructor | include/observer/observable.h:23 | A new observable has no observers. |
| Observables.Observable.FromList | include/observer/observable.h:55-58 | Holds the given list as is, nulls included. |
| Observables.Observable.Copy | include/observer/observable.h:45-48 | Holds the same observer list as the original. |
| Observables.Observable.Attach | include/observer/observable.h:68-78 | A null observer is refused with "Empty reference to observer" and nothing changes. Otherwise the observer is appended. |
| Observables.Observable.AttachAll | include/observer/observable.h:60-66 | Appends the list up to its first null. It fails exactly when the list holds a null. |
| Observables.Observable.Detach | include/observer/observable.h:80-100 | A null observer is refused. Otherwise every live reference to it is removed. |
| Observables.Observable.Notify | include/observer/observable.h:102-116 | Delivers the message once per live entry, in attachment order, and changes nothing. An observer attached twice gets two updates. |
| ThreadSafeObservables.ThreadSafeObservable.constructor | DP/ThreadSafeObservable.java:12-21 | A new registry is empty. |
| ThreadSafeObservables.ThreadSafeObservable.RegisterObserver | DP/ThreadSafeObservable.java:26-29 | Adds a non-null observer. A null one changes nothing. |
| ThreadSafeObservables.ThreadSafeObservable.UnregisterObserver | DP/ThreadSafeObservable.java:34-39 | Removes a non-null observer and calls it back exactly once, even if it was not registered. A null one changes nothing and calls nobody. |
| ThreadSafeObservables.LastCallDecides | DP/ThreadSafeObservable.java:26-39 | After any sequence of register and unregister calls, an observer is registered exactly when the last call naming it was a register. If no call names it, it is registered exactly when it was at the start. |
| ThreadSafeObservables.LastMention | DP/ThreadSafeObservable.java:26-39 | The index of the last call that names the observer. That call does name it, and no later call does. |
| Domains.Domain.Apply | include/device/domain.h:59-63 | A domain built only from predicates always answers. A default-constructed domain fails with `bad_function_call`. |
| Domains.Domain.Plus | include/device/domain.h:65-75 | Pointwise short-circuit or. It is true if the left side is true; otherwise it is the right side's answer. A failure on the left propagates. |
| Domains.Domain.Times | include/device/domain.h:77-87 | Pointwise short-circuit and. It is false if the left side is false; otherwise it is the right side's answer. A failure on the left propagates. |
| Domains.Of | include/device/domain.h:54-57 | A domain built on a predicate is defined and answers that predicate at every point. |
| Domains.PlusTimesPointwise | include/device/domain.h:65-87 | On defined domains, `+` and `*` compute boolean or and boolean and. |
| Domains.PlusTimesCommute | include/device/domain.h:65-87 | On defined domains, `+` and `*` commute. |
| Domains.PlusCommuteNeedsDefined | include/device/domain.h:71 | `+` does not commute in general: a true predicate plus an unset domain is true, but the unset domain plus the predicate fails. |
| Domains.PlusTimesAssociate | include/device/domain.h:65-87 | `+` and `*` are associative on every domain, including domains that fail. This holds for operands taken by value; see the lines for `Domains.Domain.Plus` and `Domains.Domain.Times` under "## Left out". |
| Events.RegisterAllNoDuplicates | include/device/event.h:98-103 | Registering a list never creates a duplicate in the registry. |
| Events.RegisterAllMembers | include/device/event.h:98-103 | After registering a list, a type is registered exactly when it was already registered or is in the list. |
| Events.RegisterAllExtends | include/device/event.h:98-103 | Registering a list keeps the earlier registry as a prefix, in its order. |
| Events.EventRegistry.constructor | include/device/event.h:58 | The registry starts empty. |
| Events.EventRegistry.Registered | include/device/event.h:111-121 | True exactly when the type is in the registry. |
| Events.EventRegistry.RegisterType | include/device/event.h:91-96 | Appends the type if it is new. Otherwise nothing changes, so there are never duplicates. |
| Events.EventRegistry.RegisterTypes | include/device/event.h:98-103 | Registers each type of the list in turn. |
| Events.EventRegistry.RegisteredTypes | include/device/event.h:105-109 | Returns the registered types in registration order. |
| Events.Event.Default | include/device/event.h:60-63 | A default event is lowered. |
| Events.Event.Raised | include/device/event.h:66-68 | The member initialisers of `Event(type)`: the event is raised and has that type. This constructor does not check registration; `Events.Event.Make` adds the check. |
| Events.Event.Make | include/device/event.h:65-72 | Fails with "Unregistered type" exactly when the type is not registered. Otherwise it gives a new raised event of that type. |
| Events.Event.CopyOf | include/device/event.h:74-82 | The copy is raised and has the original's type. It fails if that type is not registered. |
| Events.Event.Assign | include/device/event.h:84-89 | Copy-and-swap assignment. It fails, changing nothing, exactly when the other's type is unregistered. Otherwise the event takes the other's type and is raised. |
| Events.Event.Raise | include/device/event.h:123-127 | Sets the flag, and the type is unchanged. |
| Events.Event.Lower | include/device/event.h:129-133 | Clears the flag, and the type is unchanged. |
| Events.Event.Swap | include/device/event.h:141-146 | The two events exchange flag and type. |
| Devices.Emit | include/device/device.h:293-294 | The events of a read are the event functions applied to the current state, one per function, in list order. |
| Devices.EmitAppend | include/device/device.h:191-203 | The events of a concatenated event list are the events of each part, in order. |
| Devices.GenericDevice.constructor | include/device/device.h:100-119 | Stores the five functions. The queues start empty and the input is unconnected. The source gives the state no initialiser, so the initial state is `stateZero`, an arbitrary value the caller passes in. |
| Devices.GenericDevice.ReadInput | include/device/device.h:275-299 | An input outside the input domain is rejected and nothing changes. Otherwise the state becomes the state function of the old state, the input and the output. The output is queued only if it lies in the output domain. One event per event function is queued, computed from the new state. |
| Devices.GenericDevice.Read | include/device/device.h:301-316 | Fails with "No input connected" when the input reader is expired. It answers false on an empty input queue. Otherwise it dequeues one input and reads it as `ReadInput` does. |
| Devices.GenericDevice.Combine | include/device/device.h:161-211 | The combined device is new. Its event list is this device's followed by the other's, and its queues start empty. |
| Devices.GenericDevice.ConnectInput | include/device/device.h:228-240 | An expired reader is refused with "Queue reference expired". Otherwise the device reads from the reader's queue. |
| Devices.GenericDevice.ConnectFrom | include/device/device.h:213-226 | The device reads from the other device's output queue. |
| Devices.GenericDevice.ConnectOutputReader | include/device/device.h:242-251 | Points the reader at the device's output queue. |
| Devices.GenericDevice.ConnectEventReader | include/device/device.h:253-262 | Points the reader at the device's event queue. |
| Devices.GenericDevice.Disconnect | include/device/device.h:264-273 | Afterwards the device has no input. |
| Devices.GenericDevice.SwapAsWritten | include/device/device.h:335-342 | As written: only the domains and the resolution function are exchanged. The state functions and event lists stay where they were. |
| Devices.GenericDevice.Swap | include/device/device.h:335-342 | Intended: all five functions are exchanged. |
| StateMachines.LexLessIrreflexive | include/device/state_machine.h:81-83 | The order on state names, which keys the transition map, is irreflexive. |
| StateMachines.LexLessTransitive | include/device/state_machine.h:81-83 | The order on state names is transitive. |
| StateMachines.LexLessTotal | include/device/state_machine.h:81-83 | Any two distinct state names are ordered. |
| StateMachines.LeastExists | include/device/state_machine.h:290-308 | Every non-empty set of names has a least element, so transitions are taken in a definite order. |
| StateMachines.StateMachine.constructor | include/device/state_machine.h:98-105 | A new machine has no states or transitions. Its initial, present and final names are the null name, and it is inactive. |
| StateMachines.StateMachine.AddState | include/device/state_machine.h:119-128 | Adds a new state with its action. An empty action or an existing name is refused and nothing changes. |
| StateMachines.StateMachine.AddStateWithoutEvent | include/device/state_machine.h:113-117 | Adds a new state with no action. An existing name is refused. |
| StateMachines.StateMachine.AddTransition | include/device/state_machine.h:130-146 | Adds or replaces the guarded transition when both states exist and the guard is not empty. Otherwise nothing changes. |
| StateMachines.StateMachine.AddUnconditionalTransition | include/device/state_machine.h:148-154 | Adds a transition whose guard always holds, when both states exist. |
| StateMachines.StateMachine.SetInitialStateAsWritten | include/device/state_machine.h:156-164 | As written: an existing name is refused and nothing is set. A missing name is set, and no value is returned. |
| StateMachines.StateMachine.SetInitialState | include/device/state_machine.h:56-59 | Intended: sets the initial state exactly when it exists, and reports whether it did. |
| StateMachines.StateMachine.SetFinalStateAsWritten | include/device/state_machine.h:166-173 | As written: the same inversion as the initial-state setter. |
| StateMachines.StateMachine.SetFinalState | include/device/state_machine.h:61-64 | Intended: sets the final state exactly when it exists. |
| StateMachines.StateMachine.Start | include/device/state_machine.h:181-246 | An active machine answers true and nothing changes. It answers false, changing nothing, when the initial state is still the null name or the host reports no hardware threads. Otherwise it answers true and the machine becomes active. |
| StateMachines.StateMachine.StartFrom | include/device/state_machine.h:248-254 | Sets the initial name without checking it, then starts as `Start` does. |
| StateMachines.StateMachine.NextState | include/device/state_machine.h:286-308 | If no outgoing guard holds, the machine stays in the present state. Otherwise it moves to a target whose guard holds, and no target earlier in name order has a holding guard. |
| Experiments.Partition | include/experiment/experiment.h:247-253 | The result is a permutation of the list in which every training entry precedes every treatment entry. |
| Experiments.Experiment.constructor | include/experiment/experiment.h:141-151 | A new experiment is Initial and in training mode, with no treatments. |
| Experiments.Experiment.Append | include/experiment/experiment.h:153-162 | Appends a treatment only while Initial. Otherwise it fails with "attempt to append after started" and nothing changes. |
| Experiments.Experiment.Next | include/experiment/experiment.h:184-207 | Fails outside Started, Running and Paused. On an empty queue the experiment stops and it answers false. Otherwise the front treatment becomes current, its mode becomes the experiment's mode and the state is Running. |
| Experiments.Experiment.Process | include/experiment/experiment.h:220-233 | Outside Running and Paused it fails with "attempt to process while inactive". Otherwise the answer is the processor applied to the current treatment. |
| Experiments.Experiment.PauseAsWritten | include/experiment/experiment.h:209-218 | As written: the state becomes Paused from any state. |
| Experiments.Experiment.Pause | include/experiment/experiment.h:76-78 | Intended: only a Running experiment is paused. Any other state fails with "attempt to pause inactive experiment" and nothing changes. |
| Experiments.Experiment.ResumeAsWritten | include/experiment/experiment.h:265-274 | As written: the state becomes Running from any state. |
| Experiments.Experiment.Resume | include/experiment/experiment.h:90-92 | Intended: only a Paused experiment resumes. Any other state fails with "attempt to resume before pausing." |
| Experiments.Experiment.Randomize | include/experiment/experiment.h:235-254 | The list becomes a permutation of itself with training entries first. Nothing else changes. |
| Experiments.Experiment.StartAsWritten | include/experiment/experiment.h:279-283 | As written: the guard holds in every state, so `start` always fails with "attempt to start before stop". |
| Experiments.Experiment.Start | include/experiment/experiment.h:104-108 | Intended: it refuses outside Initial and Stopped, and refuses an empty list. Otherwise the queue is the list, reordered with training first if the order is random, and the state is Started. |
| Experiments.Experiment.Stop | include/experiment/experiment.h:316-323 | Clears the queue and the current treatment, and the state becomes Stopped. |
| Experiments.Experiment.Reset | include/experiment/experiment.h:256-263 | Stops and clears the list, and the state returns to Initial. |

## Left out

- Domains.Domain.Plus: the model takes the left operand by value. In the source the composite lambda is `[=]` inside a member function (`include/device/domain.h:68-72`), so it copies `other` but captures `this` by pointer. The composite therefore reads the left operand's predicate when it is called, and follows any later assignment to that operand. In `(a + b) + c` the outer composite holds a pointer to the temporary `a + b`, and calling it reads a destroyed object, which is undefined behaviour. The model describes the evidently intended capture by value.
- Domains.Domain.Times: the same capture of `this` by pointer (`include/device/domain.h:80-84`) is modelled as capture by value, as for `Plus`.
- Concurrency is left out. The lock-free queue, the concurrent maps, the state machine's handler thread and the event-pool threads are modelled as sequential calls.
- The state machine runs its handler loop on a thread and calls its actions through a thread pool. Neither is modelled. One step of the loop is `NextState`: the caller passes the state and a valuation of the guards as `holds`. An action is a value `Run(e)` that is never invoked.
- Guards and actions are `std::function` values in the source. They are modelled as data: `Always`/`When(p)` and `NoOp`/`Run(e)`. A guard that throws is treated as one that does not hold, because the source catches the exception and skips that transition.
- State names are ordered by code point, which matches the `std::map` order for single-byte characters only.
- `include/queue/queue_poller.h` and `include/queue/queue_observer.h` are left out. They poll on a timer thread and are not part of this model.
- The source's `IQueue` and `IObservable` interfaces are left out. Each has a single implementation here, and the model uses that class directly.
- A queue's destruction expiring its readers is left out. Dafny objects are never freed. A reader expires only when it is disconnected or built null.
- `Observable::swap` is left out. It is declared in `include/observer/observable.h:38` but has no definition.
- Observer liveness, meaning which weak references have expired, is left out as state. It is a set the caller passes to `Detach` and `Notify`.
- Event types are stored in a process-wide static vector in the source. Here that vector is an explicit `EventRegistry` object passed to `Make`, `CopyOf` and `Assign`.
- Devices.GenericDevice.ReadInput: the event queue receives exactly the values the event functions return, and a read never fails. In the source, `enqueue` (`include/queue/queue.h:41-45`) stores a copy of each event. That copy is made by `Event(Event const&)`, which delegates to the checked `Event(type)` (`include/device/event.h:66-77`). So every queued event is raised, whatever flag the function returned. An event whose type is not registered makes `read` throw `std::invalid_argument("Unregistered type")` partway through. By then the output is already queued (`include/device/device.h:289`), and the state is not yet stored (line 296). The device is generic in `Ev`, so it does not model this copy.
- Devices.GenericDevice.ConnectFrom: it follows the intent. As written, `connect(GenericDevice<OtherInputT, InputT, …> const&)` (`include/device/device.h:225`) reads the private `pOutputQueue` of a different specialisation, which does not compile.
- Devices.GenericDevice.Read: it requires that the input queue is neither the device's own output queue nor its event queue. A device reading its own output is not modelled.
- Devices.GenericDevice.Combine: it states the combined event list and promises nothing about the combined domains, resolution and state functions. In the source (`include/device/device.h:175-189`) these are lambdas that capture nothing and have empty bodies, so calling them is undefined behaviour. The model gives the combined device this device's functions. As written, `combine` also does not compile: its return statement (lines 205-210) passes the `EventList` vector `compositeEventList` to the constructor's `std::initializer_list<EventFunction>` parameter. The model follows the intent: it builds the device with the concatenated list.
- The device default constructor (`include/device/device.h:94-98`) is left out. It leaves all five functions empty, so `read` then throws `bad_function_call`.
- The device copy constructor (`include/device/device.h:126-134`) is left out. It is meant to copy the five functions into a new device. As written it does not compile: it passes the `EventList` vector `other.mEventList` (line 133) to the constructor's `std::initializer_list<EventFunction>` parameter.
- The device move constructor and assignment operator (`include/device/device.h:141-159`) are left out. They go through the defective `swap`, so the target keeps its own state function and event list. That defect is `Devices.GenericDevice.SwapAsWritten`.
- Domain copy and assignment (`include/device/domain.h:30-52`) are left out. `Domain` is a value in this model, and those operations are value copies.
- Output streaming (`operator<<`), the clock and the timing in the benchmark headers are left out. They are I/O and measurement, not behaviour.
- The `DP/CPPObserverPattern` demo is left out. It is a separate example program.
- Unregistering in the Java registry calls the observer back; the model follows this code. The callback is returned as a list of observers to call, and is not invoked.
- Experiments.Experiment.constructor: it follows the intent. As written, the initialiser `mTreatmentProcessor(treatmentProcessor)` (`include/experiment/experiment.h:150`) names a member and a parameter that do not exist, so the constructor does not compile.
- Experiments.Experiment.Append: it follows the intent. As written, `std::make_pair<Treatment, ExperimentMode>(treatment, mode)` (`include/experiment/experiment.h:161`) does not compile. The explicit template arguments make its parameters rvalue references, and both arguments are lvalues.
- Experiments.Experiment.Randomize: it follows the intent. As written, `std::mt19937 generator(rd)` (`include/experiment/experiment.h:242`) passes the `random_device` itself rather than a seed `rd()`, which does not compile. The shuffle is any permutation, chosen by `:|`, and the random engine is not modelled.
- Observables.Observable.FromList: it follows the intent. As written, `mObservers(observers)` (`include/observer/observable.h:56-57`) builds a `std::vector<std::weak_ptr>` from a `std::initializer_list<std::shared_ptr>`, which has no matching constructor.
- ThreadSafeObservables.ThreadSafeObservable: it follows the intent. As written, the class body closes at `DP/ThreadSafeObservable.java:21`, before the two methods at lines 26-39. The imports of `Set`, `Collections` and `ConcurrentHashMap` are also missing, so the file is not valid Java. The model treats both methods as members of the class.
- Experiments.Experiment.Stop: it empties the queue as intended. The source calls `mTreatmentQueue.clear()` (`include/experiment/experiment.h:320`), but `std::queue` has no `clear`, so the source as written does not compile once `stop` is instantiated.
- Experiments.Experiment.Process: `std::async` is modelled by the processor's value, and the returned future is not. The source `assert`s that a treatment is current while Running or Paused (`include/experiment/experiment.h:230`). That assertion is the method's precondition.
- StateMachines.StateMachine.Start: the hardware thread count is a parameter standing for `std::thread::hardware_concurrency()`.
- The getters `Experiment.State`, `Mode`, `Order`, `Name`, `Subject`, `Size`, `CurrentTreatment`, `StateMachine.PresentState`, `QueueReader.Expired` (`include/queue/queue_reader.h:93-97`), `GenericDevice.State` and `Event.Type` are left out of the table. Each is a field read with no contract beyond its body.

## Findings

| source | as written | input that shows it | evidently intended | confidence | as-written member | corrected member |
|---|---|---|---|---|---|---|
| include/experiment/experiment.h:279-283 | `state() != Initial \|\| state() != Stopped` is true in every state, so `start` always throws | `Experiments.StartDiscrepancy`: a fresh experiment with one treatment is refused | allow starting from Initial or Stopped (lines 104-108) | high, not executed | Experiments.Experiment.StartAsWritten | Experiments.Experiment.Start |
| include/experiment/experiment.h:212-215 | the `runtime_error` is constructed but not thrown, so `pause` always sets Paused | `Experiments.PauseResumeDiscrepancy`: a fresh Initial experiment becomes Paused | throw unless Running (lines 76-78) | high, not executed | Experiments.Experiment.PauseAsWritten | Experiments.Experiment.Pause |
| include/experiment/experiment.h:268-271 | the `runtime_error` is constructed but not thrown, so `resume` always sets Running | `Experiments.PauseResumeDiscrepancy`: a fresh Initial experiment becomes Running | throw unless Paused (lines 90-92) | high, not executed | Experiments.Experiment.ResumeAsWritten | Experiments.Experiment.Resume |
| include/device/state_machine.h:156-164 | the test is `!=`, so an existing state is refused; a missing one is set, and control falls off the end without a return value | `StateMachines.SetterDiscrepancy`: after adding "up", setting "up" is refused and setting "down" is accepted | set only an existing state and return true (lines 56-59) | high, not executed | StateMachines.StateMachine.SetInitialStateAsWritten | StateMachines.StateMachine.SetInitialState |
| include/device/state_machine.h:166-173 | the same inversion and missing return as `setInitialState` | `StateMachines.SetterDiscrepancy` | set only an existing final state (lines 61-64) | high, not executed | StateMachines.StateMachine.SetFinalStateAsWritten | StateMachines.StateMachine.SetFinalState |
| include/device/device.h:340-341 | `std::swap(mStateFunction, mStateFunction)` and `std::swap(mEventList, mEventList)` swap each field with itself | `Devices.SwapDiscrepancy`: after the swap, the device keeps its own state function | exchange both with `other` | medium, not executed | Devices.GenericDevice.SwapAsWritten | Devices.GenericDevice.Swap |
