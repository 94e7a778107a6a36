/** include/device/state_machine.h: a machine of named states. Each state has
    an event function, run each time the machine is in that state, and a map
    of named successor states to transition predicates. The handler thread
    moves, on every round, to the first successor in ascending name order whose
    predicate holds.

    Event functions are `Action`s and predicates are `Guard`s: `NoOp` and
    `Always` are the two lambdas the source writes itself, `Run(e)` and
    `When(p)` stand for callables supplied by the user. The value a predicate
    returns in a given round is supplied as `holds`. A predicate that throws is
    caught and skipped by the handler, so it counts as not holding. */
module StateMachines {
  import opened Wrappers

  /** The sentinel name of a state that has not been set. */
  const NullName: string := "__null__"

  datatype Action<E> = NoOp | Run(event: E)
  datatype Guard<P> = Always | When(condition: P)

  /** Whether a guard holds, given the values the predicates return. */
  predicate Holds<P>(g: Guard<P>, holds: P -> bool)
  {
    match g
    case Always => true
    case When(p) => holds(p)
  }

  /** The order of `std::map<std::string, _>` keys: lexicographic by
      character, a proper prefix first. */
  predicate LexLess(a: string, b: string)
    decreases |a|
  {
    if a == [] then b != []
    else b != [] && (a[0] < b[0] || (a[0] == b[0] && LexLess(a[1..], b[1..])))
  }

  lemma {:induction false} LexLessIrreflexive(a: string)
    ensures !LexLess(a, a)
    decreases |a|
  {
    if a != [] {
      LexLessIrreflexive(a[1..]);
    }
  }

  lemma {:induction false} LexLessTransitive(a: string, b: string, c: string)
    requires LexLess(a, b) && LexLess(b, c)
    ensures LexLess(a, c)
    decreases |a|
  {
    if a != [] && a[0] == b[0] && b[0] == c[0] {
      LexLessTransitive(a[1..], b[1..], c[1..]);
    }
  }

  lemma {:induction false} LexLessTotal(a: string, b: string)
    requires a != b
    ensures LexLess(a, b) || LexLess(b, a)
    decreases |a|
  {
    if a != [] && b != [] && a[0] == b[0] {
      assert a == [a[0]] + a[1..] && b == [b[0]] + b[1..];
      LexLessTotal(a[1..], b[1..]);
    }
  }

  /** `k` is the first of `names` in map order. */
  predicate IsLeast(k: string, names: set<string>)
  {
    k in names && forall j :: j in names && j != k ==> LexLess(k, j)
  }

  /** Every non-empty finite set of names has a first element. */
  lemma {:induction false} LeastExists(names: set<string>)
    requires names != {}
    ensures exists k :: IsLeast(k, names)
    decreases |names|
  {
    var x :| x in names;
    if names != {x} {
      var rest := names - {x};
      LeastExists(rest);
      var y :| IsLeast(y, rest);
      LexLessTotal(x, y);
      if LexLess(x, y) {
        forall j | j in names && j != x ensures LexLess(x, j) {
          if j != y {
            LexLessTransitive(x, y, j);
          }
        }
        assert IsLeast(x, names);
      } else {
        assert IsLeast(y, names);
      }
    } else {
      assert IsLeast(x, names);
    }
  }

  class StateMachine<E, P> {
    /** `mStateMap`: the event function of each state. */
    var stateMap: map<string, Action<E>>
    /** `mTransitionMap[from][to]`: the predicate of the transition from `from` to `to`. */
    var transitionMap: map<string, map<string, Guard<P>>>
    var initialName: string
    var presentName: string
    var finalName: string
    var isActive: bool

    /** Transitions join existing states only. */
    ghost predicate Valid()
      reads this
    {
      forall from :: from in transitionMap ==>
        from in stateMap && transitionMap[from].Keys <= stateMap.Keys
    }

    /** The transitions out of `from`, none if it has no entry. */
    function Outgoing(from: string): map<string, Guard<P>>
      reads this
    {
      if from in transitionMap then transitionMap[from] else map[]
    }

    /** A new machine has no states and every name at the sentinel. */
    constructor ()
      ensures Valid()
      ensures initialName == NullName && presentName == NullName && finalName == NullName
      ensures !isActive && stateMap == map[] && transitionMap == map[]
    {
      stateMap := map[];
      transitionMap := map[];
      initialName := NullName;
      presentName := NullName;
      finalName := NullName;
      isActive := false;
    }

    /** Adds a state with event function `event`. An empty function (`None`)
        or a name already present is refused and nothing changes. */
    method AddState(name: string, event: Option<Action<E>>) returns (ok: bool)
      requires Valid()
      modifies this
      ensures Valid()
      ensures ok <==> event.Some? && name !in old(stateMap)
      ensures stateMap == if ok then old(stateMap)[name := event.value] else old(stateMap)
      ensures transitionMap == old(transitionMap)
      ensures initialName == old(initialName) && presentName == old(presentName)
      ensures finalName == old(finalName) && isActive == old(isActive)
    {
      if event.None? {
        return false;
      }
      if name in stateMap {
        return false;
      }
      stateMap := stateMap[name := event.value];
      ok := true;
    }

    /** Adds a state whose event function does nothing. */
    method AddStateWithoutEvent(name: string) returns (ok: bool)
      requires Valid()
      modifies this
      ensures Valid()
      ensures ok <==> name !in old(stateMap)
      ensures stateMap == if ok then old(stateMap)[name := NoOp] else old(stateMap)
      ensures transitionMap == old(transitionMap)
      ensures initialName == old(initialName) && presentName == old(presentName)
      ensures finalName == old(finalName) && isActive == old(isActive)
    {
      ok := AddState(name, Some(NoOp));
    }

    /** Sets the predicate of the transition from `from` to `to`, replacing an
        earlier one for the same pair. Both states must exist and the
        predicate must not be empty (`None`); otherwise nothing changes. */
    method AddTransition(from: string, to: string, guard: Option<Guard<P>>) returns (ok: bool)
      requires Valid()
      modifies this
      ensures Valid()
      ensures ok <==> from in old(stateMap) && to in old(stateMap) && guard.Some?
      ensures transitionMap == if ok then old(transitionMap)[from := old(Outgoing(from))[to := guard.value]]
                               else old(transitionMap)
      ensures stateMap == old(stateMap)
      ensures initialName == old(initialName) && presentName == old(presentName)
      ensures finalName == old(finalName) && isActive == old(isActive)
    {
      if from !in stateMap || to !in stateMap {
        return false;
      }
      if guard.None? {
        return false;
      }
      transitionMap := transitionMap[from := Outgoing(from)[to := guard.value]];
      ok := true;
    }

    /** Adds a transition that is always taken. */
    method AddUnconditionalTransition(from: string, to: string) returns (ok: bool)
      requires Valid()
      modifies this
      ensures Valid()
      ensures ok <==> from in old(stateMap) && to in old(stateMap)
      ensures transitionMap == if ok then old(transitionMap)[from := old(Outgoing(from))[to := Always]]
                               else old(transitionMap)
      ensures stateMap == old(stateMap)
      ensures initialName == old(initialName) && presentName == old(presentName)
      ensures finalName == old(finalName) && isActive == old(isActive)
    {
      ok := AddTransition(from, to, Some(Always));
    }

    /** `setInitialState` as written: the existence test is inverted, and the
        path that makes the designation ends without a return statement, so
        its result is undefined (`None`). */
    method SetInitialStateAsWritten(name: string) returns (r: Option<bool>)
      modifies this
      ensures name in stateMap ==> r == Some(false) && initialName == old(initialName)
      ensures name !in stateMap ==> r == None && initialName == name
      ensures stateMap == old(stateMap) && transitionMap == old(transitionMap)
      ensures presentName == old(presentName) && finalName == old(finalName) && isActive == old(isActive)
    {
      if name in stateMap {
        return Some(false);
      }
      initialName := name;
      r := None;
    }

    /** `setInitialState` as documented: designates an existing state as
        initial and answers whether it exists; the present state is untouched. */
    method SetInitialState(name: string) returns (ok: bool)
      requires Valid()
      modifies this
      ensures Valid()
      ensures ok <==> name in stateMap
      ensures initialName == if ok then name else old(initialName)
      ensures stateMap == old(stateMap) && transitionMap == old(transitionMap)
      ensures presentName == old(presentName) && finalName == old(finalName) && isActive == old(isActive)
    {
      if name !in stateMap {
        return false;
      }
      initialName := name;
      ok := true;
    }

    /** `setFinalState` as written: the same inverted test and missing return
        as `setInitialState`. */
    method SetFinalStateAsWritten(name: string) returns (r: Option<bool>)
      modifies this
      ensures name in stateMap ==> r == Some(false) && finalName == old(finalName)
      ensures name !in stateMap ==> r == None && finalName == name
      ensures stateMap == old(stateMap) && transitionMap == old(transitionMap)
      ensures presentName == old(presentName) && initialName == old(initialName) && isActive == old(isActive)
    {
      if name in stateMap {
        return Some(false);
      }
      finalName := name;
      r := None;
    }

    /** `setFinalState` as documented: designates an existing state as final
        and answers whether it exists; the present state is untouched. */
    method SetFinalState(name: string) returns (ok: bool)
      requires Valid()
      modifies this
      ensures Valid()
      ensures ok <==> name in stateMap
      ensures finalName == if ok then name else old(finalName)
      ensures stateMap == old(stateMap) && transitionMap == old(transitionMap)
      ensures presentName == old(presentName) && initialName == old(initialName) && isActive == old(isActive)
    {
      if name !in stateMap {
        return false;
      }
      finalName := name;
      ok := true;
    }

    /** `getPresentState`. The handler keeps the present state in a local
        variable, so this field keeps the value it was constructed with. */
    function PresentState(): string
      reads this
    {
      presentName
    }

    /** The guards of `start`: an active machine answers true at once; a
        machine whose initial state is still the sentinel, or whose host
        reports no hardware threads, answers false. Otherwise the threads
        are launched and the machine becomes active. */
    method Start(hardwareThreads: nat) returns (ok: bool)
      modifies this
      ensures old(isActive) ==> ok && unchanged(this)
      ensures !old(isActive) && initialName == NullName ==> !ok && unchanged(this)
      ensures !old(isActive) && initialName != NullName && hardwareThreads == 0 ==> !ok && unchanged(this)
      ensures !old(isActive) && initialName != NullName && hardwareThreads > 0 ==> ok && isActive
      ensures stateMap == old(stateMap) && transitionMap == old(transitionMap) && initialName == old(initialName)
      ensures presentName == old(presentName) && finalName == old(finalName)
    {
      if isActive {
        return true;
      }
      if initialName == NullName {
        return false;
      }
      if hardwareThreads == 0 {
        return false;
      }
      isActive := true;
      ok := true;
    }

    /** `start(name)`: sets the initial name, unchecked, then starts. */
    method StartFrom(name: string, hardwareThreads: nat) returns (ok: bool)
      modifies this
      ensures initialName == name
      ensures old(isActive) ==> ok && isActive
      ensures !old(isActive) ==> ok == (name != NullName && hardwareThreads > 0) && isActive == ok
      ensures stateMap == old(stateMap) && transitionMap == old(transitionMap)
      ensures presentName == old(presentName) && finalName == old(finalName)
    {
      initialName := name;
      ok := Start(hardwareThreads);
    }

    /** One round of the handler: from `present`, the first successor in
        ascending name order whose predicate holds, or `present` itself when
        it has no transitions or none of them holds. */
    method NextState(present: string, holds: P -> bool) returns (next: string)
      ensures (forall k :: k in Outgoing(present) ==> !Holds(Outgoing(present)[k], holds)) ==> next == present
      ensures (exists k :: k in Outgoing(present) && Holds(Outgoing(present)[k], holds)) ==>
                && next in Outgoing(present) && Holds(Outgoing(present)[next], holds)
                && forall k :: k in Outgoing(present) && LexLess(k, next) ==> !Holds(Outgoing(present)[k], holds)
    {
      var outgoing := Outgoing(present);
      next := present;
      var remaining := outgoing.Keys;
      while remaining != {}
        invariant remaining <= outgoing.Keys
        invariant next == present
        invariant forall d :: d in outgoing && d !in remaining ==> !Holds(outgoing[d], holds)
        invariant forall d, k :: d in outgoing && d !in remaining && k in remaining ==> LexLess(d, k)
        decreases remaining
      {
        LeastExists(remaining);
        var k :| IsLeast(k, remaining);
        if Holds(outgoing[k], holds) {
          next := k;
          forall j | j in outgoing && LexLess(j, k) ensures !Holds(outgoing[j], holds) {
            if j in remaining {
              LexLessTransitive(k, j, k);
              LexLessIrreflexive(k);
            }
          }
          assert k in Outgoing(present) && Holds(Outgoing(present)[k], holds);
          break;
        }
        remaining := remaining - {k};
      }
    }
  }

  /** With a state "up" added, the as-written setters refuse it and leave the
      names unset, and accept a name that does not exist; the documented
      setters do the opposite. */
  method SetterDiscrepancy()
  {
    var m := new StateMachine<int, int>();
    var added := m.AddStateWithoutEvent("up");
    assert added && "up" in m.stateMap && "down" !in m.stateMap;
    var w := m.SetInitialStateAsWritten("up");
    assert w == Some(false) && m.initialName == NullName;
    w := m.SetFinalStateAsWritten("up");
    assert w == Some(false) && m.finalName == NullName;
    w := m.SetInitialStateAsWritten("down");
    assert w == None && m.initialName == "down";
    w := m.SetFinalStateAsWritten("down");
    assert w == None && m.finalName == "down";
    var ok := m.SetInitialState("up");
    assert ok && m.initialName == "up";
    ok := m.SetFinalState("up");
    assert ok && m.finalName == "up";
    ok := m.SetInitialState("down");
    assert !ok && m.initialName == "up";
  }

  /** A machine that may go from "a" to "b" or to "c" takes the first
      enabled transition in name order, and stays when none is enabled. */
  method StepScenario()
  {
    var m := new StateMachine<int, int>();
    var ok := m.AddStateWithoutEvent("a");
    ok := m.AddStateWithoutEvent("b");
    ok := m.AddStateWithoutEvent("c");
    ok := m.AddTransition("a", "c", Some(When(1)));
    ok := m.AddTransition("a", "b", Some(When(2)));
    assert m.Outgoing("a") == map["c" := When(1), "b" := When(2)];
    assert LexLess("b", "c");
    var next := m.NextState("a", (p: int) => true);
    assert next == "b";
    var onlyOne := (p: int) => p == 1;
    assert Holds(m.Outgoing("a")["c"], onlyOne) && !Holds(m.Outgoing("a")["b"], onlyOne);
    next := m.NextState("a", onlyOne);
    assert next == "c";
    next := m.NextState("a", (p: int) => false);
    assert next == "a";
    next := m.NextState("b", (p: int) => true);
    assert next == "b";
  }
}
