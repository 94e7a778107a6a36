/** include/device/event.h: typed events with a raised/lowered flag, and the
    registry of event types. The source keeps the registry in a static vector
    shared by every `Event<T>`; here it is an explicit `EventRegistry` object
    that the factory methods consult. */
module Events {
  import opened Wrappers

  /** No element occurs twice. */
  ghost predicate NoDuplicates<T>(s: seq<T>)
  {
    forall i, j :: 0 <= i < j < |s| ==> s[i] != s[j]
  }

  /** The registry after registering each of `types` in order, starting from `registry`. */
  function RegisterAll<T(==)>(registry: seq<T>, types: seq<T>): seq<T>
    decreases |types|
  {
    if types == [] then registry
    else
      var next := if types[0] in registry then registry else registry + [types[0]];
      RegisterAll(next, types[1..])
  }

  /** Registering a list never introduces a duplicate. */
  lemma {:induction false} RegisterAllNoDuplicates<T>(registry: seq<T>, types: seq<T>)
    requires NoDuplicates(registry)
    ensures NoDuplicates(RegisterAll(registry, types))
    decreases |types|
  {
    if types != [] {
      var next := if types[0] in registry then registry else registry + [types[0]];
      assert NoDuplicates(next);
      RegisterAllNoDuplicates(next, types[1..]);
    }
  }

  /** After registering a list, exactly the old types and the listed ones are registered. */
  lemma {:induction false} RegisterAllMembers<T>(registry: seq<T>, types: seq<T>, t: T)
    ensures t in RegisterAll(registry, types) <==> t in registry || t in types
    decreases |types|
  {
    if types != [] {
      var next := if types[0] in registry then registry else registry + [types[0]];
      RegisterAllMembers(next, types[1..], t);
      assert types == [types[0]] + types[1..];
    }
  }

  /** Registering only extends: the old registry is a prefix of the new one. */
  lemma {:induction false} RegisterAllExtends<T>(registry: seq<T>, types: seq<T>)
    ensures |registry| <= |RegisterAll(registry, types)|
    ensures RegisterAll(registry, types)[..|registry|] == registry
    decreases |types|
  {
    if types != [] {
      var next := if types[0] in registry then registry else registry + [types[0]];
      RegisterAllExtends(next, types[1..]);
      assert next[..|registry|] == registry;
    }
  }

  /** The static list of registered event types. */
  class EventRegistry<T(==)> {
    var types: seq<T>

    ghost predicate Valid()
      reads this
    {
      NoDuplicates(types)
    }

    /** The registry starts empty. */
    constructor ()
      ensures Valid() && types == []
    {
      types := [];
    }

    /** `registered`: a linear search of the registry for `t`. */
    method Registered(t: T) returns (found: bool)
      ensures found <==> t in types
    {
      var i := 0;
      while i < |types|
        invariant 0 <= i <= |types|
        invariant t !in types[..i]
      {
        if types[i] == t {
          return true;
        }
        i := i + 1;
      }
      assert types[..i] == types;
      found := false;
    }

    /** `registerType(t)`: appends `t` unless it is already registered. */
    method RegisterType(t: T)
      requires Valid()
      modifies this
      ensures Valid()
      ensures types == if t in old(types) then old(types) else old(types) + [t]
    {
      var present := Registered(t);
      if !present {
        types := types + [t];
      }
    }

    /** `registerType(list)`: registers each listed type in order. */
    method RegisterTypes(list: seq<T>)
      requires Valid()
      modifies this
      ensures Valid()
      ensures types == RegisterAll(old(types), list)
    {
      var i := 0;
      while i < |list|
        invariant 0 <= i <= |list|
        invariant Valid()
        invariant RegisterAll(old(types), list) == RegisterAll(types, list[i..])
      {
        assert list[i..][1..] == list[i + 1..];
        RegisterType(list[i]);
        i := i + 1;
      }
    }

    /** `registeredTypes`: a copy of the registry. */
    method RegisteredTypes() returns (s: seq<T>)
      ensures s == types
    {
      s := types;
    }
  }

  class Event<T(==)> {
    /** True while the event is waiting to be processed. */
    var flag: bool
    var eventType: T

    /** The default constructor: lowered, with an indeterminate type. */
    constructor Default(indeterminate: T)
      ensures !flag && eventType == indeterminate
    {
      flag := false;
      eventType := indeterminate;
    }

    constructor Raised(t: T)
      ensures flag && eventType == t
    {
      flag := true;
      eventType := t;
    }

    /** `Event(t)`: a raised event of type `t`; throws `std::invalid_argument`
        when `t` is not registered. */
    static method Make(registry: EventRegistry<T>, t: T) returns (r: Result<Event<T>>)
      ensures r.Failure? <==> t !in registry.types
      ensures r.Failure? ==> r.error == InvalidArgument("Unregistered type")
      ensures r.Success? ==> fresh(r.value) && r.value.flag && r.value.eventType == t
    {
      var ok := registry.Registered(t);
      if !ok {
        return Failure(InvalidArgument("Unregistered type"));
      }
      var e := new Event<T>.Raised(t);
      r := Success(e);
    }

    /** The copy and move constructors delegate to `Event(other.type())`: the
        copy has the same type but is raised whatever the flag of `other`, and
        copying an event of an unregistered type throws. */
    static method CopyOf(registry: EventRegistry<T>, other: Event<T>) returns (r: Result<Event<T>>)
      ensures r.Failure? <==> other.eventType !in registry.types
      ensures r.Success? ==> fresh(r.value) && r.value.flag && r.value.eventType == other.eventType
    {
      r := Make(registry, other.eventType);
    }

    /** Copy assignment takes its argument by value (a copy, as above) and
        swaps with it. */
    method Assign(registry: EventRegistry<T>, other: Event<T>) returns (r: Outcome)
      modifies this
      ensures r.Fail? <==> old(other.eventType) !in registry.types
      ensures r.Fail? ==> flag == old(flag) && eventType == old(eventType)
      ensures r.Pass? ==> flag && eventType == old(other.eventType)
    {
      var copy := CopyOf(registry, other);
      if copy.Failure? {
        return Fail(copy.error);
      }
      Swap(copy.value);
      r := Pass;
    }

    /** Marks the event as to be processed. */
    method Raise()
      modifies this
      ensures flag && eventType == old(eventType)
    {
      flag := true;
    }

    /** Marks the event as processed. */
    method Lower()
      modifies this
      ensures !flag && eventType == old(eventType)
    {
      flag := false;
    }

    function Type(): T
      reads this
    {
      eventType
    }

    /** Exchanges flag and type with `other`. */
    method Swap(other: Event<T>)
      modifies this, other
      ensures flag == old(other.flag) && eventType == old(other.eventType)
      ensures other.flag == old(flag) && other.eventType == old(eventType)
    {
      flag, other.flag := other.flag, flag;
      eventType, other.eventType := other.eventType, eventType;
    }
  }
}
