/** DP/ThreadSafeObservable.java: a set of registered observers. The Java
    class guards the set with a concurrent map; calls are modelled one at a
    time, in the order a linearisation of the concurrent calls puts them. */
module ThreadSafeObservables {
  import opened Wrappers

  /** One call on the registry, with its argument (`None` is a null observer). */
  datatype Call<O> = Register(observer: Option<O>) | Unregister(observer: Option<O>)

  /** The set after one call. */
  function Apply<O(==)>(observers: set<O>, call: Call<O>): set<O>
  {
    match call
    case Register(None) => observers
    case Register(Some(o)) => observers + {o}
    case Unregister(None) => observers
    case Unregister(Some(o)) => observers - {o}
  }

  /** The set after a linearised sequence of calls. */
  function Run<O(==)>(observers: set<O>, calls: seq<Call<O>>): set<O>
    decreases |calls|
  {
    if calls == [] then observers else Run(Apply(observers, calls[0]), calls[1..])
  }

  /** Whether a call names observer `o`. */
  predicate Mentions<O(==)>(call: Call<O>, o: O)
  {
    call.observer == Some(o)
  }

  /** No lost or duplicated updates: after any sequence of calls, `o` is
      registered exactly when the last call naming it registered it, or, if
      no call names it, when it was registered to begin with. */
  lemma {:induction false} LastCallDecides<O>(observers: set<O>, calls: seq<Call<O>>, o: O)
    ensures o in Run(observers, calls) <==>
      if exists i :: 0 <= i < |calls| && Mentions(calls[i], o)
      then calls[LastMention(calls, o)].Register?
      else o in observers
    decreases |calls|
  {
    if calls != [] {
      var rest := calls[1..];
      LastCallDecides(Apply(observers, calls[0]), rest, o);
      if exists i :: 0 <= i < |rest| && Mentions(rest[i], o) {
        var i :| 0 <= i < |rest| && Mentions(rest[i], o);
        assert Mentions(calls[i + 1], o);
        LastMentionShift(calls, o);
      } else {
        forall i | 0 < i < |calls| ensures !Mentions(calls[i], o) {
          assert calls[i] == rest[i - 1];
        }
        if Mentions(calls[0], o) {
          LastMentionFirst(calls, o);
        }
      }
    }
  }

  /** The position of the last call naming `o`. */
  ghost function LastMention<O>(calls: seq<Call<O>>, o: O): (k: nat)
    requires exists i :: 0 <= i < |calls| && Mentions(calls[i], o)
    ensures k < |calls| && Mentions(calls[k], o)
    ensures forall j :: k < j < |calls| ==> !Mentions(calls[j], o)
    decreases |calls|
  {
    if Mentions(calls[|calls| - 1], o) then |calls| - 1
    else
      LastMention(calls[..|calls| - 1], o)
  }

  /** When the tail names `o`, the last mention in the whole sequence is one
      past the last mention in the tail. */
  lemma LastMentionShift<O>(calls: seq<Call<O>>, o: O)
    requires |calls| > 0
    requires exists i :: 0 <= i < |calls[1..]| && Mentions(calls[1..][i], o)
    ensures LastMention(calls, o) == LastMention(calls[1..], o) + 1
  {
    var k := LastMention(calls[1..], o);
    assert Mentions(calls[k + 1], o);
    LastMentionUnique(calls, o, k + 1);
  }

  /** When only the first call names `o`, it is the last mention. */
  lemma LastMentionFirst<O>(calls: seq<Call<O>>, o: O)
    requires |calls| > 0 && Mentions(calls[0], o)
    requires forall i :: 0 < i < |calls| ==> !Mentions(calls[i], o)
    ensures LastMention(calls, o) == 0
  {
    LastMentionUnique(calls, o, 0);
  }

  /** The last mention is the only mention with no mention after it. */
  lemma LastMentionUnique<O>(calls: seq<Call<O>>, o: O, k: nat)
    requires k < |calls| && Mentions(calls[k], o)
    requires forall j :: k < j < |calls| ==> !Mentions(calls[j], o)
    ensures LastMention(calls, o) == k
  {
  }

  class ThreadSafeObservable<O(==)> {
    /** `mappedObservers`: the registered observers. */
    var observers: set<O>

    constructor ()
      ensures observers == {}
    {
      observers := {};
    }

    /** `registerObserver`: ignores null, otherwise adds the observer; adding
        an observer already present changes nothing. */
    method RegisterObserver(observer: Option<O>)
      modifies this
      ensures observers == Apply(old(observers), Register(observer))
      ensures observer.None? ==> observers == old(observers)
      ensures observer.Some? ==> observers == old(observers) + {observer.value}
    {
      if observer.None? {
        return;
      }
      observers := observers + {observer.value};
    }

    /** `unregisterObserver`: ignores null; otherwise removes the observer and
        then calls its `observableChanged`, even when it was not registered.
        The callbacks made are returned. */
    method UnregisterObserver(observer: Option<O>) returns (callbacks: seq<O>)
      modifies this
      ensures observers == Apply(old(observers), Unregister(observer))
      ensures observer.None? ==> observers == old(observers) && callbacks == []
      ensures observer.Some? ==> observers == old(observers) - {observer.value} && callbacks == [observer.value]
    {
      callbacks := [];
      if observer.Some? {
        observers := observers - {observer.value};
        callbacks := [observer.value];
      }
    }
  }
}
