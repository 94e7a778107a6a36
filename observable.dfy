/** include/observer/observable.h: an observable keeps a list of weak
    references to its observers. An entry is `Some(o)` for a reference to
    observer `o`, or `None` for an empty weak reference (one made from a null
    pointer). Whether observer `o` is still alive is not the list's business:
    the set `alive` of observers whose owners still hold them is passed to the
    operations that lock the weak references. */
module Observables {
  import opened Wrappers

  /** Whether an entry locks to a live observer. */
  predicate Live<O>(entry: Option<O>, alive: set<O>)
  {
    entry.Some? && entry.value in alive
  }

  /** The live observers of `entries`, in list order. */
  function LiveObservers<O>(entries: seq<Option<O>>, alive: set<O>): (r: seq<O>)
    ensures forall o :: o in r ==> o in alive
    ensures |r| <= |entries|
  {
    if entries == [] then []
    else (if Live(entries[0], alive) then [entries[0].value] else [])
         + LiveObservers(entries[1..], alive)
  }

  /** What `detachObserver(o)` keeps: every entry whose lock is not `o`. An
      expired entry locks to null, which never equals `o`. */
  function Without<O>(entries: seq<Option<O>>, o: O, alive: set<O>): seq<Option<O>>
  {
    if entries == [] then []
    else (if Live(entries[0], alive) && entries[0].value == o then [] else [entries[0]])
         + Without(entries[1..], o, alive)
  }

  /** Entries up to the first null pointer, as handles. */
  function BeforeNull<O>(observers: seq<Option<O>>): (r: seq<Option<O>>)
    ensures None !in r
  {
    if observers == [] || observers[0].None? then []
    else [observers[0]] + BeforeNull(observers[1..])
  }

  /** Detaching leaves no live entry for `o`. */
  lemma {:induction false} WithoutRemovesLive<O>(entries: seq<Option<O>>, o: O, alive: set<O>)
    requires o in alive
    ensures Some(o) !in Without(entries, o, alive)
  {
    if entries != [] {
      WithoutRemovesLive(entries[1..], o, alive);
    }
  }

  /** Detaching keeps every other entry, expired ones included. */
  lemma {:induction false} WithoutKeepsOthers<O>(entries: seq<Option<O>>, o: O, alive: set<O>, e: Option<O>)
    requires e in entries
    requires !(Live(e, alive) && e.value == o)
    ensures e in Without(entries, o, alive)
  {
    if entries[0] != e {
      WithoutKeepsOthers(entries[1..], o, alive, e);
    }
  }

  /** `Without` only deletes entries: it is never longer than its input, keeps
      a sub-multiset of it, and is the input itself exactly when no entry
      matched. That it keeps the order of what it keeps is `WithoutAppend`. */
  lemma {:induction false} WithoutIsFilter<O>(entries: seq<Option<O>>, o: O, alive: set<O>)
    ensures |Without(entries, o, alive)| <= |entries|
    ensures multiset(Without(entries, o, alive)) <= multiset(entries)
    ensures Without(entries, o, alive) == entries <==> forall i :: 0 <= i < |entries| ==> !(Live(entries[i], alive) && entries[i].value == o)
  {
    if entries != [] {
      WithoutIsFilter(entries[1..], o, alive);
      assert entries == [entries[0]] + entries[1..];
      if Live(entries[0], alive) && entries[0].value == o {
        assert |Without(entries, o, alive)| < |entries|;
      } else {
        forall i | 0 < i < |entries| ensures entries[i] == entries[1..][i - 1] { }
      }
    }
  }

  /** Detaching works entry by entry, left to right: what is kept of a
      concatenation is what is kept of each part, in the same order. */
  lemma {:induction false} WithoutAppend<O>(a: seq<Option<O>>, b: seq<Option<O>>, o: O, alive: set<O>)
    ensures Without(a + b, o, alive) == Without(a, o, alive) + Without(b, o, alive)
  {
    if a == [] {
      assert a + b == b;
    } else {
      assert (a + b)[0] == a[0];
      assert (a + b)[1..] == a[1..] + b;
      WithoutAppend(a[1..], b, o, alive);
      var head := if Live(a[0], alive) && a[0].value == o then [] else [a[0]];
      assert Without(a + b, o, alive) == head + Without(a[1..] + b, o, alive);
      assert Without(a, o, alive) == head + Without(a[1..], o, alive);
    }
  }

  /** Every live entry is reached by a notification. */
  lemma {:induction false} LiveObserversComplete<O>(entries: seq<Option<O>>, alive: set<O>, i: nat)
    requires i < |entries| && Live(entries[i], alive)
    ensures entries[i].value in LiveObservers(entries, alive)
  {
    if i > 0 {
      assert entries[i] == entries[1..][i - 1];
      LiveObserversComplete(entries[1..], alive, i - 1);
    }
  }

  /** Every observer a notification reaches has an entry in the list. */
  lemma {:induction false} LiveObserversSound<O>(entries: seq<Option<O>>, alive: set<O>, o: O)
    requires o in LiveObservers(entries, alive)
    ensures Some(o) in entries
  {
    if !(Live(entries[0], alive) && entries[0].value == o) {
      LiveObserversSound(entries[1..], alive, o);
      assert Some(o) in entries[1..];
    }
  }

  /** Notification works entry by entry, left to right: the observers reached
      from a concatenation are those reached from each part, in order. */
  lemma {:induction false} LiveObserversAppend<O>(a: seq<Option<O>>, b: seq<Option<O>>, alive: set<O>)
    ensures LiveObservers(a + b, alive) == LiveObservers(a, alive) + LiveObservers(b, alive)
  {
    if a == [] {
      assert a + b == b;
    } else {
      assert (a + b)[0] == a[0];
      assert (a + b)[1..] == a[1..] + b;
      LiveObserversAppend(a[1..], b, alive);
      var head := if Live(a[0], alive) then [a[0].value] else [];
      assert LiveObservers(a + b, alive) == head + LiveObservers(a[1..] + b, alive);
      assert LiveObservers(a, alive) == head + LiveObservers(a[1..], alive);
    }
  }

  /** Detaching is idempotent. */
  lemma {:induction false} WithoutIdempotent<O>(entries: seq<Option<O>>, o: O, alive: set<O>)
    ensures Without(Without(entries, o, alive), o, alive) == Without(entries, o, alive)
  {
    if entries != [] {
      WithoutIdempotent(entries[1..], o, alive);
      var rest := Without(entries[1..], o, alive);
      if !(Live(entries[0], alive) && entries[0].value == o) {
        var kept := [entries[0]] + rest;
        assert Without(entries, o, alive) == kept;
        assert kept[0] == entries[0] && kept[1..] == rest;
        assert Without(kept, o, alive) == [entries[0]] + Without(rest, o, alive);
      } else {
        assert Without(entries, o, alive) == [] + rest == rest;
      }
    }
  }

  /** One call of `update(message)` on an observer. */
  datatype Update<O, M> = Update(observer: O, message: M)

  class Observable<O(==)> {
    /** `mObservers`: the weak references, in attachment order. */
    var observers: seq<Option<O>>

    /** The default constructor: no observers. */
    constructor ()
      ensures observers == []
    {
      observers := [];
    }

    /** The list constructor stores every pointer as a weak reference without
        checking it; a null pointer becomes an expired entry. */
    constructor FromList(list: seq<Option<O>>)
      ensures observers == list
    {
      observers := list;
    }

    /** The copy constructor copies the list. */
    constructor Copy(other: Observable<O>)
      ensures observers == other.observers
    {
      observers := other.observers;
    }

    /** Appends `observer`; a null pointer throws `std::invalid_argument` and
        leaves the list as it was. Attaching twice gives two entries. */
    method Attach(observer: Option<O>) returns (r: Outcome)
      modifies this
      ensures observer.None? ==> r == Fail(InvalidArgument("Empty reference to observer")) && observers == old(observers)
      ensures observer.Some? ==> r == Pass && observers == old(observers) + [observer]
    {
      if observer.None? {
        return Fail(InvalidArgument("Empty reference to observer"));
      }
      observers := observers + [observer];
      r := Pass;
    }

    /** The list form attaches each pointer in order; a null pointer throws,
        so the pointers before it stay attached and the rest are not. */
    method AttachAll(list: seq<Option<O>>) returns (r: Outcome)
      modifies this
      ensures r.Fail? <==> None in list
      ensures r.Fail? ==> r.error == InvalidArgument("Empty reference to observer")
      ensures observers == old(observers) + BeforeNull(list)
    {
      var i := 0;
      while i < |list|
        invariant 0 <= i <= |list|
        invariant None !in list[..i]
        invariant observers == old(observers) + list[..i]
        invariant BeforeNull(list) == list[..i] + BeforeNull(list[i..])
      {
        assert list[i..][1..] == list[i + 1..];
        r := Attach(list[i]);
        if r.Fail? {
          return;
        }
        assert list[..i + 1] == list[..i] + [list[i]];
        i := i + 1;
      }
      assert list[..i] == list;
      r := Pass;
    }

    /** Removes every entry that locks to `observer`; a null pointer throws
        `std::invalid_argument`. Expired entries stay. */
    method Detach(observer: Option<O>, alive: set<O>) returns (r: Outcome)
      modifies this
      ensures observer.None? ==> r == Fail(InvalidArgument("Empty reference to observer")) && observers == old(observers)
      ensures observer.Some? ==> r == Pass && observers == Without(old(observers), observer.value, alive)
    {
      if observer.None? {
        return Fail(InvalidArgument("Empty reference to observer"));
      }
      observers := Without(observers, observer.value, alive);
      r := Pass;
    }

    /** `notifyObservers(message)`: takes a snapshot of the list, then calls
        `update(message)` on each entry of it that still locks, in order. The
        calls made are returned; the list is not changed. */
    method Notify<M>(message: M, alive: set<O>) returns (calls: seq<Update<O, M>>)
      ensures |calls| == |LiveObservers(observers, alive)|
      ensures forall i :: 0 <= i < |calls| ==> calls[i] == Update(LiveObservers(observers, alive)[i], message)
    {
      var snapshot := observers;
      calls := [];
      ghost var called: seq<O> := [];
      var i := 0;
      while i < |snapshot|
        invariant 0 <= i <= |snapshot|
        invariant LiveObservers(snapshot, alive) == called + LiveObservers(snapshot[i..], alive)
        invariant |calls| == |called|
        invariant forall k :: 0 <= k < |calls| ==> calls[k] == Update(called[k], message)
      {
        assert snapshot[i..][1..] == snapshot[i + 1..];
        if Live(snapshot[i], alive) {
          calls := calls + [Update(snapshot[i].value, message)];
          called := called + [snapshot[i].value];
        }
        i := i + 1;
      }
      assert called + LiveObservers(snapshot[i..], alive) == called;
    }
  }
}
