/** include/experiment/experiment.h: an experiment runs a list of treatments,
    each in training or treatment mode. The list is filled while the
    experiment is Initial; `start` copies it into a first-in first-out queue,
    and `next` takes treatments from that queue one at a time. */
module Experiments {
  import opened Wrappers

  datatype ExperimentState = Initial | Started | Running | Paused | Stopped
  datatype ExperimentOrder = Random | Sequential
  datatype ExperimentMode = Training | Treatment

  /** The states in which `next` may be called. */
  predicate Active(s: ExperimentState)
  {
    s == Started || s == Running || s == Paused
  }

  /** Every training entry comes before every treatment entry. */
  predicate TrainingFirst<Tr>(s: seq<(Tr, ExperimentMode)>)
  {
    forall i, j :: 0 <= i < j < |s| ==> s[i].1 == Training || s[j].1 == Treatment
  }

  /** `std::partition` by mode: training entries first, then treatment
      entries. It is computed in one pass that sorts each entry into one of two
      groups. */
  method Partition<Tr>(s: seq<(Tr, ExperimentMode)>) returns (a: seq<(Tr, ExperimentMode)>)
    ensures multiset(a) == multiset(s)
    ensures TrainingFirst(a)
  {
    var training, treatment := [], [];
    for k := 0 to |s|
      invariant multiset(training) + multiset(treatment) == multiset(s[..k])
      invariant forall e :: e in training ==> e.1 == Training
      invariant forall e :: e in treatment ==> e.1 == Treatment
    {
      assert s[..k + 1] == s[..k] + [s[k]];
      if s[k].1 == Training {
        training := training + [s[k]];
      } else {
        treatment := treatment + [s[k]];
      }
    }
    assert s[..|s|] == s;
    a := training + treatment;
    forall i, j | 0 <= i < j < |a| ensures a[i].1 == Training || a[j].1 == Treatment {
      if i < |training| {
        assert a[i] in training;
      } else {
        assert a[j] == treatment[j - |training|];
        assert a[j] in treatment;
      }
    }
  }

  class Experiment<Tr(==)> {
    var state: ExperimentState
    const order: ExperimentOrder
    var mode: ExperimentMode
    const name: string
    const subject: string
    /** `mTreatmentList`: the treatments appended so far, with their modes. */
    var list: seq<(Tr, ExperimentMode)>
    /** `mTreatmentQueue`: the treatments still to run, front first. */
    var queue: seq<(Tr, ExperimentMode)>
    /** `pCurrentTreatment`: the treatment being run, or null. */
    var current: Option<Tr>

    /** Outside a run the queue is empty, and no treatment is current until
        `next` has taken one. */
    ghost predicate Valid()
      reads this
    {
      && (state == Initial || state == Stopped ==> queue == [])
      && (state == Initial || state == Started || state == Stopped ==> current == None)
    }

    /** A new experiment is Initial, in training mode, with no treatments. */
    constructor (name: string, subject: string, order: ExperimentOrder)
      ensures Valid()
      ensures state == Initial && mode == Training && this.order == order
      ensures this.name == name && this.subject == subject
      ensures list == [] && queue == [] && current == None
    {
      state := Initial;
      mode := Training;
      this.order := order;
      this.name := name;
      this.subject := subject;
      list := [];
      queue := [];
      current := None;
    }

    function State(): ExperimentState reads this { state }
    function Mode(): ExperimentMode reads this { mode }
    function Order(): ExperimentOrder { order }
    function Name(): string { name }
    function Subject(): string { subject }
    /** `size`: the number of treatments left in the queue. */
    function Size(): nat reads this { |queue| }
    function CurrentTreatment(): Option<Tr> reads this { current }

    /** Appends `(treatment, mode)` to the list; only allowed while Initial. */
    method Append(treatment: Tr, mode: ExperimentMode := Treatment) returns (r: Outcome)
      requires Valid()
      modifies this
      ensures Valid()
      ensures old(state) != Initial ==> r == Fail(RuntimeError("attempt to append after started")) && unchanged(this)
      ensures old(state) == Initial ==> r == Pass && list == old(list) + [(treatment, mode)]
      ensures old(state) == Initial ==> state == old(state) && this.mode == old(this.mode) && queue == old(queue) && current == old(current)
    {
      if state != Initial {
        return Fail(RuntimeError("attempt to append after started"));
      }
      list := list + [(treatment, mode)];
      r := Pass;
    }

    /** Takes the next treatment from the queue and runs it; on an empty
        queue stops the experiment and answers false. Only allowed while
        Started, Running or Paused. */
    method Next() returns (r: Result<bool>)
      requires Valid()
      modifies this
      ensures Valid()
      ensures !Active(old(state)) ==> r == Failure(RuntimeError("attempt to get next while inactive")) && unchanged(this)
      ensures Active(old(state)) && old(queue) == [] ==>
                r == Success(false) && state == Stopped && queue == [] && current == None
                && mode == old(mode) && list == old(list)
      ensures Active(old(state)) && old(queue) != [] ==>
                r == Success(true) && state == Running && queue == old(queue)[1..]
                && current == Some(old(queue)[0].0) && mode == old(queue)[0].1 && list == old(list)
    {
      if !Active(state) {
        return Failure(RuntimeError("attempt to get next while inactive"));
      }
      if queue == [] {
        Stop();
        return Success(false);
      }
      current := Some(queue[0].0);
      mode := queue[0].1;
      queue := queue[1..];
      state := Running;
      r := Success(true);
    }

    /** `process`: hands the current treatment to `processor`, only while
        Running or Paused. The source asserts that a treatment is current
        then, which is this method's precondition. The asynchronous call is
        modelled by its result. */
    method Process<TS>(processor: Tr -> TS) returns (r: Result<TS>)
      requires state == Running || state == Paused ==> current.Some?
      ensures state != Running && state != Paused ==> r == Failure(RuntimeError("attempt to process while inactive"))
      ensures state == Running || state == Paused ==> r == Success(processor(current.value))
    {
      if state != Running && state != Paused {
        return Failure(RuntimeError("attempt to process while inactive"));
      }
      r := Success(processor(current.value));
    }

    /** `pause` as written: the error for a call outside Running is built but
        not thrown, so the experiment becomes Paused from any state. */
    method PauseAsWritten()
      requires Valid()
      modifies this
      ensures Valid()
      ensures state == Paused
      ensures mode == old(mode) && list == old(list) && queue == old(queue) && current == old(current)
    {
      state := Paused;
    }

    /** `pause` as documented: only a Running experiment may be paused. */
    method Pause() returns (r: Outcome)
      requires Valid()
      modifies this
      ensures Valid()
      ensures old(state) != Running ==> r == Fail(RuntimeError("attempt to pause inactive experiment")) && unchanged(this)
      ensures old(state) == Running ==> r == Pass && state == Paused
      ensures mode == old(mode) && list == old(list) && queue == old(queue) && current == old(current)
    {
      if state != Running {
        return Fail(RuntimeError("attempt to pause inactive experiment"));
      }
      state := Paused;
      r := Pass;
    }

    /** `resume` as written: the error for a call outside Paused is built but
        not thrown, so the experiment becomes Running from any state. */
    method ResumeAsWritten()
      requires Valid()
      modifies this
      ensures Valid()
      ensures state == Running
      ensures mode == old(mode) && list == old(list) && queue == old(queue) && current == old(current)
    {
      state := Running;
    }

    /** `resume` as documented: only a Paused experiment may resume. */
    method Resume() returns (r: Outcome)
      requires Valid()
      modifies this
      ensures Valid()
      ensures old(state) != Paused ==> r == Fail(RuntimeError("attempt to resume before pausing.")) && unchanged(this)
      ensures old(state) == Paused ==> r == Pass && state == Running
      ensures mode == old(mode) && list == old(list) && queue == old(queue) && current == old(current)
    {
      if state != Paused {
        return Fail(RuntimeError("attempt to resume before pausing."));
      }
      state := Running;
      r := Pass;
    }

    /** Shuffles the list and then moves every training entry before every
        treatment entry; an empty list is left alone. The shuffle draws on a
        random device, so any permutation may come out of it. */
    method Randomize()
      modifies this
      ensures old(list) == [] ==> list == []
      ensures multiset(list) == multiset(old(list))
      ensures TrainingFirst(list)
      ensures state == old(state) && mode == old(mode) && queue == old(queue) && current == old(current)
    {
      if list == [] {
        return;
      }
      var shuffled :| multiset(shuffled) == multiset(list);
      list := Partition(shuffled);
    }

    /** `start` as written: its guard `state != Initial || state != Stopped`
        holds in every state, so it always throws and changes nothing. The
        steps after the guard are those of `Start`, and are never reached. */
    method StartAsWritten() returns (r: Outcome)
      ensures r == Fail(RuntimeError("attempt to start before stop"))
    {
      if state != Initial || state != Stopped {
        return Fail(RuntimeError("attempt to start before stop"));
      }
    }

    /** `start` as documented: allowed in Initial and Stopped, refuses an empty
        list, randomizes the list when the order is Random, then queues the
        list in list order and becomes Started. */
    method Start() returns (r: Outcome)
      requires Valid()
      modifies this
      ensures Valid()
      ensures old(state) != Initial && old(state) != Stopped ==>
                r == Fail(RuntimeError("attempt to start before stop")) && unchanged(this)
      ensures (old(state) == Initial || old(state) == Stopped) && old(list) == [] ==>
                r == Fail(RuntimeError("no treatments have been added")) && unchanged(this)
      ensures (old(state) == Initial || old(state) == Stopped) && old(list) != [] ==>
                && r == Pass && state == Started && queue == list
                && mode == old(mode) && current == old(current)
                && (order == Sequential ==> list == old(list))
                && (order == Random ==> multiset(list) == multiset(old(list)) && TrainingFirst(list))
    {
      if state != Initial && state != Stopped {
        return Fail(RuntimeError("attempt to start before stop"));
      }
      if list == [] {
        return Fail(RuntimeError("no treatments have been added"));
      }
      if order == Random {
        Randomize();
      }
      ghost var shuffled := list;
      var i := 0;
      while i < |list|
        invariant 0 <= i <= |list|
        invariant queue == list[..i]
        invariant list == shuffled && state == old(state) && mode == old(mode) && current == old(current)
      {
        queue := queue + [list[i]];
        i := i + 1;
      }
      state := Started;
      r := Pass;
    }

    /** Clears the current treatment and the queue, and becomes Stopped. */
    method Stop()
      modifies this
      ensures Valid()
      ensures state == Stopped && queue == [] && current == None
      ensures mode == old(mode) && list == old(list)
    {
      current := None;
      queue := [];
      state := Stopped;
    }

    /** Stops, clears the list and returns to Initial. */
    method Reset()
      modifies this
      ensures Valid()
      ensures state == Initial && list == [] && queue == [] && current == None
      ensures mode == old(mode)
    {
      Stop();
      list := [];
      state := Initial;
    }
  }

  /** A sequential experiment runs its treatments in the order appended, then
      stops. */
  method SequentialRun()
  {
    var e := new Experiment<int>("e", "s", Sequential);
    var a := e.Append(1, Training);
    a := e.Append(2);
    var started := e.Start();
    assert started == Pass && e.Size() == 2;
    var n := e.Next();
    assert n == Success(true) && e.current == Some(1) && e.mode == Training;
    var before := e.Process((t: int) => t + 10);
    assert before == Success(11);
    n := e.Next();
    assert n == Success(true) && e.current == Some(2) && e.mode == Treatment;
    n := e.Next();
    assert n == Success(false) && e.state == Stopped;
    var after := e.Process((t: int) => t + 10);
    assert after.Failure?;
    a := e.Append(3);
    assert a.Fail?;
  }

  /** `start` as written refuses a fresh experiment that has a treatment,
      which the documented `start` accepts. */
  method StartDiscrepancy()
  {
    var e := new Experiment<int>("e", "s", Sequential);
    var a := e.Append(1);
    var written := e.StartAsWritten();
    assert written.Fail? && e.state == Initial;
    var intended := e.Start();
    assert intended == Pass && e.state == Started && e.queue == [(1, Treatment)];
  }

  /** `pause` and `resume` as written change the state of a fresh experiment,
      which the documented ones refuse. */
  method PauseResumeDiscrepancy()
  {
    var e := new Experiment<int>("e", "s", Sequential);
    var p := e.Pause();
    assert p.Fail? && e.state == Initial;
    var r := e.Resume();
    assert r.Fail? && e.state == Initial;
    e.PauseAsWritten();
    assert e.state == Paused;
    var f := new Experiment<int>("f", "s", Sequential);
    f.ResumeAsWritten();
    assert f.state == Running;
  }
}
