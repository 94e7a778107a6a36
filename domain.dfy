/** include/device/domain.h: a domain is a membership predicate over `T`.
    `+` builds the disjunction and `*` the conjunction of two domains. The
    source's closure copies the right operand but reaches the left one
    through `this`; here both operands are kept by value, as a term, so that
    a default-constructed domain, whose `std::function` is empty and throws
    `std::bad_function_call` when called, can be told apart. */
module Domains {
  import opened Wrappers

  datatype Domain<!T(!new)> =
    | Unset                              // `Domain() = default`: no predicate
    | Pred(p: T -> bool)                 // `Domain(std::function<bool(T)>)`
    | Sum(left: Domain<T>, right: Domain<T>)      // `left + right`
    | Product(left: Domain<T>, right: Domain<T>)  // `left * right`
  {
    /** A domain that never reaches an empty predicate. */
    predicate Defined()
    {
      match this
      case Unset => false
      case Pred(_) => true
      case Sum(a, b) => a.Defined() && b.Defined()
      case Product(a, b) => a.Defined() && b.Defined()
    }

    /** `operator()`: evaluates the predicate on `x`. `||` and `&&`
        short-circuit, so the right operand is not called when the left
        decides the answer. */
    function Apply(x: T): (r: Result<bool>)
      ensures Defined() ==> r.Success?
      ensures Unset? ==> r == Failure(BadFunctionCall)
    {
      match this
      case Unset => Failure(BadFunctionCall)
      case Pred(p) => Success(p(x))
      case Sum(a, b) =>
        var u := a.Apply(x);
        if u.Failure? then u
        else if u.value then Success(true)
        else b.Apply(x)
      case Product(a, b) =>
        var u := a.Apply(x);
        if u.Failure? then u
        else if !u.value then Success(false)
        else b.Apply(x)
    }

    /** `operator+`: the union of two domains. */
    function Plus(other: Domain<T>): (d: Domain<T>)
      ensures forall x :: Apply(x) == Success(true) ==> d.Apply(x) == Success(true)
      ensures forall x :: Apply(x) == Success(false) ==> d.Apply(x) == other.Apply(x)
      ensures forall x :: Apply(x).Failure? ==> d.Apply(x) == Apply(x)
    {
      Sum(this, other)
    }

    /** `operator*`: the intersection of two domains. */
    function Times(other: Domain<T>): (d: Domain<T>)
      ensures forall x :: Apply(x) == Success(false) ==> d.Apply(x) == Success(false)
      ensures forall x :: Apply(x) == Success(true) ==> d.Apply(x) == other.Apply(x)
      ensures forall x :: Apply(x).Failure? ==> d.Apply(x) == Apply(x)
    {
      Product(this, other)
    }
  }

  /** The constructor from a predicate: the domain answers exactly as `p`. */
  function Of<T(!new)>(p: T -> bool): (d: Domain<T>)
    ensures d.Defined()
    ensures forall x :: d.Apply(x) == Success(p(x))
  {
    Pred(p)
  }

  /** On defined domains `+` is pointwise disjunction and `*` pointwise
      conjunction. */
  lemma PlusTimesPointwise<T(!new)>(a: Domain<T>, b: Domain<T>, x: T)
    requires a.Defined() && b.Defined()
    ensures a.Plus(b).Defined() && a.Times(b).Defined()
    ensures a.Plus(b).Apply(x).value == (a.Apply(x).value || b.Apply(x).value)
    ensures a.Times(b).Apply(x).value == (a.Apply(x).value && b.Apply(x).value)
  {
  }

  /** Two domains are equivalent when they give the same answer (or the same
      failure) everywhere. */
  ghost predicate Equivalent<T(!new)>(a: Domain<T>, b: Domain<T>)
  {
    forall x :: a.Apply(x) == b.Apply(x)
  }

  /** `+` and `*` commute on defined domains. */
  lemma {:induction false} PlusTimesCommute<T(!new)>(a: Domain<T>, b: Domain<T>)
    requires a.Defined() && b.Defined()
    ensures Equivalent(a.Plus(b), b.Plus(a))
    ensures Equivalent(a.Times(b), b.Times(a))
  {
    forall x ensures a.Plus(b).Apply(x) == b.Plus(a).Apply(x)
                  && a.Times(b).Apply(x) == b.Times(a).Apply(x)
    {
      PlusTimesPointwise(a, b, x);
      PlusTimesPointwise(b, a, x);
    }
  }

  /** Commutativity needs both operands defined: with an empty right operand,
      `a + Unset` still answers where `a` holds, but `Unset + a` throws. */
  lemma PlusCommuteNeedsDefined()
    ensures Pred((x: int) => true).Plus(Unset).Apply(0) == Success(true)
    ensures Unset.Plus(Pred((x: int) => true)).Apply(0) == Failure(BadFunctionCall)
  {
  }

  /** `+` and `*` are associative for all domains, failures included: both
      groupings evaluate the operands left to right and stop at the same point. */
  lemma {:induction false} PlusTimesAssociate<T(!new)>(a: Domain<T>, b: Domain<T>, c: Domain<T>)
    ensures Equivalent(a.Plus(b).Plus(c), a.Plus(b.Plus(c)))
    ensures Equivalent(a.Times(b).Times(c), a.Times(b.Times(c)))
  {
    forall x ensures a.Plus(b).Plus(c).Apply(x) == a.Plus(b.Plus(c)).Apply(x)
                  && a.Times(b).Times(c).Apply(x) == a.Times(b.Times(c)).Apply(x)
    {
    }
  }
}
