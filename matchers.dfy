/**
  The matcher vocabulary of static_expect.hpp over an abstract universe of C++ types.

  A matcher is a metafunction class: `boost::mpl::apply<M, T...>::type` is the nested
  `apply<T...>::type` of M. Every matcher here yields a `std::integral_constant<bool, b>`
  for that type. `Apply` returns the type itself, so the two ways the library reads a
  result can both be stated: once more `::type` then `::value` (InvokeMatcher), or just
  `::value` (Not).
*/
module Matchers {
  import opened Wrappers

  /**
    BOOST_MPL_LIMIT_METAFUNCTION_ARITY: `boost::mpl::apply<F, T...>` takes at most this
    many arguments; with more it does not instantiate.
  */
  const MplArity: nat := 5

  /** The width of the C++ `int` that `Eq<N>` compares in. */
  newtype int32 = x: int | -0x8000_0000 <= x < 0x8000_0000

  /**
    The types a matcher can see. `Placeholder` is `st::detail::void_`, declared and never
    defined, so it has no members. `IntegralConstant(vt, v)` is `std::integral_constant<vt, v>`,
    whose `::type` is itself and whose `::value` is v. Any other type may or may not have
    a nested `::type` and an integral `::value`.
  */
  datatype Ty =
    | Placeholder
    | IntegralConstant(valueType: string, v: int)
    | UserType(name: string, nested: Option<Ty>, constant: Option<int>)

  /** `typename T::type`, or None when T has no such member. */
  function TypeMember(t: Ty): Option<Ty> {
    match t
    case Placeholder => None
    case IntegralConstant(_, _) => Some(t)
    case UserType(_, nested, _) => nested
  }

  /** `T::value`, or None when T has no such member. */
  function ValueMember(t: Ty): Option<int> {
    match t
    case Placeholder => None
    case IntegralConstant(_, v) => Some(v)
    case UserType(_, _, c) => c
  }

  /** `std::integral_constant<bool, b>`; `std::true_type` and `std::false_type` are its two values. */
  function BoolConstant(b: bool): (t: Ty)
    ensures ValueMember(t) == Some(if b then 1 else 0) && TypeMember(t) == Some(t)
  {
    IntegralConstant("bool", if b then 1 else 0)
  }

  predicate IsBoolConstant(t: Ty) {
    t.IntegralConstant? && t.valueType == "bool" && (t.v == 0 || t.v == 1)
  }

  /** `static_cast<int>(v)`: two's-complement wrap-around into 32 bits. */
  function Int32Cast(v: int): (r: int32)
    ensures -0x8000_0000 <= v < 0x8000_0000 ==> r as int == v
    ensures (v - r as int) % 0x1_0000_0000 == 0
  {
    ((v + 0x8000_0000) % 0x1_0000_0000 - 0x8000_0000) as int32
  }

  /** The matchers: `Is<T>`, `EvalsTo<T>`, `AlwaysFalse`, `AlwaysTrue`, `Not<M>`, `IsTrue`, `Eq<N>`. */
  datatype Matcher =
    | Is(t: Ty)
    | EvalsTo(t: Ty)
    | AlwaysFalse
    | AlwaysTrue
    | Not(m: Matcher)
    | IsTrue
    | Eq(n: int32)

  /** `IsNot<T>`, the alias for `Not<Is<T>>`. */
  function IsNot(t: Ty): Matcher {
    Not(Is(t))
  }

  /**
    `boost::mpl::apply<M, args...>::type`, or None when the instantiation is ill-formed (an
    argument count the matcher's `apply` does not take, more arguments than
    `boost::mpl::apply` accepts, or a member it needs missing). Every well-formed result
    is a bool integral constant.
  */
  function Apply(m: Matcher, args: seq<Ty>): (r: Option<Ty>)
    ensures r.Some? ==> IsBoolConstant(r.value) && |args| <= MplArity
  {
    if |args| > MplArity then None
    else match m
    case Is(t) =>
      if |args| == 1 then Some(BoolConstant(t == args[0])) else None
    case EvalsTo(t) =>
      if |args| == 1 && TypeMember(args[0]).Some? then Some(BoolConstant(t == TypeMember(args[0]).value))
      else None
    case AlwaysFalse => Some(BoolConstant(false))
    case AlwaysTrue => Some(BoolConstant(true))
    case Not(inner) =>
      var r := Apply(inner, args);
      if r.Some? && ValueMember(r.value).Some? then Some(BoolConstant(ValueMember(r.value).value == 0))
      else None
    case IsTrue =>
      // integral_constant<bool, T::value>: a value other than 0 or 1 is a narrowing conversion
      if |args| == 1 && ValueMember(args[0]).Some? && 0 <= ValueMember(args[0]).value <= 1 then
        Some(BoolConstant(ValueMember(args[0]).value == 1))
      else None
    case Eq(n) =>
      if |args| == 1 && ValueMember(args[0]).Some? then Some(BoolConstant(Int32Cast(ValueMember(args[0]).value) == n))
      else None
  }

  /**
    `detail::InvokeMatcher<M, args...>::value`: apply, unwrap `::type` twice, read `::value`.
    It is well-formed exactly when the application is, and is then the constant's truth value.
  */
  function InvokeMatcher(m: Matcher, args: seq<Ty>): (r: Option<bool>)
    ensures r.Some? <==> Apply(m, args).Some?
    ensures r.Some? ==> (r.value <==> ValueMember(Apply(m, args).value) == Some(1))
  {
    match Apply(m, args)
    case None => None
    case Some(r) =>
      match TypeMember(r)
      case None => None
      case Some(r2) =>
        match ValueMember(r2)
        case None => None
        case Some(v) => Some(v != 0)
  }

  /**
    The single unwrap `Not` uses: `boost::mpl::apply<M, args...>::type::value`, well-formed
    exactly when the application is, and then the constant's truth value.
  */
  function ApplyValue(m: Matcher, args: seq<Ty>): (r: Option<bool>)
    ensures r.Some? <==> Apply(m, args).Some?
    ensures r.Some? ==> (r.value <==> ValueMember(Apply(m, args).value) == Some(1))
  {
    match Apply(m, args)
    case None => None
    case Some(r) =>
      match ValueMember(r)
      case None => None
      case Some(v) => Some(v != 0)
  }

  // ---- Properties ----

  /** For every matcher of the vocabulary the double unwrap and the single unwrap agree. */
  lemma UnwrapConventionsAgree(m: Matcher, args: seq<Ty>)
    ensures InvokeMatcher(m, args) == ApplyValue(m, args)
    ensures InvokeMatcher(m, args).Some? <==> Apply(m, args).Some?
  {
  }

  /** `Is<T>` on A is true iff A is T; with any other number of arguments it is ill-formed. */
  lemma IsMatches(t: Ty, args: seq<Ty>)
    ensures InvokeMatcher(Is(t), args) == if |args| == 1 then Some(args[0] == t) else None
  {
  }

  /** `EvalsTo<T>` on A is true iff `A::type` is T, and ill-formed when A has no `::type`. */
  lemma EvalsToMatches(t: Ty, a: Ty)
    ensures InvokeMatcher(EvalsTo(t), [a]) ==
      if TypeMember(a).None? then None else Some(TypeMember(a).value == t)
  {
  }

  /** `Not<M>` is the negation of M, and is ill-formed exactly when M is. */
  lemma NotNegates(m: Matcher, args: seq<Ty>)
    ensures InvokeMatcher(Not(m), args) ==
      if InvokeMatcher(m, args).None? then None else Some(!InvokeMatcher(m, args).value)
  {
    UnwrapConventionsAgree(m, args);
  }

  /** `IsNot<T>` is false on T and true on every other type. */
  lemma IsNotMatches(t: Ty, a: Ty)
    ensures InvokeMatcher(IsNot(t), [a]) == Some(a != t)
  {
    NotNegates(Is(t), [a]);
    IsMatches(t, [a]);
  }

  /** `Eq<N>` on A is true iff `static_cast<int>(A::value) == N`; ill-formed without a `::value`. */
  lemma EqMatches(n: int32, a: Ty)
    ensures InvokeMatcher(Eq(n), [a]) ==
      if ValueMember(a).None? then None else Some(Int32Cast(ValueMember(a).value) == n)
  {
  }

  /**
    `IsTrue` on A is `A::value` read as a bool; any other value narrows to bool and is
    ill-formed, and so is an A without `::value`.
  */
  lemma IsTrueMatches(a: Ty)
    ensures InvokeMatcher(IsTrue, [a]) ==
      if ValueMember(a) == Some(0) then Some(false)
      else if ValueMember(a) == Some(1) then Some(true)
      else None
  {
  }

  /**
    `AlwaysTrue` and `AlwaysFalse` give their constant for any number of arguments, none
    included, that `boost::mpl::apply` accepts.
  */
  lemma AlwaysIgnoresArguments(args: seq<Ty>)
    ensures InvokeMatcher(AlwaysTrue, args) == if |args| <= MplArity then Some(true) else None
    ensures InvokeMatcher(AlwaysFalse, args) == if |args| <= MplArity then Some(false) else None
  {
  }

  /** No matcher instantiates with more arguments than `boost::mpl::apply` accepts. */
  lemma ArityLimit(m: Matcher, args: seq<Ty>)
    requires |args| > MplArity
    ensures InvokeMatcher(m, args) == None
  {
  }

  /** Negating twice gives the matcher back, for every matcher and every argument list. */
  lemma NotNotIsIdentity(m: Matcher, args: seq<Ty>)
    ensures InvokeMatcher(Not(Not(m)), args) == InvokeMatcher(m, args)
  {
    NotNegates(m, args);
    NotNegates(Not(m), args);
  }

  /** `Eq<N>` for N = 0, 1, 5 against `std::integral_constant<int, ...>`, equal and unequal. */
  lemma EqExamples()
    ensures forall n: int32 :: n in {0, 1, 5} ==>
      InvokeMatcher(Eq(n), [IntegralConstant("int", n as int)]) == Some(true) &&
      InvokeMatcher(Eq(n), [IntegralConstant("int", n as int + 1)]) == Some(false)
  {
    forall n: int32 | n in {0, 1, 5}
      ensures InvokeMatcher(Eq(n), [IntegralConstant("int", n as int)]) == Some(true)
      ensures InvokeMatcher(Eq(n), [IntegralConstant("int", n as int + 1)]) == Some(false)
    {
      EqMatches(n, IntegralConstant("int", n as int));
      EqMatches(n, IntegralConstant("int", n as int + 1));
    }
  }

  /** The cast to int wraps: an unsigned constant 2^32 compares equal to `Eq<0>`. */
  lemma EqWrapsAround()
    ensures InvokeMatcher(Eq(0), [IntegralConstant("std::size_t", 0x1_0000_0000)]) == Some(true)
  {
    EqMatches(0, IntegralConstant("std::size_t", 0x1_0000_0000));
  }
}
