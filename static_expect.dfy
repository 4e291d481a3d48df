/**
  The STATIC_EXPECT_THAT pipeline: one macro expansion, from the raw call to the diagnostics
  the compiler reports for it.

  The call's macro arguments form an invocation state (matcher, arguments, conversion). The
  expansion declares, inside one local struct, `matcherResult` (the matcher instantiated with
  the converted arguments), a static_assert on its value when that is switched on, and for
  every argument position i an alias that reaches into `Type_i<...>::Show_Me_The_Type`, which
  is private unless the selected type is the placeholder `void_`.

  Name lookup and `decltype` belong to the compiler; the environment `Env` supplies them.
*/
module StaticExpect {
  import opened Wrappers
  import opened PPTokens
  import opened PPRemoveParen
  import opened PPMisc
  import opened Matchers

  /**
    The configuration macros: ST_STATIC_EXPECT_CONFIG_NUM_MATCHER_ARGS,
    ..._USE_NEWLINES_IN_MESSAGE (defined or not), ..._TYPEDISPLAY_PREFIX and ..._STATIC_ASSERT.
  */
  datatype Config = Config(numMatcherArgs: nat, useNewlines: bool, typeDisplayPrefix: string, staticAssert: int)

  /** The defaults; the newline form is chosen for the Visual C++ compiler only. */
  function DefaultConfig(msvc: bool): Config {
    Config(5, msvc, "Type", 1)
  }

  /** How an argument becomes a type: ST_STATIC_EXPECT_THAT_idType_ (remove-paren) or `decltype`. */
  datatype Conversion = IdType | Decltype

  /** The compiler's view: what type a type expression names, what `decltype` of an expression is, what matcher an expression names. */
  datatype Env = Env(
    typeNamed: seq<Tok> -> Option<Ty>,
    typeOfExpr: seq<Tok> -> Option<Ty>,
    matcherNamed: seq<Tok> -> Option<Matcher>)

  /** The tuple state: the matcher's text, the arguments' texts, the conversion. */
  datatype Invocation = Invocation(matcher: seq<Tok>, args: seq<seq<Tok>>, toType: Conversion)

  /** What a macro expansion reports. */
  datatype Diagnostic =
    | NestingLimit                     // a remove-paren past its limit makes the expansion ill-formed
    | IllFormed                        // the matcher or an argument type does not instantiate
    | StaticFailure(message: string)   // the static_assert on matcherResult::value
    | ForgedError(position: nat, ty: Ty)  // private ::Show_Me_The_Type of Type_i<ty>
    | UndeclaredCarrier(position: nat)    // Type_i was never stamped for this position

  // ---- Constructor and accessors ----

  /** ST_StaticExpectThatImpl_initTuple_: the back of the sequence is the matcher, the rest the arguments. */
  function InitTuple(userArgs: seq<seq<Tok>>, conv: Conversion): (st: Invocation)
    requires |userArgs| >= 1
    ensures st.args + [st.matcher] == userArgs && |st.args| == |userArgs| - 1
  {
    BackPopBack(userArgs);
    Invocation(SeqBack(userArgs), SeqPopBack(userArgs), conv)
  }

  /**
    ST_StaticExpectThatImpl_ctor_. A one-element call is taken as its documented intent:
    that element is the matcher and there are no arguments, as the tuple built from the
    whole sequence gives.
  */
  function Ctor(userArgs: seq<seq<Tok>>, conv: Conversion): (st: Invocation)
    requires |userArgs| >= 1
    ensures st.args + [st.matcher] == userArgs
    ensures st.toType == conv
  {
    InitTuple(userArgs, conv)
  }

  /** ST_StaticExpectThatImpl_numArgs_. */
  function NumArgs(st: Invocation): nat {
    |st.args|
  }

  // ---- Argument conversion and matcher invocation ----

  /**
    `toType(arg)`: the type of one argument, or None when it does not name one. Under
    IdType the argument's leading groups are removed first, so it names the type its fully
    peeled text names, and nothing past the nesting limit; `decltype` sees the text as written.
  */
  function ToType(conv: Conversion, arg: seq<Tok>, env: Env): (r: Option<Ty>)
    ensures conv == IdType ==>
      r == if LeadingDepth(arg) <= Limit then env.typeNamed(PeelAll(arg)) else None
    ensures conv == Decltype ==> r == env.typeOfExpr(arg)
  {
    RemoveParenIsPeelAll(arg);
    match conv
    case IdType =>
      (match RemoveParen(arg)
       case Ok(ts) => env.typeNamed(ts)
       case Breach(_, _) => None)
    case Decltype => env.typeOfExpr(arg)
  }

  /** ST_StaticExpectThatImpl_ttypeList_: `, toType(arg)` for each argument; None if any is not a type. */
  function TypeList(conv: Conversion, args: seq<seq<Tok>>, env: Env): (r: Option<seq<Ty>>)
    ensures r.Some? ==> |r.value| == |args|
    decreases |args|
  {
    if args == [] then Some([])
    else
      var t := ToType(conv, args[0], env);
      var ts := TypeList(conv, args[1..], env);
      if t.Some? && ts.Some? then Some([t.value] + ts.value) else None
  }

  /** The matcher named by the matcher text, its guarding parentheses removed, up to the limit. */
  function MatcherOf(st: Invocation, env: Env): (r: Option<Matcher>)
    ensures r == if LeadingDepth(st.matcher) <= Limit then env.matcherNamed(PeelAll(st.matcher)) else None
  {
    RemoveParenIsPeelAll(st.matcher);
    match RemoveParen(st.matcher)
    case Ok(ts) => env.matcherNamed(ts)
    case Breach(_, _) => None
  }

  /**
    ST_StaticExpectThatImpl_invokeMatcher_: `matcherResult::value`, or None when it is
    ill-formed. A remove-paren past its limit leaves nothing to instantiate, and no
    more arguments than `boost::mpl::apply` accepts can give a result.
  */
  function MatcherResult(st: Invocation, env: Env): (r: Option<bool>)
    ensures HitsNestingLimit(st) ==> r.None?
    ensures r.Some? ==> NumArgs(st) <= MplArity
  {
    TypeListInOrder(st.toType, st.args, env);
    var m := MatcherOf(st, env);
    var tys := TypeList(st.toType, st.args, env);
    if m.Some? && tys.Some? then InvokeMatcher(m.value, tys.value) else None
  }

  /** Some remove-paren of this expansion (the matcher's, or an argument's under IdType) breaches. */
  predicate HitsNestingLimit(st: Invocation) {
    || RemoveParen(st.matcher).Breach?
    || (st.toType == IdType && exists i :: 0 <= i < |st.args| && RemoveParen(st.args[i]).Breach?)
  }

  // ---- The static_assert and its message ----

  /** `prefix ## i`, the synthetic name of the i-th argument. */
  function ParamName(cfg: Config, i: nat): string {
    cfg.typeDisplayPrefix + NatToString(i)
  }

  /** BOOST_PP_ENUM_PARAMS(n, prefix): `Type0, Type1, ..., Type(n-1)`. */
  function EnumParams(cfg: Config, n: nat): seq<Tok>
    decreases n
  {
    if n == 0 then []
    else if n == 1 then [Word(ParamName(cfg, 0))]
    else EnumParams(cfg, n - 1) + [Comma, Word(ParamName(cfg, n - 1))]
  }

  /** ST_STATIC_EXPECT_listElem_m_: one argument's line of the message. */
  function ListElem(cfg: Config, i: nat, arg: seq<Tok>): string {
    (if cfg.useNewlines then "\n" else ", ") + ParamName(cfg, i) + ": " + Spell(arg)
  }

  /** BOOST_PP_SEQ_FOR_EACH_I over the arguments with ST_STATIC_EXPECT_listElem_m_, from index i. */
  function ListElems(cfg: Config, args: seq<seq<Tok>>, i: nat): string
    decreases |args|
  {
    if args == [] then "" else ListElem(cfg, i, args[0]) + ListElems(cfg, args[1..], i + 1)
  }

  /** ST_StaticExpectThatImpl_assertMsg_, given the matcher text with its parentheses removed. */
  function AssertMsg(cfg: Config, matcherToks: seq<Tok>, args: seq<seq<Tok>>): string {
    Stringize(matcherToks + [Word("<")] + EnumParams(cfg, |args|) + [Word(">")])
      + " fails with:" + ListElems(cfg, args, 0)
  }

  /** ST_STATIC_EXPECT_assert_(x, msg): `static_assert(x, "static failure: " msg ".")`. */
  function AssertStatic(cond: bool, msg: string): (r: seq<Diagnostic>)
    ensures r == [] <==> cond
    ensures !cond ==> r == [StaticFailure("static failure: " + msg + ".")]
  {
    if cond then [] else [StaticFailure("static failure: " + msg + ".")]
  }

  /** ST_StaticExpectThatImpl_staticAssert_: present only when the switch is defined as 1. */
  function StaticAssertPart(cfg: Config, result: bool, msg: string): (r: seq<Diagnostic>)
    ensures r == [] <==> cfg.staticAssert != 1 || result
  {
    if cfg.staticAssert == 1 then AssertStatic(result, msg) else []
  }

  // ---- Forged errors ----

  /**
    The ST_STAMP_ carriers: whether `Type_i<t>::Show_Me_The_Type` is accessible. Only
    positions below the configured maximum are stamped (None: no such template); the
    member is public only in the specialization for the placeholder.
  */
  function SentinelAccessible(cfg: Config, i: nat, t: Ty): Option<bool> {
    if i < cfg.numMatcherArgs then Some(t == Placeholder) else None
  }

  /** ST_StaticExpectThatImpl_forgeError_m_: `Type_i< conditional<result, void_, ty> >::Show_Me_The_Type`. */
  function ForgeError(cfg: Config, result: bool, i: nat, ty: Ty): (r: seq<Diagnostic>)
    ensures |r| <= 1
    ensures r == [] <==> i < cfg.numMatcherArgs && (result || ty == Placeholder)
    ensures i < cfg.numMatcherArgs && !result && ty != Placeholder ==> r == [ForgedError(i, ty)]
  {
    var selected := if result then Placeholder else ty;
    match SentinelAccessible(cfg, i, selected)
    case None => [UndeclaredCarrier(i)]
    case Some(true) => []
    case Some(false) => [ForgedError(i, selected)]
  }

  /** ST_StaticExpectThatImpl_forgeError_: one alias per argument, positions counted from i. */
  function ForgeErrors(cfg: Config, result: bool, tys: seq<Ty>, i: nat): (r: seq<Diagnostic>)
    ensures |r| <= |tys|
    decreases |tys|
  {
    if tys == [] then [] else ForgeError(cfg, result, i, tys[0]) + ForgeErrors(cfg, result, tys[1..], i + 1)
  }

  // ---- The expansion ----

  /**
    ST_StaticExpectThatImpl_do_: everything the local struct makes the compiler report.
    A breach is reported as such, and with the static_assert on, a silent expansion is one
    whose matcher held.
  */
  function Outcome(st: Invocation, env: Env, cfg: Config): (r: seq<Diagnostic>)
    ensures HitsNestingLimit(st) ==> r == [NestingLimit]
    ensures cfg.staticAssert == 1 && r == [] ==> MatcherResult(st, env) == Some(true)
  {
    if HitsNestingLimit(st) then [NestingLimit]
    else
      var m := MatcherOf(st, env);
      var tys := TypeList(st.toType, st.args, env);
      if m.None? || tys.None? then [IllFormed]
      else
        match InvokeMatcher(m.value, tys.value)
        case None => [IllFormed]
        case Some(b) =>
          StaticAssertPart(cfg, b, AssertMsg(cfg, RemoveParen(st.matcher).toks, st.args))
            + ForgeErrors(cfg, b, tys.value, 0)
  }

  /** STATIC_EXPECT_THAT(...): arguments are type expressions, possibly parenthesised. */
  function StaticExpectThat(call: seq<Tok>, env: Env, cfg: Config): seq<Diagnostic> {
    Outcome(Ctor(Split(call), IdType), env, cfg)
  }

  /** STATIC_EXPECT_THAT_EXPR(...): arguments are expressions, converted with decltype. */
  function StaticExpectThatExpr(call: seq<Tok>, env: Env, cfg: Config): seq<Diagnostic> {
    Outcome(Ctor(Split(call), Decltype), env, cfg)
  }

  // ---- Properties: the invocation state ----

  /** With two or more elements, the last is the matcher and the others, in order, the arguments. */
  lemma CtorSeveral(userArgs: seq<seq<Tok>>, conv: Conversion)
    requires |userArgs| >= 2
    ensures Ctor(userArgs, conv).matcher == userArgs[|userArgs| - 1]
    ensures Ctor(userArgs, conv).args == userArgs[..|userArgs| - 1]
    ensures NumArgs(Ctor(userArgs, conv)) == |userArgs| - 1
  {
    var st := Ctor(userArgs, conv);
    assert userArgs[..|userArgs| - 1] == (st.args + [st.matcher])[..|st.args|];
  }

  /** A call with one element takes it as the matcher, with no arguments. */
  lemma CtorSingle(userArgs: seq<seq<Tok>>, conv: Conversion)
    requires |userArgs| == 1
    ensures Ctor(userArgs, conv).matcher == userArgs[0]
    ensures Ctor(userArgs, conv).args == []
  {
  }

  /** The type list converts every argument, in argument order, and is ill-formed iff one of them is. */
  lemma {:induction false} TypeListInOrder(conv: Conversion, args: seq<seq<Tok>>, env: Env)
    ensures TypeList(conv, args, env).Some? <==> forall i :: 0 <= i < |args| ==> ToType(conv, args[i], env).Some?
    ensures TypeList(conv, args, env).Some? ==>
      && |TypeList(conv, args, env).value| == |args|
      && forall i :: 0 <= i < |args| ==> TypeList(conv, args, env).value[i] == ToType(conv, args[i], env).value
    decreases |args|
  {
    if args != [] {
      var tl := args[1..];
      TypeListInOrder(conv, tl, env);
      assert forall i :: 1 <= i < |args| ==> tl[i - 1] == args[i];
      if TypeList(conv, args, env).Some? {
        var r := TypeList(conv, args, env).value;
        forall i | 0 <= i < |args| ensures r[i] == ToType(conv, args[i], env).value {
          if i > 0 {
            assert r[i] == TypeList(conv, tl, env).value[i - 1];
          }
        }
      } else if ToType(conv, args[0], env).Some? {
        var j :| 0 <= j < |tl| && ToType(conv, tl[j], env).None?;
        assert ToType(conv, args[j + 1], env).None?;
      }
    }
  }

  /** The matcher is instantiated with the converted arguments, in argument order. */
  lemma InvokeInArgumentOrder(st: Invocation, env: Env)
    requires MatcherOf(st, env).Some?
    requires forall i :: 0 <= i < |st.args| ==> ToType(st.toType, st.args[i], env).Some?
    ensures MatcherResult(st, env) == InvokeMatcher(MatcherOf(st, env).value,
      seq(|st.args|, i requires 0 <= i < |st.args| => ToType(st.toType, st.args[i], env).value))
  {
    TypeListInOrder(st.toType, st.args, env);
    var tys := seq(|st.args|, i requires 0 <= i < |st.args| => ToType(st.toType, st.args[i], env).value);
    assert TypeList(st.toType, st.args, env).value == tys;
  }

  /** Under STATIC_EXPECT_THAT an argument means the same type whether or not it is parenthesised. */
  lemma IdTypeSeesThroughParens(n: nat, arg: seq<Tok>, env: Env)
    requires n + LeadingDepth(arg) <= Limit
    ensures ToType(IdType, Wrap(n, arg), env) == ToType(IdType, arg, env)
  {
    WrappingIsTransparent(n, arg);
  }

  // ---- Properties: the static_assert message ----

  /** BOOST_PP_ENUM_PARAMS(n, prefix) is n macro arguments, the i-th being `prefix ## i`. */
  lemma {:induction false} EnumParamsArguments(cfg: Config, n: nat)
    requires n >= 1
    ensures Split(EnumParams(cfg, n)) == seq(n, i requires 0 <= i < n => [Word(ParamName(cfg, i))])
    decreases n
  {
    if n == 1 {
      SplitWithoutComma([Word(ParamName(cfg, 0))]);
    } else {
      EnumParamsArguments(cfg, n - 1);
      SplitAppendComma(EnumParams(cfg, n - 1), [Word(ParamName(cfg, n - 1))]);
      SplitWithoutComma([Word(ParamName(cfg, n - 1))]);
      assert EnumParams(cfg, n) == EnumParams(cfg, n - 1) + [Comma] + [Word(ParamName(cfg, n - 1))];
    }
  }

  /** An argument added at the end adds its own line at the end of the message. */
  lemma {:induction false} ListElemsAppend(cfg: Config, args: seq<seq<Tok>>, a: seq<Tok>, i: nat)
    ensures ListElems(cfg, args + [a], i) == ListElems(cfg, args, i) + ListElem(cfg, i + |args|, a)
    decreases |args|
  {
    if args == [] {
      assert ([] + [a])[1..] == [];
    } else {
      assert (args + [a])[0] == args[0];
      assert (args + [a])[1..] == args[1..] + [a];
      ListElemsAppend(cfg, args[1..], a, i + 1);
    }
  }

  /**
    The message reads: the matcher text, `<Type0,...,Type(n-1)>`, " fails with:", then one
    line per argument giving its synthetic name and its source text.
  */
  lemma MessageShape(cfg: Config, matcherToks: seq<Tok>, args: seq<seq<Tok>>)
    ensures AssertMsg(cfg, matcherToks, args) ==
      Spell(matcherToks) + "<" + Spell(EnumParams(cfg, |args|)) + ">" + " fails with:" + ListElems(cfg, args, 0)
  {
    var ps := EnumParams(cfg, |args|);
    var head := matcherToks + [Word("<")];
    var whole := head + ps + [Word(">")];
    assert Stringize(whole) == Spell(whole);
    SpellAppend(head + ps, [Word(">")]);
    SpellAppend(head, ps);
    SpellAppend(matcherToks, [Word("<")]);
    assert Spell([Word("<")]) == "<";
    assert Spell([Word(">")]) == ">";
    assert Stringize(whole) == Spell(matcherToks) + "<" + Spell(ps) + ">";
  }

  // ---- Properties: the forged errors ----

  /** On success every stamped carrier selects the placeholder, so no alias fails. */
  lemma {:induction false} ForgeErrorsSilentOnSuccess(cfg: Config, tys: seq<Ty>, i: nat)
    requires i + |tys| <= cfg.numMatcherArgs
    ensures ForgeErrors(cfg, true, tys, i) == []
    decreases |tys|
  {
    if tys != [] {
      ForgeErrorsSilentOnSuccess(cfg, tys[1..], i + 1);
    }
  }

  /** On failure each position forges one error carrying that argument's resolved type. */
  lemma {:induction false} ForgeErrorsOnFailure(cfg: Config, tys: seq<Ty>, i: nat)
    requires i + |tys| <= cfg.numMatcherArgs
    requires forall k :: 0 <= k < |tys| ==> tys[k] != Placeholder
    ensures ForgeErrors(cfg, false, tys, i) == seq(|tys|, k requires 0 <= k < |tys| => ForgedError(i + k, tys[k]))
    decreases |tys|
  {
    if tys != [] {
      ForgeErrorsOnFailure(cfg, tys[1..], i + 1);
    }
  }

  /**
    Within the stamped positions the forged channel stays silent exactly when the result is
    true or every argument's type is the placeholder itself.
  */
  lemma {:induction false} ForgeErrorsEmptyIff(cfg: Config, b: bool, tys: seq<Ty>, i: nat)
    requires i + |tys| <= cfg.numMatcherArgs
    ensures ForgeErrors(cfg, b, tys, i) == [] <==> b || forall k :: 0 <= k < |tys| ==> tys[k] == Placeholder
    decreases |tys|
  {
    if tys != [] {
      ForgeErrorsEmptyIff(cfg, b, tys[1..], i + 1);
      assert forall k :: 1 <= k < |tys| ==> tys[1..][k - 1] == tys[k];
    }
  }

  /** A position past the stamped carriers fails whatever the matcher said. */
  lemma {:induction false} UnstampedPositionFails(cfg: Config, b: bool, tys: seq<Ty>, i: nat)
    requires i <= cfg.numMatcherArgs < i + |tys|
    ensures UndeclaredCarrier(cfg.numMatcherArgs) in ForgeErrors(cfg, b, tys, i)
    decreases |tys|
  {
    if i < cfg.numMatcherArgs {
      UnstampedPositionFails(cfg, b, tys[1..], i + 1);
    }
  }

  // ---- Properties: one expansion ----

  /** A true result within the stamped positions compiles silently. */
  lemma SuccessIsSilent(st: Invocation, env: Env, cfg: Config)
    requires MatcherResult(st, env) == Some(true)
    requires NumArgs(st) <= cfg.numMatcherArgs
    ensures Outcome(st, env, cfg) == []
  {
    TypeListInOrder(st.toType, st.args, env);
    ForgeErrorsSilentOnSuccess(cfg, TypeList(st.toType, st.args, env).value, 0);
  }

  /**
    A false result gives the static failure first, when switched on, with its exact message,
    and then whatever the forged channel gives, independently of the switch.
  */
  lemma FailureIsReported(st: Invocation, env: Env, cfg: Config)
    requires MatcherResult(st, env) == Some(false)
    ensures TypeList(st.toType, st.args, env).Some?
    ensures var forged := ForgeErrors(cfg, false, TypeList(st.toType, st.args, env).value, 0);
      var msg := "static failure: " + Spell(RemoveParen(st.matcher).toks) + "<" + Spell(EnumParams(cfg, NumArgs(st)))
        + ">" + " fails with:" + ListElems(cfg, st.args, 0) + ".";
      Outcome(st, env, cfg) == (if cfg.staticAssert == 1 then [StaticFailure(msg)] else []) + forged
  {
    var tys := TypeList(st.toType, st.args, env).value;
    var text := AssertMsg(cfg, RemoveParen(st.matcher).toks, st.args);
    StaticFailureText(cfg, RemoveParen(st.matcher).toks, st.args);
    assert Outcome(st, env, cfg) == StaticAssertPart(cfg, false, text) + ForgeErrors(cfg, false, tys, 0);
  }

  lemma StaticFailureText(cfg: Config, matcherToks: seq<Tok>, args: seq<seq<Tok>>)
    ensures "static failure: " + AssertMsg(cfg, matcherToks, args) + "." ==
      "static failure: " + Spell(matcherToks) + "<" + Spell(EnumParams(cfg, |args|))
        + ">" + " fails with:" + ListElems(cfg, args, 0) + "."
  {
    MessageShape(cfg, matcherToks, args);
  }

  /**
    With the static_assert on and the arguments within the stamped positions, an expansion
    reports nothing iff the matcher holds of the converted arguments: an ill-formed matcher
    or argument, or one past the nesting limit, is never silent.
  */
  lemma SucceedsIffMatcherHolds(st: Invocation, env: Env, cfg: Config)
    requires NumArgs(st) <= cfg.numMatcherArgs
    requires cfg.staticAssert == 1
    ensures Outcome(st, env, cfg) == [] <==> MatcherResult(st, env) == Some(true)
  {
    if MatcherResult(st, env) == Some(true) {
      SuccessIsSilent(st, env, cfg);
    }
  }

  /**
    With the static_assert off the forged channel alone reports a false result, for every
    argument whose type is not the placeholder, one error per such argument.
  */
  lemma ForgedChannelAlone(st: Invocation, env: Env, cfg: Config)
    requires MatcherResult(st, env) == Some(false)
    requires NumArgs(st) <= cfg.numMatcherArgs
    requires cfg.staticAssert != 1
    ensures TypeList(st.toType, st.args, env).Some?
    ensures |TypeList(st.toType, st.args, env).value| == |st.args|
    ensures Outcome(st, env, cfg) == [] <==>
      forall k :: 0 <= k < |st.args| ==> TypeList(st.toType, st.args, env).value[k] == Placeholder
  {
    TypeListInOrder(st.toType, st.args, env);
    FailureIsReported(st, env, cfg);
    ForgeErrorsEmptyIff(cfg, false, TypeList(st.toType, st.args, env).value, 0);
  }

  /**
    More arguments than stamped carriers always fail, even when the matcher holds. (A result
    needs at most five arguments, so this arises when fewer carriers are configured.)
  */
  lemma TooManyArgumentsFail(st: Invocation, env: Env, cfg: Config)
    requires MatcherResult(st, env).Some?
    requires NumArgs(st) > cfg.numMatcherArgs
    ensures UndeclaredCarrier(cfg.numMatcherArgs) in Outcome(st, env, cfg)
  {
    TypeListInOrder(st.toType, st.args, env);
    var tys := TypeList(st.toType, st.args, env).value;
    var b := MatcherResult(st, env).value;
    UnstampedPositionFails(cfg, b, tys, 0);
    var sa := StaticAssertPart(cfg, b, AssertMsg(cfg, RemoveParen(st.matcher).toks, st.args));
    assert Outcome(st, env, cfg) == sa + ForgeErrors(cfg, b, tys, 0);
  }

  // ---- End-to-end examples ----

  /** Two comma-free macro arguments separated by a top-level comma. */
  lemma SplitTwo(a: seq<Tok>, b: seq<Tok>)
    requires Comma !in a && Comma !in b
    ensures Split(a + [Comma] + b) == [a, b]
  {
    SplitAppendComma(a, b);
    SplitWithoutComma(a);
    SplitWithoutComma(b);
  }

  /** The text `mp_rename<std::pair<int, float>, std::tuple>`, two top-level commas in it. */
  function RenameText(): seq<Tok> {
    [Word("mp_rename<std::pair<int"), Comma, Word("float>"), Comma, Word("std::tuple>")]
  }

  /** The text `Is<std::tuple<int, float>>`, one top-level comma in it. */
  function IsTupleText(): seq<Tok> {
    [Word("Is<std::tuple<int"), Comma, Word("float>>")]
  }

  /**
    The compiler's view for the examples: `float`, `int`, `Is<int>`, `IsTrue`, the alias
    `mp_rename<std::pair<int, float>, std::tuple>`, which names `std::tuple<int, float>`,
    and the expression `std::true_type{}`, whose `decltype` is `std::true_type`.
  */
  function ExampleEnv(): Env {
    Env(
      ts => if ts == [Word("float")] then Some(UserType("float", None, None))
            else if ts == [Word("int")] then Some(UserType("int", None, None))
            else if ts == RenameText() then Some(UserType("std::tuple<int, float>", None, None))
            else None,
      ts => if ts == [Word("std::true_type{}")] then Some(BoolConstant(true)) else None,
      ts => if ts == [Word("Is<int>")] then Some(Is(UserType("int", None, None)))
            else if ts == IsTupleText() then Some(Is(UserType("std::tuple<int, float>", None, None)))
            else if ts == [Word("IsTrue")] then Some(IsTrue)
            else None)
  }

  lemma ExampleArgumentLine()
    ensures ListElems(DefaultConfig(false), [[Word("float")]], 0) == ", Type0: float"
  {
    var cfg := DefaultConfig(false);
    assert NatToString(0) == "0";
    assert ParamName(cfg, 0) == "Type0";
    assert Spell([Word("float")]) == "float";
    assert ListElem(cfg, 0, [Word("float")]) == ", Type0: float";
    assert [[Word("float")]][1..] == [];
  }

  lemma ExampleParamList()
    ensures Spell(EnumParams(DefaultConfig(false), 1)) == "Type0"
  {
    assert NatToString(0) == "0";
    assert ParamName(DefaultConfig(false), 0) == "Type0";
  }

  /** The message of `Is<int>` on the argument `float`, piece by piece. */
  lemma ExampleMessagePieces()
    ensures AssertMsg(DefaultConfig(false), [Word("Is<int>")], [[Word("float")]]) ==
      "Is<int>" + "<" + "Type0" + ">" + " fails with:" + ", Type0: float"
  {
    MessageShape(DefaultConfig(false), [Word("Is<int>")], [[Word("float")]]);
    ExampleArgumentLine();
    ExampleParamList();
    assert Spell([Word("Is<int>")]) == "Is<int>";
  }

  /** The static failure text for `Is<int>` on the argument `float`. */
  lemma ExampleFailureMessage()
    ensures "static failure: " + AssertMsg(DefaultConfig(false), [Word("Is<int>")], [[Word("float")]]) + "." ==
      "static failure: Is<int><Type0> fails with:, Type0: float."
  {
    ExampleMessagePieces();
    FailureTextOfPieces(AssertMsg(DefaultConfig(false), [Word("Is<int>")], [[Word("float")]]));
  }

  lemma FailureTextOfPieces(t: string)
    requires t == "Is<int>" + "<" + "Type0" + ">" + " fails with:" + ", Type0: float"
    ensures "static failure: " + t + "." == "static failure: Is<int><Type0> fails with:, Type0: float."
  {
  }


  /** The invocation state of `STATIC_EXPECT_THAT(arg, Is<int>)` for a comma-free, group-free argument. */
  lemma ExampleState(arg: Tok)
    requires arg.Word?
    ensures var st := Ctor(Split([arg, Comma, Word("Is<int>")]), IdType);
      && st.args == [[arg]] && st.matcher == [Word("Is<int>")]
      && !HitsNestingLimit(st)
      && MatcherOf(st, ExampleEnv()) == Some(Is(UserType("int", None, None)))
  {
    var call := [arg, Comma, Word("Is<int>")];
    SplitTwo([arg], [Word("Is<int>")]);
    assert call == [arg] + [Comma] + [Word("Is<int>")];
    CtorSeveral(Split(call), IdType);
    NoLeadingGroupIsIdentity([arg]);
    NoLeadingGroupIsIdentity([Word("Is<int>")]);
  }

  /**
    `STATIC_EXPECT_THAT(float, Is<int>)` fails: the static failure names the argument by its
    text and the forged error carries its resolved type.
  */
  lemma ExampleFailure()
    ensures StaticExpectThat([Word("float"), Comma, Word("Is<int>")], ExampleEnv(), DefaultConfig(false)) ==
      [StaticFailure("static failure: Is<int><Type0> fails with:, Type0: float."),
       ForgedError(0, UserType("float", None, None))]
  {
    var cfg := DefaultConfig(false);
    var env := ExampleEnv();
    var flt := UserType("float", None, None);
    var st := Ctor(Split([Word("float"), Comma, Word("Is<int>")]), IdType);
    ExampleState(Word("float"));
    TypeListInOrder(IdType, st.args, env);
    assert ToType(IdType, [Word("float")], env) == Some(flt);
    assert TypeList(IdType, st.args, env).value == [flt];
    assert InvokeMatcher(Is(UserType("int", None, None)), [flt]) == Some(false);
    ExampleFailureMessage();
    assert ForgeErrors(cfg, false, [flt], 0) == [ForgedError(0, flt)];
  }

  /** `STATIC_EXPECT_THAT(int, Is<int>)` compiles silently. */
  lemma ExampleSuccess()
    ensures StaticExpectThat([Word("int"), Comma, Word("Is<int>")], ExampleEnv(), DefaultConfig(false)) == []
  {
    var call := [Word("int"), Comma, Word("Is<int>")];
    var env := ExampleEnv();
    SplitTwo([Word("int")], [Word("Is<int>")]);
    assert call == [Word("int")] + [Comma] + [Word("Is<int>")];
    var st := Ctor(Split(call), IdType);
    CtorSeveral(Split(call), IdType);
    assert st.args == [[Word("int")]] && st.matcher == [Word("Is<int>")];
    NoLeadingGroupIsIdentity([Word("int")]);
    NoLeadingGroupIsIdentity([Word("Is<int>")]);
    assert !HitsNestingLimit(st);
    assert ToType(IdType, st.args[0], env) == Some(UserType("int", None, None));
    TypeListInOrder(IdType, st.args, env);
    assert TypeList(IdType, st.args, env).value == [UserType("int", None, None)];
    SuccessIsSilent(st, env, DefaultConfig(false));
  }

  /** `STATIC_EXPECT_THAT(((int)), Is<int>)`: redundant parentheses around an argument change nothing. */
  lemma ExampleParenthesisedArgument()
    ensures StaticExpectThat([Paren([Paren([Word("int")])]), Comma, Word("Is<int>")], ExampleEnv(), DefaultConfig(false)) == []
  {
    var call := [Paren([Paren([Word("int")])]), Comma, Word("Is<int>")];
    var env := ExampleEnv();
    SplitTwo([Paren([Paren([Word("int")])])], [Word("Is<int>")]);
    assert call == [Paren([Paren([Word("int")])])] + [Comma] + [Word("Is<int>")];
    var st := Ctor(Split(call), IdType);
    CtorSeveral(Split(call), IdType);
    assert st.args == [Wrap(2, [Word("int")])] && st.matcher == [Word("Is<int>")];
    NineLevelsSucceed(2, [Word("int")]);
    NoLeadingGroupIsIdentity([Word("Is<int>")]);
    assert !HitsNestingLimit(st);
    assert ToType(IdType, st.args[0], env) == Some(UserType("int", None, None));
    TypeListInOrder(IdType, st.args, env);
    assert TypeList(IdType, st.args, env).value == [UserType("int", None, None)];
    SuccessIsSilent(st, env, DefaultConfig(false));
  }

  /**
    `STATIC_EXPECT_THAT((mp_rename<std::pair<int, float>, std::tuple>), (Is<std::tuple<int, float>>))`
    compiles silently: the parentheses keep the inner commas from splitting the call, and
    remove-paren gives both texts back with their commas.
  */
  lemma ExampleRenameToTuple()
    ensures StaticExpectThat([Paren(RenameText()), Comma, Paren(IsTupleText())], ExampleEnv(), DefaultConfig(false)) == []
  {
    var call := [Paren(RenameText()), Comma, Paren(IsTupleText())];
    var env := ExampleEnv();
    var tup := UserType("std::tuple<int, float>", None, None);
    SplitTwo([Paren(RenameText())], [Paren(IsTupleText())]);
    assert call == [Paren(RenameText())] + [Comma] + [Paren(IsTupleText())];
    var st := Ctor(Split(call), IdType);
    CtorSeveral(Split(call), IdType);
    assert st.args == [Wrap(1, RenameText())] && st.matcher == Wrap(1, IsTupleText());
    LeadingDepthOfWrap(1, RenameText());
    LeadingDepthOfWrap(1, IsTupleText());
    assert LeadingDepth(st.matcher) == 1 && PeelAll(st.matcher) == IsTupleText();
    assert LeadingDepth(st.args[0]) == 1 && PeelAll(st.args[0]) == RenameText();
    assert MatcherOf(st, env) == Some(Is(tup));
    assert ToType(IdType, st.args[0], env) == Some(tup);
    TypeListInOrder(IdType, st.args, env);
    assert TypeList(IdType, st.args, env).value == [tup];
    SuccessIsSilent(st, env, DefaultConfig(false));
  }


  /**
    `STATIC_EXPECT_THAT_EXPR(std::true_type{}, IsTrue)` compiles silently: the argument is an
    expression, converted with `decltype`, whose type holds `::value` 1.
  */
  lemma ExampleExprSuccess()
    ensures StaticExpectThatExpr([Word("std::true_type{}"), Comma, Word("IsTrue")], ExampleEnv(), DefaultConfig(false)) == []
  {
    var call := [Word("std::true_type{}"), Comma, Word("IsTrue")];
    var env := ExampleEnv();
    SplitTwo([Word("std::true_type{}")], [Word("IsTrue")]);
    assert call == [Word("std::true_type{}")] + [Comma] + [Word("IsTrue")];
    var st := Ctor(Split(call), Decltype);
    CtorSeveral(Split(call), Decltype);
    assert st.args == [[Word("std::true_type{}")]] && st.matcher == [Word("IsTrue")];
    assert MatcherOf(st, env) == Some(IsTrue);
    assert ToType(Decltype, st.args[0], env) == Some(BoolConstant(true));
    TypeListInOrder(Decltype, st.args, env);
    assert TypeList(Decltype, st.args, env).value == [BoolConstant(true)];
    IsTrueMatches(BoolConstant(true));
    SuccessIsSilent(st, env, DefaultConfig(false));
  }
}
