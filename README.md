# static_test: a Dafny model of STATIC_EXPECT_THAT and its preprocessor helpers

static_test is a C++ library of compile-time assertions. A call such as
`STATIC_EXPECT_THAT(float, Is<int>)` expands, by the preprocessor and then by template
resolution, into a local struct. That struct instantiates the matcher on the converted
arguments, holds a `static_assert` on the result with a message naming every argument, and
for each argument reaches into `Type_i<...>::Show_Me_The_Type`. That member is private
unless the test passed, so when the test fails the compiler's error shows the argument's
resolved type.

Everything in the library is macro expansion and type computation, and nothing is mutable. The model is
therefore made of datatypes, pure functions and lemmas, in six files:

- `wrappers.dfy`: `Option`.
- `pp_tokens.dfy` (`PPTokens`):
  - macro-argument text as a token tree `Tok = Word | Comma | Paren(seq<Tok>)`;
  - the Boost.PP operations used, by their documented meaning (variadic-to-seq is `Split` at top-level commas, seq-enum is `Join`);
  - spelling (`Spell`) and decimal numerals for `#i`.
- `remove_paren.dfy` (`PPRemoveParen`):
  - `ST_PP_REMOVE_PAREN`: the `DEPAREN_0..9` ladder, the `EAT_` tail eater with its limit breach, and `CAT_FIRST_TWO_ENUM_REST`;
  - an unbounded reference definition (`LeadingDepth`, `PeelAll`) and the theorem tying the two together.
- `pp_misc.dfy` (`PPMisc`): `ST_PP_SEQ_BACK`, `ST_PP_STRINGIZE`, `ST_PP_STRINGIZE_R`, `ST_PP_STRINGIZE_m_` and `ST_PP_IDENTITY`.
- `matchers.dfy` (`Matchers`):
  - an abstract universe of C++ types, each with an optional `::type` and an optional `::value`;
  - the matchers `Is`, `EvalsTo`, `AlwaysFalse`/`AlwaysTrue`, `Not`, `IsNot`, `IsTrue` and `Eq<N>`;
  - `mpl::apply`, and `detail::InvokeMatcher`.
- `static_expect.dfy` (`StaticExpect`):
  - the "preprocessor object" state that the ctor builds, and its accessors;
  - argument conversion (remove-paren for `STATIC_EXPECT_THAT`, `decltype` for `STATIC_EXPECT_THAT_EXPR`);
  - the type list, the assert message, the static-assert switch, the forged errors and the `ST_STAMP_` carriers;
  - `Outcome`: the list of diagnostics one expansion produces.

What the compiler knows, which names denote which types and matchers and what `decltype` of an
expression is, is a parameter `Env` of the model. The configuration macros of
`static_test/config.hpp` are the parameter `Config`. `DefaultConfig` gives their defaults: five carriers, the prefix `Type`, the static_assert switch at 1, and newlines only for Visual C++.

Where the C++ source and its documentation differ, the model follows the source:

- `Eq<N>` compares `static_cast<int>(T::value)`, so the value is wrapped to 32 bits (`EqWrapsAround`).
- `IsTrue` builds `integral_constant<bool, T::value>`, which is ill-formed for any value other than 0 or 1.
- A forged error is produced only when the selected type is not `void_`. So on a false result an argument whose type is `void_` gives no forged error (`ForgeErrorsEmptyIff`).
- Only positions below `NUM_MATCHER_ARGS` have a `Type_i` carrier. A further argument fails even when the matcher holds (`TooManyArgumentsFail`).
- `boost::mpl::apply` accepts at most five arguments, so no matcher instantiates with more (`ArityLimit`), whatever `NUM_MATCHER_ARGS` is.

## Model

| member | source | states |
|---|---|---|
| PPTokens.JoinSplit | static_test/pp/remove_paren.hpp:50-51 | Splitting a macro-argument list at its top-level commas and enumerating the pieces again gives the same tokens (variadic-to-seq then seq-enum loses nothing). |
| PPTokens.SplitJoin | static_test/pp/remove_paren.hpp:95-98 | Enumerating comma-free pieces and splitting them again gives the same pieces. |
| PPTokens.SplitAppendComma | static_test/pp/remove_paren.hpp:50-51 | A top-level comma between two texts separates their macro arguments. |
| PPTokens.SplitWithoutComma | static_test/pp/remove_paren.hpp:50-51 | A text with no top-level comma is one macro argument. |
| PPTokens.Join | static_test/pp/remove_paren.hpp:95-98 | BOOST_PP_SEQ_ENUM: the pieces re-emitted with a comma between each two. No contract of its own; JoinSplit and SplitJoin state that it inverts the split. |
| PPTokens.Split | static_test/pp/remove_paren.hpp:51 | A list always has at least one macro argument, and no argument holds a top-level comma. |
| PPTokens.Spell | static_test/pp/misc.hpp:42 | BOOST_PP_STRINGIZE of a text, whitespace left out. No contract of its own; SpellAppend states that it distributes over concatenation. |
| PPTokens.SpellAppend | static_test/pp/misc.hpp:42 | The spelling of two texts placed side by side is the two spellings concatenated. |
| PPTokens.NatToString | static_test/static_expect.hpp:337 | The numeral stringised for `#i` is a non-empty string of decimal digits. |
| PPTokens.NatToStringRoundTrip | static_test/static_expect.hpp:337 | Reading the stringised index back as a decimal numeral gives the index. |
| PPTokens.PeelShrinks | static_test/pp/remove_paren.hpp:54-62 | Splicing a leading group's contents in place of the group makes the text strictly smaller, so peeling ends. |
| PPRemoveParen.Deparen | static_test/pp/remove_paren.hpp:54-63 | A ladder that stops at a rung stops at a rung between its start and 9, in front of tokens that do not start with a group. |
| PPRemoveParen.CatFirstTwoEnumRest | static_test/pp/remove_paren.hpp:84-99 | Re-emitting comma-free pieces gives text that splits back into exactly those pieces. |
| PPRemoveParen.EatDeparenAndEnum | static_test/pp/remove_paren.hpp:50-51 | The tail eater leaves the ladder's remaining tokens exactly. It succeeds iff the ladder stopped at a rung; past the limit it gives the static_assert with the limit-breach message in front of those tokens. |
| PPRemoveParen.RemoveParen | static_test/pp/remove_paren.hpp:46-47 | Text that does not start with a group comes back unchanged, and a successful result never starts with a group. |
| PPRemoveParen.LeadingDepth | static_test/pp/remove_paren.hpp:54-62 | Reference count of the leading groups, with no limit. No contract of its own; LeadingDepthOfWrap and RemoveParenIsPeelAll state its meaning. |
| PPRemoveParen.LeadingDepthOfWrap | static_test/pp/remove_paren.hpp:23-28 | Each pair of parentheses around a text adds exactly one leading level and leaves the fully peeled text unchanged. |
| PPRemoveParen.DeparenPeels | static_test/pp/remove_paren.hpp:54-63 | From rung k the ladder reaches rung k + (number of leading groups) when that is at most 9, and leaves the fully peeled text; otherwise it ends at LIMIT_BREACH. |
| PPRemoveParen.EnumRestoresCommas | static_test/pp/remove_paren.hpp:84-99 | Catting the tail eater onto the first piece and enumerating the rest gives back every piece, with its commas. |
| PPRemoveParen.RemoveParenIsPeelAll | static_test/pp/remove_paren.hpp:46-99 | The stripper succeeds iff there are at most 9 leading levels, and its output is then the argument with every leading group peeled. |
| PPRemoveParen.NoLeadingGroupIsIdentity | static_test/pp/remove_paren.hpp:66-75 | An argument that does not start with a parenthesised group comes back unchanged. |
| PPRemoveParen.Idempotent | static_test/pp/remove_paren.hpp:20 | A successful output no longer starts with a group, and stripping it again returns it unchanged. |
| PPRemoveParen.PeelsLeadingGroup | static_test/pp/remove_paren.hpp:54-62 | Only a leading group is peeled, and its contents are spliced in front of the remaining tokens. |
| PPRemoveParen.PeelAll | static_test/pp/remove_paren.hpp:20 | The reference peeling leaves text that does not start with a group. |
| PPRemoveParen.DeparenWrap | static_test/pp/remove_paren.hpp:54-63 | Wrapping text in n pairs of parentheses moves the ladder up n rungs, or breaches with nothing left once it passes rung 9. |
| PPRemoveParen.WrappingIsTransparent | static_test/pp/remove_paren.hpp:23-28 | Extra pairs of parentheses that keep the leading levels within 9 do not change the expansion. |
| PPRemoveParen.NineLevelsSucceed | static_test/pp/remove_paren.hpp:78-81 | Up to 9 levels around text that does not start with a group are all removed, and the text comes back. |
| PPRemoveParen.TenthLevelFails | static_test/pp/remove_paren.hpp:63-76 | A tenth level gives `static_assert(false, "Too many nested parenthesis, recusion supports up to 9 levels.")`, and the argument's contents are discarded. |
| PPRemoveParen.ExampleABC | static_test/pp/remove_paren.hpp:23-28 | `a,b,c`, `(a,b,c)`, `((a,b,c))` and `(((a,b,c)))` all expand to `a,b,c`. |
| PPRemoveParen.ExamplePair | test/remove_paren.cpp:24-25 | `((std::pair<int,double>))` expands to `std::pair<int,double>`, keeping its comma. |
| PPMisc.BackPopBack | static_test/static_expect.hpp:248-250 | The back of a sequence and the sequence without its back, put together again, give the sequence. The rest is one element shorter. |
| PPMisc.SeqBack | static_test/pp/misc.hpp:29-30 | The element at index size-1. No contract of its own; BackPopBack and BackOfAppend state its meaning. |
| PPMisc.SeqPopBack | static_test/static_expect.hpp:250 | Every element but the last. No contract of its own; BackPopBack and BackOfAppend state its meaning. |
| PPMisc.BackOfAppend | static_test/pp/misc.hpp:27-30 | The element appended last is the one the back returns, and popping it gives the original sequence back, as in `(1)(2)(3)` giving `3`. |
| PPMisc.StringizeLayout | static_test/pp/misc.hpp:42 | Element j's string is at position 2j and a `","` separator at each odd position, so n elements get exactly n-1 separators and element 0 gets none. |
| PPMisc.StringizeStep | static_test/pp/misc.hpp:42 | One element's literals: `","` unless it is element 0, then the element stringised; the depth r is ignored. No contract of its own; StringizeLayout states the literals' layout. |
| PPMisc.StringizeSteps | static_test/pp/misc.hpp:35-40 | The for-each-i loop over the elements, with r passed on to every step. No contract of its own; StringizeLayout and StepsIgnoreRepetition state its meaning. |
| PPMisc.Concat | static_test/pp/misc.hpp:35-36 | The compiler joining adjacent string literals. No contract of its own; ConcatAppend states it. |
| PPMisc.ConcatAppend | static_test/pp/misc.hpp:35-36 | Joining two runs of adjacent literals gives the two joined strings concatenated. |
| PPMisc.Stringize | static_test/pp/misc.hpp:33-36 | Stringising the arguments one by one and joining them with `","` spells the whole list, commas included. |
| PPMisc.StepsIgnoreRepetition | static_test/pp/misc.hpp:38-42 | The literals the loop emits are the same at every repetition depth. |
| PPMisc.StringizeR | static_test/pp/misc.hpp:38-42 | The re-entrant form, run at any depth r, gives the same string as ST_PP_STRINGIZE. |
| PPMisc.Identity | static_test/pp/misc.hpp:45-47 | The arguments come back verbatim: the same macro arguments and the same spelling. |
| PPMisc.ExampleStringize | static_test/pp/misc.hpp:34 | `ST_PP_STRINGIZE( a,b,c )` is "a,b,c", and so is its re-entrant form at any depth. |
| PPMisc.ExampleIdentity | static_test/pp/misc.hpp:46 | `ST_PP_IDENTITY( pair<int,double> )` is `pair<int,double>`, still two macro arguments. |
| Matchers.Int32Cast | static_test/static_expect.hpp:560 | `static_cast<int>` keeps every value that fits in 32 bits and otherwise agrees with the value modulo 2^32. |
| Matchers.Apply | static_test/static_expect.hpp:488-562 | Every well-formed application of a matcher of the vocabulary is `std::integral_constant<bool, b>`, and takes at most five arguments. |
| Matchers.BoolConstant | static_test/static_expect.hpp:525-527 | A bool constant's `::value` is 1 or 0, and its `::type` is itself. |
| Matchers.ValueMember | static_test/static_expect.hpp:526 | The abstract `T::value`; `void_` has none. No contract of its own; it is the lookup the matcher lemmas are stated with. |
| Matchers.TypeMember | static_test/static_expect.hpp:421-422 | The abstract `typename T::type` (`t_`): an integral constant's is itself, a user type's is its declared nested type, and `void_` has none. No contract of its own; EvalsToMatches and UnwrapConventionsAgree state its meaning. |
| Matchers.IsNot | static_test/static_expect.hpp:531-532 | The alias `Not<Is<T>>`. No contract of its own; IsNotMatches states its meaning. |
| Matchers.InvokeMatcher | static_test/static_expect.hpp:197-202 | Well-formed exactly when the application is, and then true iff the resulting constant's `::value` is 1. |
| Matchers.ApplyValue | static_test/static_expect.hpp:526 | The single unwrap is well-formed exactly when the application is, and then true iff the constant's `::value` is 1. |
| Matchers.UnwrapConventionsAgree | static_test/static_expect.hpp:197-202 | InvokeMatcher's `::type::type` then `::value`, and Not's `::type::value`, give the same result for every matcher, and InvokeMatcher is well-formed iff apply is. |
| Matchers.IsMatches | static_test/static_expect.hpp:488-494 | `Is<T>` on A is true iff A is T, and ill-formed with any other number of arguments. |
| Matchers.EvalsToMatches | static_test/static_expect.hpp:498-504 | `EvalsTo<T>` on A is true iff `A::type` is T, and ill-formed when A has no `::type`. |
| Matchers.NotNegates | static_test/static_expect.hpp:521-529 | `Not<M>` is the negation of M on the same arguments, and ill-formed exactly when M is. |
| Matchers.IsNotMatches | static_test/static_expect.hpp:531-532 | `IsNot<T>` is false on T and true on every other type. |
| Matchers.NotNotIsIdentity | static_test/static_expect.hpp:521-532 | Negating a matcher twice gives it back on every argument list. |
| Matchers.EqMatches | static_test/static_expect.hpp:556-562 | `Eq<N>` on A is true iff `static_cast<int>(A::value) == N`, and ill-formed without a `::value`. |
| Matchers.EqExamples | static_test/static_expect.hpp:556-562 | `Eq<0>`, `Eq<1>` and `Eq<5>` hold on the equal int constant and fail on the next one. |
| Matchers.EqWrapsAround | static_test/static_expect.hpp:560 | An unsigned constant 2^32 is cast to 0 and satisfies `Eq<0>`. |
| Matchers.IsTrueMatches | static_test/static_expect.hpp:548-552 | `IsTrue` on A is false for `::value` 0 and true for 1; any other value narrows to bool and is ill-formed, and so is an A without `::value`. |
| Matchers.AlwaysIgnoresArguments | static_test/static_expect.hpp:509-518 | `AlwaysTrue` and `AlwaysFalse` give their constant for every number of arguments `boost::mpl::apply` accepts, zero included. |
| Matchers.ArityLimit | static_test/static_expect.hpp:197-202 | No matcher instantiates with more than five arguments, the arity `boost::mpl::apply` accepts. |
| StaticExpect.Ctor | static_test/static_expect.hpp:248-262 | The arguments followed by the matcher are exactly the call's elements, and the conversion is the one the macro passes. |
| StaticExpect.InitTuple | static_test/static_expect.hpp:248-253 | The tuple's arguments followed by its matcher are the given sequence, and there is one argument fewer than elements. |
| StaticExpect.DefaultConfig | static_test/config.hpp:27-48 | The installation defaults: five carriers, newlines only for Visual C++, the prefix `Type`, the static_assert switch at 1. No contract of its own; the examples that use it state what it produces. |
| StaticExpect.NumArgs | static_test/static_expect.hpp:278-280 | The size of the tuple's argument sequence. No contract of its own; CtorSeveral states that it is one fewer than the number of elements given. |
| StaticExpect.CtorSeveral | static_test/static_expect.hpp:248-280 | With two or more elements the matcher is the last one, the arguments are all the others in order, and their number is the total minus one. |
| StaticExpect.CtorSingle | static_test/static_expect.hpp:255-261 | A one-element call takes that element as the matcher, with no arguments. |
| StaticExpect.ToType | static_test/static_expect.hpp:403 | Under STATIC_EXPECT_THAT an argument names the type its fully peeled text names, or nothing past the nesting limit; under STATIC_EXPECT_THAT_EXPR it is `decltype` of the text as written. |
| StaticExpect.TypeList | static_test/static_expect.hpp:292-299 | A well-formed type list has one type per argument. |
| StaticExpect.MatcherOf | static_test/static_expect.hpp:287-288 | The matcher is the one its fully peeled text names, and there is none past the nesting limit. |
| StaticExpect.MatcherResult | static_test/static_expect.hpp:283-290 | A remove-paren past its limit makes `matcherResult` ill-formed, and a result exists only for at most five arguments. |
| StaticExpect.TypeListInOrder | static_test/static_expect.hpp:292-299 | The type list is well-formed iff every argument converts, and then its i-th type is the i-th argument converted. |
| StaticExpect.InvokeInArgumentOrder | static_test/static_expect.hpp:283-290 | The matcher is instantiated with the converted arguments in argument order. |
| StaticExpect.IdTypeSeesThroughParens | static_test/static_expect.hpp:403 | Under STATIC_EXPECT_THAT an argument denotes the same type with or without redundant parentheses, up to the limit. |
| StaticExpect.EnumParams | static_test/static_expect.hpp:321-322 | BOOST_PP_ENUM_PARAMS. No contract of its own; EnumParamsArguments states its meaning. |
| StaticExpect.ParamName | static_test/static_expect.hpp:321-322 | The display name of argument i: the prefix followed by i in decimal. No contract of its own; EnumParamsArguments and MessageShape state its meaning. |
| StaticExpect.ListElem | static_test/static_expect.hpp:333-338 | One argument's line: `"\n"` or `", "`, the synthetic name, `": "`, the text. No contract of its own; MessageShape and ListElemsAppend state how the lines make up the message. |
| StaticExpect.ListElems | static_test/static_expect.hpp:326-330 | The lines of all the arguments. No contract of its own; ListElemsAppend states its meaning. |
| StaticExpect.AssertMsg | static_test/static_expect.hpp:318-331 | The static_assert message. No contract of its own; MessageShape states its text. |
| StaticExpect.AssertStatic | static_test/static_expect.hpp:405-406 | The assertion reports nothing iff its condition holds, and otherwise one static failure reading "static failure: ", the message, ".". |
| StaticExpect.StaticAssertPart | static_test/static_expect.hpp:303-311 | The static_assert part reports nothing iff the switch is not 1 or the result is true. |
| StaticExpect.SentinelAccessible | static_test/static_expect.hpp:461-475 | Whether `Type_i<t>::Show_Me_The_Type` is public. No contract of its own; ForgeError states what it leads to. |
| StaticExpect.ForgeError | static_test/static_expect.hpp:368-378 | One alias fails at most once. It is silent iff its position has a carrier and the result is true or its type is `void_`, and a failure carries the position and the type. |
| StaticExpect.ForgeErrors | static_test/static_expect.hpp:345-350 | The aliases give at most one error per argument. |
| StaticExpect.Outcome | static_test/static_expect.hpp:386-391 | A breach is reported as one nesting-limit error. With the static_assert switch at 1, a silent expansion is one whose matcher held. |
| StaticExpect.StaticExpectThat | static_test/static_expect.hpp:212-217 | The call split into elements, given to the ctor with the remove-paren conversion. No contract of its own; the Example lemmas state its results. |
| StaticExpect.StaticExpectThatExpr | static_test/static_expect.hpp:219-223 | The same with the `decltype` conversion. No contract of its own; ExampleExprSuccess states a result. |
| StaticExpect.EnumParamsArguments | static_test/static_expect.hpp:321-322 | `BOOST_PP_ENUM_PARAMS(n, Type)` is n macro arguments, the i-th of them `Type` followed by i. |
| StaticExpect.ListElemsAppend | static_test/static_expect.hpp:326-338 | Each argument adds its own line, in order: an argument added at the end adds its line, numbered by its position, at the end. |
| StaticExpect.MessageShape | static_test/static_expect.hpp:318-331 | The message is the matcher text, `<Type0,...,Type(n-1)>`, " fails with:", then for each argument its separator, its synthetic name and its text. |
| StaticExpect.StaticFailureText | static_test/static_expect.hpp:405-406 | The static_assert text is "static failure: ", then the message in that shape, then ".". |
| StaticExpect.ForgeErrorsSilentOnSuccess | static_test/static_expect.hpp:368-378 | On a true result every stamped carrier selects `void_`, whose sentinel is public, so no alias fails. |
| StaticExpect.ForgeErrorsOnFailure | static_test/static_expect.hpp:368-378 | On a false result each stamped position i forges one error carrying argument i's resolved type, in order. |
| StaticExpect.ForgeErrorsEmptyIff | static_test/static_expect.hpp:461-471 | Within the stamped positions the forged channel is silent iff the result is true or every argument's type is `void_`. |
| StaticExpect.UnstampedPositionFails | static_test/static_expect.hpp:475 | A position at or past NUM_MATCHER_ARGS has no carrier and fails whatever the result. |
| StaticExpect.SuccessIsSilent | static_test/static_expect.hpp:386-391 | A true result, with no more arguments than carriers, produces no diagnostic. |
| StaticExpect.FailureIsReported | static_test/static_expect.hpp:303-311 | A false result gives exactly one static failure with its exact message when the switch is 1 (none otherwise), followed by the forged errors. |
| StaticExpect.SucceedsIffMatcherHolds | static_test/static_expect.hpp:386-391 | With the switch at 1 and the arguments within the carriers, an expansion reports nothing iff the matcher holds. An ill-formed or breaching expansion is never silent. |
| StaticExpect.ForgedChannelAlone | static_test/static_expect.hpp:341-378 | With the switch off, a false result is still reported unless every argument's type is `void_`. |
| StaticExpect.TooManyArgumentsFail | static_test/static_expect.hpp:475 | With more arguments than carriers (possible when fewer than five are configured) the expansion fails even when the matcher holds. |
| StaticExpect.ExampleFailureMessage | static_test/static_expect.hpp:318-338 | The message for `Is<int>` on `float` is "static failure: Is<int><Type0> fails with:, Type0: float.". |
| StaticExpect.ExampleFailure | static_test/static_expect.hpp:212-217 | `STATIC_EXPECT_THAT(float, Is<int>)` gives that static failure and a forged error carrying `float` at position 0. |
| StaticExpect.ExampleSuccess | static_test/static_expect.hpp:212-217 | `STATIC_EXPECT_THAT(int, Is<int>)` produces no diagnostic. |
| StaticExpect.ExampleParenthesisedArgument | static_test/static_expect.hpp:403 | `STATIC_EXPECT_THAT(((int)), Is<int>)` produces no diagnostic. |
| StaticExpect.ExampleRenameToTuple | test/dimov-meta.cpp:39-42 | A parenthesised argument and matcher, each with inner commas, give no diagnostic when the renamed type is the tuple. |
| StaticExpect.ExampleExprSuccess | static_test/static_expect.hpp:219-223 | `STATIC_EXPECT_THAT_EXPR(std::true_type{}, IsTrue)`, which converts its argument with `decltype`, produces no diagnostic. |

## Left out

- `ST_PP_DELAY` (static_test/pp/delay.hpp) only defers an expansion to work around a Visual C++ preprocessor defect. It is taken as the identity.
- The Boost.PP, Boost.MPL and standard-library facilities are used by their documented meaning, not modelled.
- Whitespace in stringisation is not modelled. `Spell` concatenates the tokens' spellings, so "Type0: float" is exact but the spacing the preprocessor puts between tokens is not.
- The `__LINE__`-named local struct (static_test/static_expect.hpp:387) is left out, and so are the clashes between two calls on the same line.
- The simple macros at static_test/static_expect.hpp:103-190 are left out. `STATIC_EXPECT_TRUE_C`, `STATIC_EXPECT_SAME` and the others rely on macros and names these files do not define.
- The doc-comment examples (`STATIC_EXPECT_EQ` and others) are left out because they name macros that do not exist.
- The `#if 0` forge variant (static_test/static_expect.hpp:353-366) and the `FORGED_ERROR_TYPE == 1` carriers (447-457) are unreachable and not modelled.
- The `FORGED_ERROR` switch in static_test/config.hpp is never read by static_expect.hpp, so the forged channel is always on.
- The sentinel name (`Show_Me_The_Type`) is not carried in `ForgedError`.
- The exact wording of compiler diagnostics, access checking and instantiation mechanics are abstracted to `Diagnostic` values.
- Outcome: when a remove-paren breaches, or the matcher or an argument type does not instantiate, the compiler's cascade of errors is collapsed to one `NestingLimit` or `IllFormed`.
- Breach keeps the tokens that follow the limit-breach static_assert, but the model does not say what the compiler makes of them.
- `boost::mpl::apply`'s default limit of five arguments (BOOST_MPL_LIMIT_METAFUNCTION_ARITY) is the constant `MplArity`. A build that raises that limit is not modelled.
- Matchers written by users, and `detail::Always<T>` for a T other than `std::true_type`/`std::false_type`, are outside the closed `Matcher` datatype.
- Ctor, CtorSingle: a one-element call is modelled at its documented intent (the element is the matcher, with no arguments). The source passes `BOOST_PP_SEQ_HEAD` of the sequence, the bare element, to a macro that expects a sequence, and what that does depends on Boost.PP's behaviour on a non-sequence.
- A call with no elements at all is outside the model, because variadic-to-seq always yields at least one element.
- The abstract `Ty` does not model how C++ types are written or compared. Type identity is equality of `Ty` values.
