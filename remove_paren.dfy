/**
  ST_PP_REMOVE_PAREN: strip redundant leading parentheses from a macro argument list.

  The macro pastes the ladder name DEPAREN_0 in front of the arguments. Whenever the name
  is directly followed by a parenthesised group, the preprocessor invokes it on that group,
  and DEPAREN_k expands to DEPAREN_(k+1) followed by the group's contents. DEPAREN_9 invoked
  on a tenth group gives DEPAREN_LIMIT_BREACH and drops the group. What is left (the name
  in front of the remaining tokens) is split at top-level commas; the name is pasted to
  EAT_ (giving nothing, or a failing static_assert for the breach) and the pieces are
  re-emitted comma-separated.
*/
module PPRemoveParen {
  import opened PPTokens

  /** ST_PP_LIMIT_REMOVE_PAREN: the number of nested levels that can be removed. */
  const Limit: nat := 9

  /** The message of the static_assert that EAT_..._DEPAREN_LIMIT_BREACH expands to. */
  const BreachMessage: string := "Too many nested parenthesis, recusion supports up to 9 levels."

  /** The macro name the ladder leaves in front of the remaining tokens. */
  datatype Marker = Level(k: nat) | LimitBreach

  /** The tail of the recursion: the marker name and the tokens after it. */
  datatype Tail = Tail(marker: Marker, rest: seq<Tok>)

  /**
    The expansion of ST_PP_REMOVE_PAREN: the stripped tokens, or
    `static_assert(false, message)` followed by `trailing`.
  */
  datatype Result = Ok(toks: seq<Tok>) | Breach(message: string, trailing: seq<Tok>)

  predicate StartsWithGroup(ts: seq<Tok>) {
    |ts| > 0 && ts[0].Paren?
  }

  /** `DEPAREN_k ts`: one rung of the ladder per leading group. */
  function Deparen(k: nat, ts: seq<Tok>): (t: Tail)
    requires k <= Limit
    ensures t.marker.Level? ==> k <= t.marker.k <= Limit && !StartsWithGroup(t.rest)
    decreases Limit - k
  {
    if StartsWithGroup(ts) then
      if k == Limit then Tail(LimitBreach, ts[1..])
      else Deparen(k + 1, ts[0].inner + ts[1..])
    else Tail(Level(k), ts)
  }

  /**
    ST_PP_REMOVE_PAREN_impl_CAT_FIRST_TWO_ENUM_REST applied to `(EAT_)(marker segs[0])(segs[1])...`:
    pasting the first two elements turns the marker into what EAT_ gives for it and keeps
    `segs[0]`; the remaining elements, if any, follow after a comma, enumerated.
  */
  function CatFirstTwoEnumRest(segs: seq<seq<Tok>>): (r: seq<Tok>)
    requires |segs| >= 1
    ensures (forall i :: 0 <= i < |segs| ==> Comma !in segs[i]) ==> Split(r) == segs
  {
    var r := if 1 + |segs| <= 2 then segs[0] else segs[0] + [Comma] + Join(segs[1..]);
    if forall i :: 0 <= i < |segs| ==> Comma !in segs[i] then
      SplitJoin(segs);
      r
    else r
  }

  /**
    ST_PP_REMOVE_PAREN_impl_EATDEPAREN_AND_ENUM. The marker is one token at the head of the
    first argument, so splitting `marker rest` splits `rest` with the marker in front of
    its first piece.
  */
  function EatDeparenAndEnum(t: Tail): (r: Result)
    ensures r.Ok? <==> t.marker.Level?
    ensures r.Ok? ==> r.toks == t.rest
    ensures r.Breach? ==> r.message == BreachMessage && r.trailing == t.rest
  {
    var body := CatFirstTwoEnumRest(Split(t.rest));
    assert body == t.rest by { JoinSplit(t.rest); }
    match t.marker
    case Level(_) => Ok(body)
    case LimitBreach => Breach(BreachMessage, body)
  }

  /**
    ST_PP_REMOVE_PAREN(ts); the ST_PP_DELAY around the second step is the identity here.
    Text that does not start with a group comes back as it is, and nothing it gives back
    starts with one.
  */
  function RemoveParen(ts: seq<Tok>): (r: Result)
    ensures !StartsWithGroup(ts) ==> r == Ok(ts)
    ensures r.Ok? ==> !StartsWithGroup(r.toks)
  {
    EatDeparenAndEnum(Deparen(0, ts))
  }

  // ---- An unbounded reference definition ----

  /** How many leading groups there are to peel, with no limit. */
  function LeadingDepth(ts: seq<Tok>): nat
    decreases Size(ts)
  {
    if StartsWithGroup(ts) then
      PeelShrinks(ts);
      1 + LeadingDepth(ts[0].inner + ts[1..])
    else 0
  }

  /** Peel every leading group, splicing its contents in place. */
  function PeelAll(ts: seq<Tok>): (r: seq<Tok>)
    ensures !StartsWithGroup(r)
    decreases Size(ts)
  {
    if StartsWithGroup(ts) then
      PeelShrinks(ts);
      PeelAll(ts[0].inner + ts[1..])
    else ts
  }

  /** `ts` wrapped in `n` extra pairs of parentheses. */
  function Wrap(n: nat, ts: seq<Tok>): seq<Tok>
    decreases n
  {
    if n == 0 then ts else [Paren(Wrap(n - 1, ts))]
  }

  // ---- Properties ----

  /** Re-emitting the split pieces loses no comma: the tokens come out as they went in. */
  lemma EnumRestoresCommas(ts: seq<Tok>)
    ensures CatFirstTwoEnumRest(Split(ts)) == ts
  {
    JoinSplit(ts);
  }

  /** The ladder from rung k peels exactly the leading groups, or breaches past the limit. */
  lemma {:induction false} DeparenPeels(k: nat, ts: seq<Tok>)
    requires k <= Limit
    ensures Deparen(k, ts).marker ==
      (if k + LeadingDepth(ts) <= Limit then Level(k + LeadingDepth(ts)) else LimitBreach)
    ensures k + LeadingDepth(ts) <= Limit ==> Deparen(k, ts).rest == PeelAll(ts)
    decreases Limit - k
  {
    if StartsWithGroup(ts) && k < Limit {
      DeparenPeels(k + 1, ts[0].inner + ts[1..]);
    }
  }

  /**
    The stripper succeeds exactly when there are at most nine leading levels, and then its
    output is the fully peeled argument list.
  */
  lemma RemoveParenIsPeelAll(ts: seq<Tok>)
    ensures RemoveParen(ts).Ok? <==> LeadingDepth(ts) <= Limit
    ensures RemoveParen(ts).Ok? ==> RemoveParen(ts).toks == PeelAll(ts)
  {
    DeparenPeels(0, ts);
    EnumRestoresCommas(Deparen(0, ts).rest);
  }

  /** An argument list that does not start with a group comes back unchanged. */
  lemma NoLeadingGroupIsIdentity(ts: seq<Tok>)
    requires !StartsWithGroup(ts)
    ensures RemoveParen(ts) == Ok(ts)
  {
    EnumRestoresCommas(ts);
  }

  /** Whatever the stripper returns no longer starts with a group, so stripping again changes nothing. */
  lemma Idempotent(ts: seq<Tok>)
    requires RemoveParen(ts).Ok?
    ensures !StartsWithGroup(RemoveParen(ts).toks)
    ensures RemoveParen(RemoveParen(ts).toks) == RemoveParen(ts)
  {
    RemoveParenIsPeelAll(ts);
    NoLeadingGroupIsIdentity(RemoveParen(ts).toks);
  }

  /** Only a leading group is peeled, and its contents take its place in front of the rest. */
  lemma PeelsLeadingGroup(ts: seq<Tok>)
    requires StartsWithGroup(ts) && LeadingDepth(ts) <= Limit
    ensures RemoveParen(ts) == RemoveParen(ts[0].inner + ts[1..])
  {
    RemoveParenIsPeelAll(ts);
    RemoveParenIsPeelAll(ts[0].inner + ts[1..]);
  }

  lemma {:induction false} DeparenWrap(k: nat, n: nat, ts: seq<Tok>)
    requires k <= Limit
    ensures Deparen(k, Wrap(n, ts)) ==
      (if k + n <= Limit then Deparen(k + n, ts) else Tail(LimitBreach, []))
    decreases n
  {
    if n > 0 {
      var w := Wrap(n, ts);
      assert w[0].inner + w[1..] == Wrap(n - 1, ts);
      if k < Limit {
        DeparenWrap(k + 1, n - 1, ts);
      }
    }
  }

  /** Each pair of parentheses around the text adds one level and leaves the peeled text unchanged. */
  lemma {:induction false} LeadingDepthOfWrap(n: nat, ts: seq<Tok>)
    ensures LeadingDepth(Wrap(n, ts)) == n + LeadingDepth(ts)
    ensures PeelAll(Wrap(n, ts)) == PeelAll(ts)
    decreases n
  {
    if n > 0 {
      var w := Wrap(n, ts);
      assert w[0].inner + w[1..] == Wrap(n - 1, ts);
      LeadingDepthOfWrap(n - 1, ts);
    }
  }

  /** Extra parentheses, up to the limit in all, make no difference to the expansion. */
  lemma WrappingIsTransparent(n: nat, ts: seq<Tok>)
    requires n + LeadingDepth(ts) <= Limit
    ensures RemoveParen(Wrap(n, ts)) == RemoveParen(ts)
  {
    DeparenWrap(0, n, ts);
    DeparenPeels(0, ts);
    DeparenPeels(n, ts);
    assert Deparen(0, Wrap(n, ts)) == Deparen(n, ts);
    assert Deparen(n, ts).marker.Level? && Deparen(0, ts).marker.Level?;
    assert Deparen(n, ts).rest == Deparen(0, ts).rest;
  }

  /** Up to nine levels around an argument list that starts with no group are all removed. */
  lemma NineLevelsSucceed(n: nat, ts: seq<Tok>)
    requires n <= Limit && !StartsWithGroup(ts)
    ensures RemoveParen(Wrap(n, ts)) == Ok(ts)
  {
    DeparenWrap(0, n, ts);
    EnumRestoresCommas(ts);
  }

  /** A tenth level breaches the limit: the static_assert comes out and the contents are discarded. */
  lemma TenthLevelFails(n: nat, ts: seq<Tok>)
    requires n > Limit
    ensures RemoveParen(Wrap(n, ts)) == Breach(BreachMessage, [])
  {
    DeparenWrap(0, n, ts);
  }

  // ---- The documented examples ----

  /** `a,b,c`, `(a,b,c)`, `((a,b,c))` and `(((a,b,c)))` all expand to `a,b,c`. */
  lemma ExampleABC()
    ensures forall n :: 0 <= n <= 3 ==>
      RemoveParen(Wrap(n, [Word("a"), Comma, Word("b"), Comma, Word("c")])) ==
      Ok([Word("a"), Comma, Word("b"), Comma, Word("c")])
  {
    forall n | 0 <= n <= 3
      ensures RemoveParen(Wrap(n, [Word("a"), Comma, Word("b"), Comma, Word("c")])) ==
        Ok([Word("a"), Comma, Word("b"), Comma, Word("c")])
    {
      NineLevelsSucceed(n, [Word("a"), Comma, Word("b"), Comma, Word("c")]);
    }
  }

  /** `((std::pair<int,double>))` gives back `std::pair<int,double>`, its comma included. */
  lemma ExamplePair()
    ensures RemoveParen([Paren([Paren([Word("std::pair<int"), Comma, Word("double>")])])]) ==
      Ok([Word("std::pair<int"), Comma, Word("double>")])
  {
    var pair := [Word("std::pair<int"), Comma, Word("double>")];
    assert Wrap(2, pair) == [Paren([Paren(pair)])];
    NineLevelsSucceed(2, pair);
  }
}
