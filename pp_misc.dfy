/** The small preprocessor helpers: last element of a sequence, stringising, identity. */
module PPMisc {
  import opened PPTokens

  /** ST_PP_SEQ_BACK: the element at index size-1 of a (never empty) Boost.PP sequence. */
  function SeqBack<T>(s: seq<T>): T
    requires |s| >= 1
  {
    s[|s| - 1]
  }

  /** BOOST_PP_SEQ_POP_BACK: every element but the last. */
  function SeqPopBack<T>(s: seq<T>): seq<T>
    requires |s| >= 1
  {
    s[..|s| - 1]
  }

  /** Taking the last element off and putting it back gives the sequence again. */
  lemma BackPopBack<T>(s: seq<T>)
    requires |s| >= 1
    ensures SeqPopBack(s) + [SeqBack(s)] == s
    ensures |SeqPopBack(s)| == |s| - 1
  {
  }

  /** The element appended last is the one the back returns: `(1)(2)(3)` gives `3`. */
  lemma BackOfAppend<T>(s: seq<T>, x: T)
    ensures SeqBack(s + [x]) == x && SeqPopBack(s + [x]) == s
  {
    assert (s + [x])[..|s|] == s;
  }

  /**
    ST_PP_STRINGIZE_m_(r, _, i, elem): the string literals emitted for the i-th element,
    `","` for every element but the first, then the element stringised. The repetition
    depth r is accepted and not used.
  */
  function StringizeStep(r: nat, i: nat, elem: seq<Tok>): seq<string> {
    (if i != 0 then [","] else []) + [Spell(elem)]
  }

  /**
    BOOST_PP_SEQ_FOR_EACH_I_R(r, ST_PP_STRINGIZE_m_, ~, elems): each element's step, the
    repetition depth r passed on to every step, indices counted from `i`.
  */
  function StringizeSteps(r: nat, elems: seq<seq<Tok>>, i: nat): seq<string>
    decreases |elems|
  {
    if elems == [] then [] else StringizeStep(r, i, elems[0]) + StringizeSteps(r, elems[1..], i + 1)
  }

  /** The depth BOOST_PP_SEQ_FOR_EACH_I starts its repetition at. */
  const FirstRepetition: nat := 1

  /** Adjacent string literals are concatenated by the compiler. */
  function Concat(lits: seq<string>): string
    decreases |lits|
  {
    if lits == [] then "" else lits[0] + Concat(lits[1..])
  }

  /**
    ST_PP_STRINGIZE(...): every argument stringised, joined with `","`. Since each
    argument's text is stringised whole, the result spells the whole list, commas included.
  */
  function Stringize(args: seq<Tok>): (s: string)
    ensures s == Spell(args)
  {
    StepsSpellJoin(FirstRepetition, Split(args));
    JoinSplit(args);
    Concat(StringizeSteps(FirstRepetition, Split(args), 0))
  }

  /**
    ST_PP_STRINGIZE_R(r, ...): the re-entrant form, run at repetition depth r; it gives the
    same string as ST_PP_STRINGIZE whatever r is.
  */
  function StringizeR(r: nat, args: seq<Tok>): (s: string)
    ensures s == Stringize(args)
  {
    StepsIgnoreRepetition(r, FirstRepetition, Split(args), 0);
    Concat(StringizeSteps(r, Split(args), 0))
  }

  /** ST_PP_IDENTITY(...): the arguments, verbatim, commas included. */
  function Identity(args: seq<Tok>): (r: seq<Tok>)
    ensures Split(r) == Split(args) && Spell(r) == Spell(args)
  {
    args
  }

  // ---- Properties ----

  /**
    The literals alternate: element j stringised at position 2j, a `","` separator at every
    odd position, so n elements get exactly n-1 separators and the first gets none.
  */
  lemma {:induction false} StringizeLayout(r: nat, elems: seq<seq<Tok>>, i: nat)
    requires |elems| >= 1
    ensures var lits := StringizeSteps(r, elems, i);
      && |lits| == 2 * |elems| - (if i == 0 then 1 else 0)
      && (i == 0 ==> forall j :: 0 <= j < |elems| ==> lits[2 * j] == Spell(elems[j]))
      && (i == 0 ==> forall j :: 0 <= j < |elems| - 1 ==> lits[2 * j + 1] == ",")
      && (i != 0 ==> forall j :: 0 <= j < |elems| ==> lits[2 * j] == "," && lits[2 * j + 1] == Spell(elems[j]))
    decreases |elems|
  {
    var lits := StringizeSteps(r, elems, i);
    var head := StringizeStep(r, i, elems[0]);
    if |elems| == 1 {
      assert StringizeSteps(r, elems[1..], i + 1) == [];
      assert lits == head;
    } else {
      var tl := StringizeSteps(r, elems[1..], i + 1);
      StringizeLayout(r, elems[1..], i + 1);
      assert lits == head + tl;
      if i == 0 {
        forall j | 0 <= j < |elems| ensures lits[2 * j] == Spell(elems[j]) {
          if j > 0 {
            assert lits[2 * j] == tl[2 * (j - 1) + 1];
            assert elems[1..][j - 1] == elems[j];
          }
        }
        forall j | 0 <= j < |elems| - 1 ensures lits[2 * j + 1] == "," {
          assert lits[2 * j + 1] == tl[2 * j];
        }
      } else {
        forall j | 0 <= j < |elems| ensures lits[2 * j] == "," && lits[2 * j + 1] == Spell(elems[j]) {
          if j > 0 {
            assert lits[2 * j] == tl[2 * (j - 1)];
            assert lits[2 * j + 1] == tl[2 * (j - 1) + 1];
            assert elems[1..][j - 1] == elems[j];
          }
        }
      }
    }
  }

  lemma {:induction false} ConcatAppend(a: seq<string>, b: seq<string>)
    ensures Concat(a + b) == Concat(a) + Concat(b)
    decreases |a|
  {
    if a == [] {
      assert a + b == b;
    } else {
      assert (a + b)[0] == a[0];
      assert (a + b)[1..] == a[1..] + b;
      ConcatAppend(a[1..], b);
    }
  }

  /** Enumerating two or more arguments spells the first, a comma, then the rest. */
  lemma SpellJoinStep(elems: seq<seq<Tok>>)
    requires |elems| >= 2
    ensures Spell(Join(elems)) == Spell(elems[0]) + "," + Spell(Join(elems[1..]))
  {
    SpellAppend(elems[0] + [Comma], Join(elems[1..]));
    SpellAppend(elems[0], [Comma]);
  }

  /** Past the first element, the literals spell each element behind a comma. */
  lemma {:induction false} LaterStepsSpellJoin(r: nat, elems: seq<seq<Tok>>, i: nat)
    requires i != 0
    ensures Concat(StringizeSteps(r, elems, i)) == if elems == [] then "" else "," + Spell(Join(elems))
    decreases |elems|
  {
    if elems != [] {
      var tl := elems[1..];
      LaterStepsSpellJoin(r, tl, i + 1);
      ConcatAppend(StringizeStep(r, i, elems[0]), StringizeSteps(r, tl, i + 1));
      assert Concat(StringizeStep(r, i, elems[0])) == "," + Spell(elems[0]);
      if tl != [] {
        SpellJoinStep(elems);
      }
    }
  }

  lemma StepsSpellJoin(r: nat, elems: seq<seq<Tok>>)
    requires |elems| >= 1
    ensures Concat(StringizeSteps(r, elems, 0)) == Spell(Join(elems))
  {
    var tl := elems[1..];
    var head := StringizeStep(r, 0, elems[0]);
    assert StringizeSteps(r, elems, 0) == head + StringizeSteps(r, tl, 1);
    ConcatAppend(head, StringizeSteps(r, tl, 1));
    assert Concat(head) == Spell(elems[0]);
    LaterStepsSpellJoin(r, tl, 1);
    if tl != [] {
      SpellJoinStep(elems);
    }
  }

  /** The steps emitted do not depend on the repetition depth they are run at. */
  lemma {:induction false} StepsIgnoreRepetition(r: nat, r2: nat, elems: seq<seq<Tok>>, i: nat)
    ensures StringizeSteps(r, elems, i) == StringizeSteps(r2, elems, i)
    decreases |elems|
  {
    if elems != [] {
      StepsIgnoreRepetition(r, r2, elems[1..], i + 1);
    }
  }

  /** `ST_PP_STRINGIZE( a,b,c )` becomes "a,b,c", and so does the re-entrant form at any depth. */
  lemma ExampleStringize(r: nat)
    ensures Stringize([Word("a"), Comma, Word("b"), Comma, Word("c")]) == "a,b,c"
    ensures StringizeR(r, [Word("a"), Comma, Word("b"), Comma, Word("c")]) == "a,b,c"
  {
  }

  /** `ST_PP_IDENTITY( pair<int,double> )` is `pair<int,double>`, still two macro arguments. */
  lemma ExampleIdentity()
    ensures Identity([Word("pair<int"), Comma, Word("double>")]) == [Word("pair<int"), Comma, Word("double>")]
    ensures |Split(Identity([Word("pair<int"), Comma, Word("double>")]))| == 2
  {
  }
}
