/**
  The preprocessor's view of a macro argument list, and the few Boost.Preprocessor
  operations that the library leans on, each stated by its documented meaning.

  A macro argument list is a sequence of tokens in which parentheses are balanced. A
  parenthesised group is one token `Paren` holding its contents, so a `Comma` directly in
  the sequence is a top-level comma (one that separates macro arguments) and a `Comma`
  inside a `Paren` is protected.
*/
module PPTokens {

  datatype Tok = Word(text: string) | Comma | Paren(inner: seq<Tok>)

  /** Number of tokens, counting every nesting level; peeling a group makes it smaller. */
  function Size(ts: seq<Tok>): nat
    decreases ts
  {
    if ts == [] then 0 else TokSize(ts[0]) + Size(ts[1..])
  }

  function TokSize(t: Tok): nat
    decreases t
  {
    match t
    case Paren(inner) => 1 + Size(inner)
    case _ => 1
  }

  lemma {:induction false} SizeAppend(a: seq<Tok>, b: seq<Tok>)
    ensures Size(a + b) == Size(a) + Size(b)
    decreases |a|
  {
    if a != [] {
      assert (a + b)[0] == a[0];
      assert (a + b)[1..] == a[1..] + b;
      SizeAppend(a[1..], b);
    } else {
      assert a + b == b;
    }
  }

  /** Splicing the contents of a leading group in front of the rest shrinks the measure by one. */
  lemma PeelShrinks(ts: seq<Tok>)
    requires |ts| > 0 && ts[0].Paren?
    ensures Size(ts[0].inner + ts[1..]) < Size(ts)
  {
    SizeAppend(ts[0].inner, ts[1..]);
  }

  /** The text a token sequence stringises to; whitespace between tokens is not modelled. */
  function Spell(ts: seq<Tok>): string
    decreases ts
  {
    if ts == [] then "" else SpellTok(ts[0]) + Spell(ts[1..])
  }

  function SpellTok(t: Tok): string
    decreases t
  {
    match t
    case Word(w) => w
    case Comma => ","
    case Paren(inner) => "(" + Spell(inner) + ")"
  }

  lemma {:induction false} SpellAppend(a: seq<Tok>, b: seq<Tok>)
    ensures Spell(a + b) == Spell(a) + Spell(b)
    decreases |a|
  {
    if a != [] {
      assert (a + b)[0] == a[0];
      assert (a + b)[1..] == a[1..] + b;
      SpellAppend(a[1..], b);
    } else {
      assert a + b == b;
    }
  }

  /**
    BOOST_PP_VARIADIC_TO_SEQ: the macro arguments of a list, split at its top-level commas.
    There is always at least one argument (an empty list is one empty argument).
  */
  function Split(ts: seq<Tok>): (segs: seq<seq<Tok>>)
    ensures |segs| >= 1
    ensures forall i :: 0 <= i < |segs| ==> Comma !in segs[i]
    decreases |ts|
  {
    if ts == [] then [[]]
    else if ts[0] == Comma then [[]] + Split(ts[1..])
    else
      var s := Split(ts[1..]);
      [[ts[0]] + s[0]] + s[1..]
  }

  /** BOOST_PP_SEQ_ENUM: the elements of a sequence, re-emitted separated by commas. */
  function Join(segs: seq<seq<Tok>>): seq<Tok>
    requires |segs| >= 1
    decreases |segs|
  {
    if |segs| == 1 then segs[0] else segs[0] + [Comma] + Join(segs[1..])
  }

  /** Splitting an argument list and enumerating the pieces gives the list back. */
  lemma {:induction false} JoinSplit(ts: seq<Tok>)
    ensures Join(Split(ts)) == ts
    decreases |ts|
  {
    if ts == [] {
    } else if ts[0] == Comma {
      var s := Split(ts[1..]);
      JoinSplit(ts[1..]);
      assert ([[]] + s)[1..] == s;
      assert ts == [Comma] + ts[1..];
    } else {
      var s := Split(ts[1..]);
      JoinSplit(ts[1..]);
      var r := [[ts[0]] + s[0]] + s[1..];
      assert r[1..] == s[1..];
      assert ts == [ts[0]] + ts[1..];
    }
  }

  lemma {:induction false} SplitWithoutComma(seg: seq<Tok>)
    requires Comma !in seg
    ensures Split(seg) == [seg]
    decreases |seg|
  {
    if seg != [] {
      assert Comma !in seg[1..] by {
        forall k | 0 <= k < |seg[1..]| ensures seg[1..][k] != Comma {
          assert seg[1..][k] == seg[k + 1];
        }
      }
      SplitWithoutComma(seg[1..]);
      assert seg == [seg[0]] + seg[1..];
    }
  }

  /** A top-level comma between two lists separates their arguments and nothing else. */
  lemma {:induction false} SplitAppendComma(a: seq<Tok>, b: seq<Tok>)
    ensures Split(a + [Comma] + b) == Split(a) + Split(b)
    decreases |a|
  {
    var ab := a + [Comma] + b;
    if a == [] {
      assert ab == [Comma] + b;
      assert ab[1..] == b;
    } else {
      assert ab[0] == a[0];
      assert ab[1..] == a[1..] + [Comma] + b;
      SplitAppendComma(a[1..], b);
      if a[0] == Comma {
      } else {
        var s := Split(ab[1..]);
        var sa := Split(a[1..]);
        assert s == sa + Split(b);
        assert s[0] == sa[0];
        assert s[1..] == sa[1..] + Split(b);
      }
    }
  }

  /** Enumerating comma-free arguments and splitting the result recovers the arguments. */
  lemma {:induction false} SplitJoin(segs: seq<seq<Tok>>)
    requires |segs| >= 1
    requires forall i :: 0 <= i < |segs| ==> Comma !in segs[i]
    ensures Split(Join(segs)) == segs
    decreases |segs|
  {
    SplitWithoutComma(segs[0]);
    if |segs| > 1 {
      SplitJoin(segs[1..]);
      SplitAppendComma(segs[0], Join(segs[1..]));
      assert segs == [segs[0]] + segs[1..];
    }
  }

  // ---- Decimal literals, as `#i` and `prefix ## i` produce them ----

  function Digit(d: nat): (c: char)
    requires d < 10
    ensures '0' <= c <= '9'
  {
    ('0' as int + d) as char
  }

  function NatToString(n: nat): (s: string)
    ensures |s| >= 1
    ensures forall k :: 0 <= k < |s| ==> '0' <= s[k] <= '9'
    decreases n
  {
    if n < 10 then [Digit(n)] else NatToString(n / 10) + [Digit(n % 10)]
  }

  /** Reading a decimal numeral back, most significant digit first. */
  function DecimalValue(s: string): nat
    decreases |s|
  {
    if s == [] then 0
    else
      var c := s[|s| - 1];
      DecimalValue(s[..|s| - 1]) * 10 + (if '0' <= c <= '9' then c as int - '0' as int else 0)
  }

  /** The numeral of a number reads back as that number, so distinct positions get distinct names. */
  lemma {:induction false} NatToStringRoundTrip(n: nat)
    ensures DecimalValue(NatToString(n)) == n
    decreases n
  {
    var s := NatToString(n);
    if n >= 10 {
      NatToStringRoundTrip(n / 10);
      assert s[..|s| - 1] == NatToString(n / 10);
    } else {
      assert s[..|s| - 1] == [];
    }
  }
}
