/** A strict order that every `Less` answer of `strnum_cmp` respects.

    `strnum_cmp` is not transitive where it aborts: two comparisons can answer
    `Less` while the third, between the outer names, aborts on a number too
    large for 64 bits.  Reading a name as a sequence of tokens (a digit run by
    its key, any other character by itself) and comparing those sequences
    lexicographically gives a strict order in which every `Less` answer is a
    step down.  So a chain of `Less` answers never returns to where it started,
    and a running minimum that only ever moves down by `Less` answers stays at
    or below everything it has passed (bestbamhit.go:167-184). */
module Tokens {
  import opened Text
  import opened Compare

  datatype Token = Number(key: (int, int, int)) | Char(c: char)

  /** A name as its digit runs and other characters, in order. */
  function Tokenize(s: string): seq<Token>
    decreases |s|
  {
    if s == [] then []
    else if IsDigit(s[0]) then
      var r := DigitRun(s);
      [Number(RunKey(r))] + Tokenize(s[|r|..])
    else [Char(s[0])] + Tokenize(s[1..])
  }

  /** Numbers before characters; numbers by their run key, characters by
      code point. */
  predicate TokenBelow(x: Token, y: Token)
  {
    match (x, y)
    case (Number(k), Number(l)) => KeyLess(k, l)
    case (Char(c), Char(d)) => c < d
    case (Number(_), Char(_)) => true
    case (Char(_), Number(_)) => false
  }

  /** Lexicographic order on token sequences; a proper prefix comes first. */
  predicate Below(s: seq<Token>, t: seq<Token>)
  {
    if t == [] then false
    else if s == [] then true
    else if s[0] == t[0] then Below(s[1..], t[1..])
    else TokenBelow(s[0], t[0])
  }

  lemma {:induction false} BelowIrreflexive(s: seq<Token>)
    ensures !Below(s, s)
  {
    if s != [] {
      BelowIrreflexive(s[1..]);
    }
  }

  lemma {:induction false} BelowTransitive(s: seq<Token>, t: seq<Token>, u: seq<Token>)
    requires Below(s, t) && Below(t, u)
    ensures Below(s, u)
  {
    if s != [] && s[0] == t[0] && t[0] == u[0] {
      BelowTransitive(s[1..], t[1..], u[1..]);
    }
  }

  /** Two different token sequences are ordered one way or the other. */
  lemma {:induction false} BelowTotal(s: seq<Token>, t: seq<Token>)
    requires s != t
    ensures Below(s, t) || Below(t, s)
  {
    if s != [] && t != [] && s[0] == t[0] {
      assert s == [s[0]] + s[1..] && t == [t[0]] + t[1..];
      BelowTotal(s[1..], t[1..]);
    }
  }

  /** A digit run is determined by its key. */
  lemma RunKeyInjective(ra: string, rb: string)
    requires AllDigits(ra) && AllDigits(rb) && RunKey(ra) == RunKey(rb)
    ensures ra == rb
  {
    StripZerosFacts(ra);
    StripZerosFacts(rb);
    if StripZeros(ra) != StripZeros(rb) {
      FirstDifferenceDecides(StripZeros(ra), StripZeros(rb));
    }
    RunOrderEqual(ra, rb);
  }

  /** Different names have different tokens. */
  lemma {:induction false} TokenizeInjective(a: string, b: string)
    requires Tokenize(a) == Tokenize(b)
    ensures a == b
    decreases |a|
  {
    if a != [] && b != [] {
      if IsDigit(a[0]) {
        var ra, rb := DigitRun(a), DigitRun(b);
        DigitRunFacts(a);
        DigitRunFacts(b);
        assert Tokenize(a) == [Number(RunKey(ra))] + Tokenize(a[|ra|..]);
        assert IsDigit(b[0]);
        assert Tokenize(b) == [Number(RunKey(rb))] + Tokenize(b[|rb|..]);
        assert Tokenize(a)[1..] == Tokenize(b)[1..];
        RunKeyInjective(ra, rb);
        TokenizeInjective(a[|ra|..], b[|rb|..]);
        assert a == ra + a[|ra|..] && b == rb + b[|rb|..];
      } else {
        assert Tokenize(a) == [Char(a[0])] + Tokenize(a[1..]);
        assert !IsDigit(b[0]);
        assert Tokenize(b) == [Char(b[0])] + Tokenize(b[1..]);
        assert Tokenize(a)[1..] == Tokenize(b)[1..];
        TokenizeInjective(a[1..], b[1..]);
        assert a == [a[0]] + a[1..] && b == [b[0]] + b[1..];
      }
    }
  }

  /** The token order is total on names: of two different names, one lies
      below the other. */
  lemma TokenOrderTotal(a: string, b: string)
    requires a != b
    ensures Below(Tokenize(a), Tokenize(b)) || Below(Tokenize(b), Tokenize(a))
  {
    if Tokenize(a) == Tokenize(b) {
      TokenizeInjective(a, b);
    }
    BelowTotal(Tokenize(a), Tokenize(b));
  }

  /** Whatever is not below `t` is not below anything below `t` either. */
  lemma NotBelowLower(h: seq<Token>, s: seq<Token>, t: seq<Token>)
    requires !Below(h, t) && Below(s, t)
    ensures !Below(h, s)
  {
    if Below(h, s) {
      BelowTransitive(h, s, t);
    }
  }

  /** Every `Less` answer is a step down in the token order. */
  lemma {:induction false} LessIsBelow(a: string, b: string)
    requires NaturalCompare(a, b) == Less
    ensures Below(Tokenize(a), Tokenize(b))
    decreases |a|
  {
    if a != [] && b != [] {
      if IsDigit(a[0]) && IsDigit(b[0]) {
        var ra, rb := DigitRun(a), DigitRun(b);
        DigitRunFacts(a);
        DigitRunFacts(b);
        if RunOrder(ra, rb) == Equal {
          RunOrderEqual(ra, rb);
          LessIsBelow(a[|ra|..], b[|rb|..]);
        } else {
          RunOrderLessKey(ra, rb);
        }
      } else {
        LessIsBelow(a[1..], b[1..]);
      }
    }
  }

  /** Where `strnum_cmp` answers `Equal` or `Greater`, the first name is not
      below the second. */
  lemma {:induction false} NotLessIsNotBelow(a: string, b: string)
    requires NaturalCompare(a, b) == Equal || NaturalCompare(a, b) == Greater
    ensures !Below(Tokenize(a), Tokenize(b))
  {
    if NaturalCompare(a, b) == Equal {
      EqualOnlyIdentical(a, b);
      BelowIrreflexive(Tokenize(a));
    } else {
      Antisymmetric(a, b);
      LessIsBelow(b, a);
      if Below(Tokenize(a), Tokenize(b)) {
        BelowTransitive(Tokenize(a), Tokenize(b), Tokenize(a));
        BelowIrreflexive(Tokenize(a));
      }
    }
  }

  /** No chain of `Less` answers comes back to its start, even where the
      comparison of its ends aborts. */
  lemma {:induction false} NoLessCycle(a: string, b: string, c: string)
    requires NaturalCompare(a, b) == Less && NaturalCompare(b, c) == Less
    ensures NaturalCompare(c, a) != Less
  {
    LessIsBelow(a, b);
    LessIsBelow(b, c);
    BelowTransitive(Tokenize(a), Tokenize(b), Tokenize(c));
    if NaturalCompare(c, a) == Less {
      LessIsBelow(c, a);
      BelowTransitive(Tokenize(c), Tokenize(a), Tokenize(c));
      BelowIrreflexive(Tokenize(c));
    }
  }
}
