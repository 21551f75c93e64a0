/** The pieces of Go's `strings`, `strconv` and `unicode` packages that the core
    relies on, restated over `string` (a sequence of code points). */
module Text {
  import opened Types

  const MaxInt64: int := 0x7fff_ffff_ffff_ffff
  const MinInt64: int := -0x8000_0000_0000_0000

  // ---------------------------------------------------------------------------
  // Characters

  /** ASCII decimal digit (`unicode.IsDigit` restricted to ASCII). */
  predicate IsDigit(c: char) { '0' <= c <= '9' }

  predicate IsUpper(c: char) { 'A' <= c <= 'Z' }

  /** `unicode.IsSpace`: the Unicode White_Space characters. */
  predicate IsSpace(c: char)
  {
    var n := c as int;
    (0x09 <= n <= 0x0D) || n == 0x20 || n == 0x85 || n == 0xA0 || n == 0x1680
    || (0x2000 <= n <= 0x200A) || n == 0x2028 || n == 0x2029 || n == 0x202F
    || n == 0x205F || n == 0x3000
  }

  predicate AllDigits(s: string) { forall i | 0 <= i < |s| :: IsDigit(s[i]) }

  /** The value of a decimal digit (0 for any other character). */
  function DigitValue(c: char): (d: nat)
    ensures d < 10
  {
    if IsDigit(c) then (c as int) - ('0' as int) else 0
  }

  function DigitChar(d: nat): (c: char)
    requires d < 10
    ensures IsDigit(c) && DigitValue(c) == d
  {
    (('0' as int) + d) as char
  }

  // ---------------------------------------------------------------------------
  // Numbers written in decimal

  function Pow10(n: nat): (p: nat)
    ensures p >= 1
  {
    if n == 0 then 1 else 10 * Pow10(n - 1)
  }

  /** The number a string of decimal digits denotes (leading zeros allowed). */
  function Value(s: string): nat
  {
    if s == [] then 0 else 10 * Value(s[..|s| - 1]) + DigitValue(s[|s| - 1])
  }

  lemma {:induction false} ValueBound(s: string)
    ensures Value(s) < Pow10(|s|)
  {
    if s != [] {
      ValueBound(s[..|s| - 1]);
    }
  }

  /** Positional notation: the digits of `u` are worth `10^|v|` times more. */
  lemma {:induction false} ValueConcat(u: string, v: string)
    ensures Value(u + v) == Value(u) * Pow10(|v|) + Value(v)
  {
    if v == [] {
      assert u + v == u;
    } else {
      var w := v[..|v| - 1];
      assert (u + v)[..|u + v| - 1] == u + w;
      ValueConcat(u, w);
      assert Value(u + v) == 10 * Value(u + w) + DigitValue(v[|v| - 1]);
      assert Value(v) == 10 * Value(w) + DigitValue(v[|v| - 1]);
      Shift(Value(u), Pow10(|w|), Value(w));
    }
  }

  lemma Shift(a: int, p: int, x: int)
    ensures 10 * (a * p + x) == a * (10 * p) + 10 * x
  {
  }

  /** Shortest decimal spelling of a natural number (`strconv.Itoa` for n >= 0). */
  function Decimal(n: nat): (s: string)
    ensures s != [] && AllDigits(s)
  {
    if n < 10 then [DigitChar(n)] else Decimal(n / 10) + [DigitChar(n % 10)]
  }

  lemma {:induction false} ValueOfDecimal(n: nat)
    ensures Value(Decimal(n)) == n
  {
    if n >= 10 {
      var s := Decimal(n);
      assert s[..|s| - 1] == Decimal(n / 10);
      ValueOfDecimal(n / 10);
    }
  }

  /** `strconv.Itoa`. */
  function Itoa(n: int): string
  {
    if n < 0 then "-" + Decimal(-n) else Decimal(n)
  }

  /** The maximal run of digits at the start of `s`. */
  function DigitRun(s: string): (r: string)
    ensures |r| <= |s|
  {
    if s != [] && IsDigit(s[0]) then [s[0]] + DigitRun(s[1..]) else []
  }

  lemma {:induction false} DigitRunFacts(s: string)
    ensures var r := DigitRun(s);
      && r == s[..|r|] && AllDigits(r)
      && (|r| == |s| || !IsDigit(s[|r|]))
      && (s != [] && IsDigit(s[0]) ==> r != [])
  {
    if s != [] && IsDigit(s[0]) {
      DigitRunFacts(s[1..]);
      var r := DigitRun(s);
      assert r == [s[0]] + DigitRun(s[1..]);
      assert r[1..] == DigitRun(s[1..]);
    }
  }

  lemma {:induction false} DigitRunAll(s: string)
    requires AllDigits(s)
    ensures DigitRun(s) == s
  {
    DigitRunFacts(s);
  }

  /** What `strconv.Atoi` returns: a value and whether the error is nil.  A
      syntax error gives 0, an out-of-range number the nearest 64-bit bound. */
  datatype Conversion = Conversion(value: int, ok: bool)

  const MaxUint64: int := 0xffff_ffff_ffff_ffff

  /** `strconv.Atoi`: an optional sign followed by one or more ASCII digits,
      denoting a number in the 64-bit signed range.  The digits are read left
      to right as `strconv.ParseUint` does, so digits that already overflow 64
      unsigned bits are reported as out of range (the signed bound) even when
      a non-digit follows them; any other non-digit is a syntax error. */
  function Atoi(s: string): Conversion
  {
    var neg := |s| > 0 && s[0] == '-';
    var body := if |s| > 0 && (s[0] == '+' || s[0] == '-') then s[1..] else s;
    var run := DigitRun(body);
    if body == [] then Conversion(0, false)
    else if Value(run) > MaxUint64 then Conversion(if neg then MinInt64 else MaxInt64, false)
    else if |run| < |body| then Conversion(0, false)
    else
      var m: int := Value(body);
      var v := if neg then -m else m;
      if v > MaxInt64 then Conversion(MaxInt64, false)
      else if v < MinInt64 then Conversion(MinInt64, false)
      else Conversion(v, true)
  }

  /** A successful conversion is a 64-bit integer written with an optional
      sign and at least one digit. */
  lemma {:induction false} AtoiOk(s: string)
    ensures Atoi(s).ok ==> MinInt64 <= Atoi(s).value <= MaxInt64 && s != []
    ensures Atoi(s).ok ==> (IsDigit(s[0]) || (|s| >= 2 && (s[0] == '+' || s[0] == '-')))
  {
    var body := if |s| > 0 && (s[0] == '+' || s[0] == '-') then s[1..] else s;
    DigitRunFacts(body);
  }

  /** Formatting and then parsing agree on the whole 64-bit range. */
  lemma {:induction false} AtoiItoa(n: int)
    requires MinInt64 <= n <= MaxInt64
    ensures Atoi(Itoa(n)) == Conversion(n, true)
  {
    var d := Decimal(if n < 0 then -n else n);
    ValueOfDecimal(if n < 0 then -n else n);
    DigitRunAll(d);
    assert IsDigit(d[0]);
    if n < 0 {
      var s := "-" + d;
      assert s[0] == '-' && s[1..] == d;
    }
  }

  /** On a non-empty run of digits, `Atoi` fails exactly when the number does
      not fit in 64 bits. */
  lemma {:induction false} AtoiDigits(s: string)
    requires s != [] && AllDigits(s)
    ensures Atoi(s).ok <==> Value(s) <= MaxInt64
    ensures Atoi(s).ok ==> Atoi(s).value == Value(s)
  {
    DigitRunAll(s);
  }

  /** The first non-digit of an unsigned number ends the conversion: it is a
      syntax error (value 0), unless the digits before it already overflow 64
      unsigned bits, which is reported first as out of range. */
  lemma {:induction false} AtoiStops(s: string, k: nat)
    requires 0 < k < |s| && AllDigits(s[..k]) && !IsDigit(s[k])
    ensures Atoi(s) == if Value(s[..k]) > MaxUint64 then Conversion(MaxInt64, false) else Conversion(0, false)
  {
    DigitRunFacts(s);
  }

  /** `Atoi` of a single character succeeds only for a digit. */
  lemma {:induction false} AtoiOneChar(c: char)
    ensures Atoi([c]).ok <==> IsDigit(c)
  {
    assert [c][1..] == [] && [c][..0] == [];
    assert DigitRun([c]) == if IsDigit(c) then [c] + DigitRun([]) else [];
    assert Value([c]) == DigitValue(c);
  }

  // ---------------------------------------------------------------------------
  // strings.TrimSpace

  function TrimLeft(s: string): (r: string)
    ensures |r| <= |s| && r == s[|s| - |r|..]
    ensures forall i | 0 <= i < |s| - |r| :: IsSpace(s[i])
    ensures r == [] || !IsSpace(r[0])
  {
    if s != [] && IsSpace(s[0]) then TrimLeft(s[1..]) else s
  }

  function TrimRight(s: string): (r: string)
    ensures |r| <= |s| && r == s[..|r|]
    ensures forall i | |r| <= i < |s| :: IsSpace(s[i])
    ensures r == [] || !IsSpace(r[|r| - 1])
  {
    if s != [] && IsSpace(s[|s| - 1]) then TrimRight(s[..|s| - 1]) else s
  }

  /** `strings.TrimSpace`: the line without leading and trailing white space. */
  function TrimSpace(s: string): (r: string)
    ensures r == [] || (!IsSpace(r[0]) && !IsSpace(r[|r| - 1]))
  {
    TrimRight(TrimLeft(s))
  }

  /** A line trims to "" exactly when it is made only of white space. */
  lemma {:induction false} TrimSpaceEmpty(s: string)
    ensures TrimSpace(s) == [] <==> forall k | 0 <= k < |s| :: IsSpace(s[k])
  {
    var l := TrimLeft(s);
    if TrimSpace(s) == [] {
      if l != [] {
        assert false;
      }
    } else if l != [] {
      assert !IsSpace(l[0]) && l[0] == s[|s| - |l|];
    }
  }

  // ---------------------------------------------------------------------------
  // strings.Split and its inverse strings.Join

  /** `strings.Split(s, sep)` for a one-character separator. */
  function Split(s: string, sep: char): (r: seq<string>)
    ensures |r| >= 1
  {
    if s == [] then [[]]
    else
      var rest := Split(s[1..], sep);
      if s[0] == sep then [[]] + rest else [[s[0]] + rest[0]] + rest[1..]
  }

  /** `strings.Join(fields, sep)`. */
  function Join(fields: seq<string>, sep: char): string
    requires |fields| >= 1
  {
    if |fields| == 1 then fields[0] else fields[0] + [sep] + Join(fields[1..], sep)
  }

  lemma {:induction false} JoinSplit(s: string, sep: char)
    ensures Join(Split(s, sep), sep) == s
  {
    if s != [] {
      var rest := Split(s[1..], sep);
      JoinSplit(s[1..], sep);
      if s[0] == sep {
        assert ([[]] + rest)[1..] == rest;
      } else {
        var r := Split(s, sep);
        if |rest| == 1 {
          assert r == [[s[0]] + rest[0]];
        } else {
          assert r[1..] == rest[1..];
          assert Join(rest, sep) == rest[0] + [sep] + Join(rest[1..], sep);
        }
      }
    }
  }

  lemma {:induction false} SplitFieldsNoSep(s: string, sep: char)
    ensures forall f | f in Split(s, sep) :: sep !in f
  {
    if s != [] {
      SplitFieldsNoSep(s[1..], sep);
      var rest := Split(s[1..], sep);
      if s[0] != sep {
        assert sep !in rest[0];
        forall f | f in Split(s, sep) ensures sep !in f {
          if f != [s[0]] + rest[0] {
            assert f in rest[1..];
          }
        }
      }
    }
  }

  lemma {:induction false} SplitNoSep(f: string, sep: char)
    requires sep !in f
    ensures Split(f, sep) == [f]
  {
    if f != [] {
      SplitNoSep(f[1..], sep);
      assert [f[0]] + f[1..] == f;
    }
  }

  lemma {:induction false} SplitField(f: string, t: string, sep: char)
    requires sep !in f
    ensures Split(f + [sep] + t, sep) == [f] + Split(t, sep)
  {
    if f == [] {
      assert f + [sep] + t == [sep] + t;
      assert ([sep] + t)[1..] == t;
    } else {
      var s := f + [sep] + t;
      assert s[1..] == f[1..] + [sep] + t;
      SplitField(f[1..], t, sep);
      assert [f[0]] + f[1..] == f;
    }
  }

  /** Splitting undoes joining fields that do not contain the separator. */
  lemma {:induction false} SplitJoin(fields: seq<string>, sep: char)
    requires |fields| >= 1
    requires forall f | f in fields :: sep !in f
    ensures Split(Join(fields, sep), sep) == fields
  {
    if |fields| == 1 {
      SplitNoSep(fields[0], sep);
    } else {
      SplitJoin(fields[1..], sep);
      SplitField(fields[0], Join(fields[1..], sep), sep);
      assert [fields[0]] + fields[1..] == fields;
    }
  }

  /** A line that does not start with the separator has a non-empty first field. */
  lemma {:induction false} SplitFirstNonEmpty(s: string, sep: char)
    requires s != [] && s[0] != sep
    ensures Split(s, sep)[0] != [] && Split(s, sep)[0][0] == s[0]
  {
  }

  // ---------------------------------------------------------------------------
  // strings.Contains and len

  /** `strings.Contains`. */
  predicate Contains(s: string, sub: string)
  {
    if |s| < |sub| then false else s[..|sub|] == sub || Contains(s[1..], sub)
  }

  /** Bytes taken by one code point in UTF-8. */
  function Utf8Width(c: char): (w: nat)
    ensures 1 <= w <= 4
  {
    var n := c as int;
    if n < 0x80 then 1 else if n < 0x800 then 2 else if n < 0x1_0000 then 3 else 4
  }

  /** Go's `len` on a string: its length in UTF-8 bytes. */
  function Utf8Len(s: string): nat
  {
    if s == [] then 0 else Utf8Width(s[0]) + Utf8Len(s[1..])
  }

  /** Every code point takes one to four bytes, and ASCII text one byte per
      character. */
  lemma {:induction false} Utf8LenBounds(s: string)
    ensures |s| <= Utf8Len(s) <= 4 * |s|
    ensures (forall i | 0 <= i < |s| :: (s[i] as int) < 0x80) ==> Utf8Len(s) == |s|
  {
    if s != [] {
      Utf8LenBounds(s[1..]);
    }
  }
}
