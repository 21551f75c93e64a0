/** The natural-order read-name comparator `strnum_cmp` (compare.go), a port of
    the comparison samtools uses when it sorts by read name.

    `NaturalCompare` states the order declaratively, one token at a time: a
    token is either one non-digit character or a maximal run of digits.  Two
    digit runs compare by the number they spell (ignoring leading zeros: fewer
    significant digits first, then by value); equal numbers compare by their
    leading zeros (more zeros first).  Two different characters outside digit
    runs make the Go code call `digitToInt` on a non-digit, which ends the
    process: that outcome is `Abort`.  `StrnumCmp` is the Go loop nest itself,
    proved to compute `NaturalCompare`. */
module Compare {
  import opened Text
  import opened Types

  /** The sign of `strnum_cmp`'s result, or `Abort` when it calls `log.Fatal`. */
  datatype Order = Less | Equal | Greater | Abort

  function Flip(o: Order): Order
  {
    match o
    case Less => Greater
    case Greater => Less
    case _ => o
  }

  function LengthOrder(m: nat, n: nat): Order
  {
    if m > n then Greater else if m < n then Less else Equal
  }

  function SignOf(d: int): Order
  {
    if d > 0 then Greater else if d < 0 then Less else Equal
  }

  predicate AllZeros(s: string) { forall i | 0 <= i < |s| :: s[i] == '0' }

  /** A digit run without its leading zeros. */
  function StripZeros(r: string): (n: string)
    ensures |n| <= |r|
  {
    if r != [] && r[0] == '0' then StripZeros(r[1..]) else r
  }

  lemma {:induction false} StripZerosFacts(r: string)
    ensures var n := StripZeros(r);
      && n == r[|r| - |n|..] && AllZeros(r[..|r| - |n|])
      && (n == [] || n[0] != '0')
      && (AllDigits(r) ==> AllDigits(n))
  {
    if r != [] && r[0] == '0' {
      StripZerosFacts(r[1..]);
      var n := StripZeros(r);
      assert r[1..][|r| - 1 - |n|..] == r[|r| - |n|..];
      assert r[..|r| - |n|] == [r[0]] + r[1..][..|r| - 1 - |n|];
    } else {
      assert r[|r|..] == [] && r[..|r|] == r;
    }
  }

  /** Length of the longest common prefix. */
  function CommonPrefix(x: string, y: string): (p: nat)
    ensures p <= |x| && p <= |y| && x[..p] == y[..p]
    ensures p == |x| || p == |y| || x[p] != y[p]
  {
    if x != [] && y != [] && x[0] == y[0] then 1 + CommonPrefix(x[1..], y[1..]) else 0
  }

  /** `digitToInt` (compare.go:9-14): `strconv.Atoi`, or `None` where the Go
      code calls `log.Fatal`. */
  function DigitToInt(s: string): (r: Option<int>)
    ensures r.Some? <==> Atoi(s).ok
    ensures r.Some? ==> r.value == Atoi(s).value
  {
    if Atoi(s).ok then Some(Atoi(s).value) else None
  }

  /** Order of two digit runs that stand at the same position of both names. */
  function RunOrder(ra: string, rb: string): Order
  {
    var na, nb := StripZeros(ra), StripZeros(rb);
    if |na| > |nb| then Greater
    else if |na| < |nb| then Less
    else if na != nb then
      // the Go code parses the digits after the common prefix with `Atoi`
      var p := CommonPrefix(na, nb);
      if Value(na[p..]) > MaxInt64 || Value(nb[p..]) > MaxInt64 then Abort
      else if Value(na) < Value(nb) then Less else Greater
    else if |ra| > |rb| then Less
    else if |ra| < |rb| then Greater
    else Equal
  }

  /** The natural order on read names, token by token. */
  function NaturalCompare(a: string, b: string): Order
    decreases |a|
  {
    if a == [] || b == [] then LengthOrder(|a|, |b|)
    else if IsDigit(a[0]) && IsDigit(b[0]) then
      var ra, rb := DigitRun(a), DigitRun(b);
      var o := RunOrder(ra, rb);
      if o == Equal then NaturalCompare(a[|ra|..], b[|rb|..]) else o
    else if a[0] == b[0] then NaturalCompare(a[1..], b[1..])
    else Abort
  }

  /** The order a caller may accept between consecutive names of a sorted stream. */
  predicate InOrder(a: string, b: string)
  {
    NaturalCompare(a, b) == Less || NaturalCompare(a, b) == Equal
  }

  // ---------------------------------------------------------------------------
  // Facts about digit runs

  lemma {:induction false} RunPrefix(s: string, k: nat)
    requires k <= |s| && AllDigits(s[..k])
    ensures DigitRun(s) == s[..k] + DigitRun(s[k..])
  {
    if k > 0 {
      assert IsDigit(s[..k][0]);
      var t := s[1..][..k - 1];
      assert AllDigits(t) by {
        forall m | 0 <= m < k - 1 ensures IsDigit(t[m]) {
          assert t[m] == s[..k][m + 1];
        }
      }
      RunPrefix(s[1..], k - 1);
      assert s[1..][k - 1..] == s[k..];
      assert [s[0]] + s[1..][..k - 1] == s[..k];
    } else {
      assert s[0..] == s;
    }
  }

  lemma {:induction false} StripZerosPrefix(z: string, r: string)
    requires AllZeros(z) && (r == [] || r[0] != '0')
    ensures StripZeros(z + r) == r
  {
    if z != [] {
      assert (z + r)[0] == '0';
      assert (z + r)[1..] == z[1..] + r;
      StripZerosPrefix(z[1..], r);
    } else {
      assert z + r == r;
    }
  }

  /** A digit run is its leading zeros followed by its significant digits. */
  lemma {:induction false} StripZerosSplit(r: string)
    ensures r == r[..|r| - |StripZeros(r)|] + StripZeros(r)
  {
    StripZerosFacts(r);
  }

  lemma {:induction false} CommonPrefixIs(x: string, y: string, p: nat)
    requires p <= |x| && p <= |y| && x[..p] == y[..p]
    requires p == |x| || p == |y| || x[p] != y[p]
    ensures CommonPrefix(x, y) == p
  {
    var q := CommonPrefix(x, y);
    assert forall m | 0 <= m < p :: x[m] == y[m] by {
      forall m | 0 <= m < p ensures x[m] == y[m] { assert x[m] == x[..p][m]; }
    }
    assert forall m | 0 <= m < q :: x[m] == y[m] by {
      forall m | 0 <= m < q ensures x[m] == y[m] { assert x[m] == x[..q][m]; }
    }
  }

  lemma {:induction false} CommonPrefixSymmetric(x: string, y: string)
    ensures CommonPrefix(x, y) == CommonPrefix(y, x)
  {
    CommonPrefixIs(y, x, CommonPrefix(x, y));
  }

  /** Digit strings of one length whose first digits differ are ordered, as
      numbers, like those first digits. */
  lemma {:induction false} FirstDigitDecides(xs: string, ys: string)
    requires AllDigits(xs) && AllDigits(ys) && |xs| == |ys| >= 1 && xs[0] != ys[0]
    ensures Value(xs) < Value(ys) <==> xs[0] < ys[0]
    ensures Value(xs) != Value(ys)
  {
    var dx, rx := LeadingDigit(xs);
    var dy, ry := LeadingDigit(ys);
    var P := Pow10(|xs| - 1);
    if dx < dy {
      PlaceValueOrder(dx, dy, rx, ry, P);
    } else {
      PlaceValueOrder(dy, dx, ry, rx, P);
    }
  }

  /** The first digit of a digit string is worth `10^(n-1)`. */
  lemma {:induction false} LeadingDigit(xs: string) returns (d: nat, rest: nat)
    requires AllDigits(xs) && |xs| >= 1
    ensures d == DigitValue(xs[0]) && rest < Pow10(|xs| - 1)
    ensures Value(xs) == d * Pow10(|xs| - 1) + rest
  {
    assert xs == [xs[0]] + xs[1..];
    ValueConcat([xs[0]], xs[1..]);
    assert [xs[0]][..0] == [];
    ValueBound(xs[1..]);
    d, rest := DigitValue(xs[0]), Value(xs[1..]);
  }

  lemma {:induction false} PlaceValueOrder(dx: nat, dy: nat, rx: nat, ry: nat, p: nat)
    requires dx < dy && rx < p && ry < p
    ensures dx * p + rx < dy * p + ry
  {
    MulMonotone(dx + 1, dy, p);
    assert (dx + 1) * p == dx * p + p;
  }

  lemma {:induction false} MulMonotone(m: nat, n: nat, p: nat)
    requires m <= n
    ensures m * p <= n * p
  {
  }

  /** A common prefix does not change how two digit strings of one length compare. */
  lemma {:induction false} CommonDigitsKeepOrder(u: string, xs: string, ys: string)
    requires AllDigits(u) && AllDigits(xs) && AllDigits(ys) && |xs| == |ys|
    ensures AllDigits(u + xs) && AllDigits(u + ys)
    ensures Value(u + xs) < Value(u + ys) <==> Value(xs) < Value(ys)
    ensures Value(u + xs) == Value(u + ys) <==> Value(xs) == Value(ys)
  {
    ValueConcat(u, xs);
    ValueConcat(u, ys);
  }

  /** Equal-length digit strings that differ compare, as numbers, like their
      first differing digits; only the digits after the common prefix matter. */
  lemma {:induction false} FirstDifferenceDecides(x: string, y: string)
    requires AllDigits(x) && AllDigits(y) && |x| == |y| && x != y
    ensures CommonPrefix(x, y) < |x|
    ensures var p := CommonPrefix(x, y);
      && (Value(x) < Value(y) <==> x[p] < y[p])
      && (Value(x) < Value(y) <==> Value(x[p..]) < Value(y[p..]))
      && Value(x) != Value(y) && Value(x[p..]) != Value(y[p..])
  {
    var p := CommonPrefix(x, y);
    assert x[..|x|] == x && y[..|y|] == y;
    var u, xs, ys := x[..p], x[p..], y[p..];
    assert x == u + xs && y == u + ys;
    FirstDigitDecides(xs, ys);
    CommonDigitsKeepOrder(u, xs, ys);
  }

  /** A run equal to another in significant digits and in length is the same run. */
  lemma {:induction false} RunOrderEqual(ra: string, rb: string)
    requires AllDigits(ra) && AllDigits(rb)
    ensures RunOrder(ra, rb) == Equal <==> ra == rb
  {
    StripZerosFacts(ra);
    StripZerosFacts(rb);
    if RunOrder(ra, rb) == Equal {
      var na, nb := StripZeros(ra), StripZeros(rb);
      StripZerosSplit(ra);
      StripZerosSplit(rb);
      var za, zb := ra[..|ra| - |na|], rb[..|rb| - |nb|];
      assert |za| == |zb|;
      assert za == zb by {
        forall m | 0 <= m < |za| ensures za[m] == zb[m] {
        }
      }
    }
  }

  lemma {:induction false} RunOrderFlip(ra: string, rb: string)
    requires AllDigits(ra) && AllDigits(rb)
    ensures RunOrder(rb, ra) == Flip(RunOrder(ra, rb))
  {
    var na, nb := StripZeros(ra), StripZeros(rb);
    StripZerosFacts(ra);
    StripZerosFacts(rb);
    if |na| == |nb| && na != nb {
      CommonPrefixSymmetric(na, nb);
      FirstDifferenceDecides(na, nb);
    }
  }

  /** Away from `Abort`, runs are ordered by (significant length, value,
      fewer leading zeros). */
  function RunKey(r: string): (int, int, int)
  {
    (|StripZeros(r)|, Value(StripZeros(r)), -|r|)
  }

  predicate KeyLess(k: (int, int, int), l: (int, int, int))
  {
    k.0 < l.0 || (k.0 == l.0 && (k.1 < l.1 || (k.1 == l.1 && k.2 < l.2)))
  }

  lemma {:induction false} RunOrderLessKey(ra: string, rb: string)
    requires AllDigits(ra) && AllDigits(rb)
    requires RunOrder(ra, rb) != Abort
    ensures RunOrder(ra, rb) == Less <==> KeyLess(RunKey(ra), RunKey(rb))
  {
    var na, nb := StripZeros(ra), StripZeros(rb);
    StripZerosFacts(ra);
    StripZerosFacts(rb);
    if |na| == |nb| && na != nb {
      FirstDifferenceDecides(na, nb);
    }
  }

  // ---------------------------------------------------------------------------
  // Ordering laws

  /** `strnum_cmp(a, a) == 0`: it never aborts on identical names. */
  lemma {:induction false} Reflexive(a: string)
    ensures NaturalCompare(a, a) == Equal
    decreases |a|
  {
    if a != [] {
      if IsDigit(a[0]) {
        var r := DigitRun(a);
        DigitRunFacts(a);
        RunOrderEqual(r, r);
        Reflexive(a[|r|..]);
      } else {
        Reflexive(a[1..]);
      }
    }
  }

  /** Swapping the arguments flips the sign; an abort happens either way round. */
  lemma {:induction false} Antisymmetric(a: string, b: string)
    ensures NaturalCompare(b, a) == Flip(NaturalCompare(a, b))
    decreases |a|
  {
    if a != [] && b != [] {
      if IsDigit(a[0]) && IsDigit(b[0]) {
        var ra, rb := DigitRun(a), DigitRun(b);
        DigitRunFacts(a);
        DigitRunFacts(b);
        RunOrderFlip(ra, rb);
        if RunOrder(ra, rb) == Equal {
          RunOrderEqual(ra, rb);
          Antisymmetric(a[|ra|..], b[|rb|..]);
        }
      } else if a[0] == b[0] {
        Antisymmetric(a[1..], b[1..]);
      }
    }
  }

  /** A result of 0 happens only for identical names. */
  lemma {:induction false} EqualOnlyIdentical(a: string, b: string)
    ensures NaturalCompare(a, b) == Equal <==> a == b
    decreases |a|
  {
    if a == b {
      Reflexive(a);
    }
    if a != [] && b != [] && NaturalCompare(a, b) == Equal {
      if IsDigit(a[0]) && IsDigit(b[0]) {
        var ra, rb := DigitRun(a), DigitRun(b);
        DigitRunFacts(a);
        DigitRunFacts(b);
        RunOrderEqual(ra, rb);
        EqualOnlyIdentical(a[|ra|..], b[|rb|..]);
        assert a == ra + a[|ra|..] && b == rb + b[|rb|..];
      } else {
        EqualOnlyIdentical(a[1..], b[1..]);
        assert a == [a[0]] + a[1..] && b == [b[0]] + b[1..];
      }
    }
  }

  /** Transitivity of `Less`.  The third comparison must not abort: it can,
      because `Atoi` may overflow on digits that the first two comparisons
      never parse (19-digit runs). */
  lemma {:induction false} TransitiveLess(a: string, b: string, c: string)
    requires NaturalCompare(a, b) == Less && NaturalCompare(b, c) == Less
    requires NaturalCompare(a, c) != Abort
    ensures NaturalCompare(a, c) == Less
    decreases |a|
  {
    if a != [] && b != [] && c != [] {
      if IsDigit(a[0]) {
        assert IsDigit(b[0]) && IsDigit(c[0]);
        var ra, rb, rc := DigitRun(a), DigitRun(b), DigitRun(c);
        DigitRunFacts(a);
        DigitRunFacts(b);
        DigitRunFacts(c);
        RunOrderEqual(ra, rb);
        RunOrderEqual(rb, rc);
        RunOrderEqual(ra, rc);
        if ra == rb && rb == rc {
          TransitiveLess(a[|ra|..], b[|rb|..], c[|rc|..]);
        } else if ra != rb && rb != rc {
          RunOrderLessKey(ra, rb);
          RunOrderLessKey(rb, rc);
          RunOrderLessKey(ra, rc);
        }
      } else {
        TransitiveLess(a[1..], b[1..], c[1..]);
      }
    }
  }

  /** `InOrder` chains: a non-decreasing pair followed by another is
      non-decreasing unless the outer comparison aborts. */
  lemma {:induction false} InOrderTransitive(a: string, b: string, c: string)
    requires InOrder(a, b) && InOrder(b, c) && NaturalCompare(a, c) != Abort
    ensures InOrder(a, c)
  {
    EqualOnlyIdentical(a, b);
    EqualOnlyIdentical(b, c);
    if a != b && b != c {
      TransitiveLess(a, b, c);
    }
  }

  /** A proper prefix sorts first when the longer name does not continue a
      digit run that ends the prefix.  (Where it does, the two runs decide;
      that reverses the order only when both are all zeros: "x0" sorts after
      "x00".) */
  lemma {:induction false} PrefixFirst(a: string, c: string)
    requires c != []
    requires a == [] || !IsDigit(a[|a| - 1]) || !IsDigit(c[0])
    ensures NaturalCompare(a, a + c) == Less
    decreases |a|
  {
    var b := a + c;
    if a != [] {
      assert b[0] == a[0];
      if IsDigit(a[0]) {
        var ra := DigitRun(a);
        DigitRunFacts(a);
        var rest := a[|ra|..];
        assert a == ra + rest;
        if rest == [] {
          assert a[|a| - 1] == ra[|ra| - 1];
        } else {
          assert rest[|rest| - 1] == a[|a| - 1];
        }
        PrefixRunSkipped(ra, rest, c);
        PrefixFirst(rest, c);
      } else {
        assert b[1..] == a[1..] + c;
        PrefixFirst(a[1..], c);
      }
    }
  }

  /** A complete digit run in front of a name and of its extension is passed
      over as equal. */
  lemma PrefixRunSkipped(x: string, rest: string, c: string)
    requires x != [] && AllDigits(x) && (rest == [] || !IsDigit(rest[0]))
    requires c != [] && (rest != [] || !IsDigit(c[0]))
    ensures NaturalCompare(x + rest, x + rest + c) == NaturalCompare(rest, rest + c)
  {
    assert x + rest + c == x + (rest + c);
    assert (rest + c)[0] == if rest == [] then c[0] else rest[0];
    RunsFirst(x, rest, x, rest + c);
    RunOrderEqual(x, x);
  }

  /** Equal leading text that ends outside a digit run does not affect the order. */
  lemma {:induction false} CommonTextSkipped(p: string, s: string, t: string)
    requires p == [] || !IsDigit(p[|p| - 1])
    ensures NaturalCompare(p + s, p + t) == NaturalCompare(s, t)
    decreases |p|
  {
    if p == [] {
      assert p + s == s && p + t == t;
    } else {
      var a, b := p + s, p + t;
      assert a[0] == p[0] && b[0] == p[0];
      if IsDigit(p[0]) {
        var r := DigitRun(p);
        DigitRunFacts(p);
        var rest := p[|r|..];
        assert |r| < |p| by {
          assert forall m | 0 <= m < |r| :: p[m] == r[m] && IsDigit(p[m]);
        }
        assert a == r + (rest + s) && b == r + (rest + t);
        assert (rest + s)[0] == rest[0] && (rest + t)[0] == rest[0];
        RunThenText(r, rest + s);
        RunThenText(r, rest + t);
        RunOrderEqual(r, r);
        CommonTextSkipped(rest, s, t);
      } else {
        assert a[1..] == p[1..] + s && b[1..] == p[1..] + t;
        CommonTextSkipped(p[1..], s, t);
      }
    }
  }

  /** The run of digits at the front of `x + s` is `x` when `s` does not
      continue it. */
  lemma {:induction false} RunThenText(x: string, s: string)
    requires AllDigits(x) && (s == [] || !IsDigit(s[0]))
    ensures DigitRun(x + s) == x && (x + s)[|x|..] == s
  {
    assert (x + s)[..|x|] == x && (x + s)[|x|..] == s;
    RunPrefix(x + s, |x|);
  }

  /** Two names that start with complete digit runs compare by those runs
      first and by what follows them only when the runs are identical. */
  lemma {:induction false} RunsFirst(x: string, s: string, y: string, t: string)
    requires x != [] && y != [] && AllDigits(x) && AllDigits(y)
    requires (s == [] || !IsDigit(s[0])) && (t == [] || !IsDigit(t[0]))
    ensures NaturalCompare(x + s, y + t)
      == if RunOrder(x, y) == Equal then NaturalCompare(s, t) else RunOrder(x, y)
  {
    RunThenText(x, s);
    RunThenText(y, t);
    assert (x + s)[0] == x[0] && (y + t)[0] == y[0];
  }

  /** Aligned digit runs: more significant digits sort greater ("read2" <
      "read10"), whatever follows the runs. */
  lemma {:induction false} LongerRunGreater(p: string, x: string, s: string, y: string, t: string)
    requires p == [] || !IsDigit(p[|p| - 1])
    requires x != [] && y != [] && AllDigits(x) && AllDigits(y)
    requires (s == [] || !IsDigit(s[0])) && (t == [] || !IsDigit(t[0]))
    requires |StripZeros(x)| > |StripZeros(y)|
    ensures NaturalCompare(p + x + s, p + y + t) == Greater
  {
    assert p + x + s == p + (x + s) && p + y + t == p + (y + t);
    CommonTextSkipped(p, x + s, y + t);
    RunsFirst(x, s, y, t);
  }

  /** Aligned digit runs with the same number of significant digits: the larger
      number sorts greater, unless the digits to parse overflow 64 bits. */
  lemma {:induction false} LargerNumberGreater(p: string, x: string, s: string, y: string, t: string)
    requires p == [] || !IsDigit(p[|p| - 1])
    requires x != [] && y != [] && AllDigits(x) && AllDigits(y)
    requires (s == [] || !IsDigit(s[0])) && (t == [] || !IsDigit(t[0]))
    requires |StripZeros(x)| == |StripZeros(y)| && Value(x) > Value(y)
    requires Value(x) <= MaxInt64
    ensures NaturalCompare(p + x + s, p + y + t) == Greater
  {
    assert p + x + s == p + (x + s) && p + y + t == p + (y + t);
    CommonTextSkipped(p, x + s, y + t);
    RunsFirst(x, s, y, t);
    LargerRunGreater(x, y);
  }

  lemma {:induction false} LargerRunGreater(x: string, y: string)
    requires AllDigits(x) && AllDigits(y)
    requires |StripZeros(x)| == |StripZeros(y)| && Value(x) > Value(y)
    requires Value(x) <= MaxInt64
    ensures RunOrder(x, y) == Greater
  {
    var nx, ny := StripZeros(x), StripZeros(y);
    StripZerosFacts(x);
    StripZerosFacts(y);
    StripZerosSplit(x);
    StripZerosSplit(y);
    ZerosAddNothing(x[..|x| - |nx|], nx);
    ZerosAddNothing(y[..|y| - |ny|], ny);
    FirstDifferenceDecides(nx, ny);
    var q := CommonPrefix(nx, ny);
    ValueSuffix(nx, q);
    ValueSuffix(ny, q);
  }

  /** Dropping leading digits never increases the value. */
  lemma {:induction false} ValueSuffix(u: string, q: nat)
    requires q <= |u|
    ensures Value(u[q..]) <= Value(u)
  {
    assert u == u[..q] + u[q..];
    ValueConcat(u[..q], u[q..]);
  }

  /** Aligned digit runs spelling the same number: the one with more leading
      zeros sorts first ("x007" < "x7", "x00" < "x0"). */
  lemma {:induction false} MoreZerosFirst(p: string, x: string, s: string, y: string, t: string)
    requires p == [] || !IsDigit(p[|p| - 1])
    requires x != [] && y != [] && AllDigits(x) && AllDigits(y)
    requires (s == [] || !IsDigit(s[0])) && (t == [] || !IsDigit(t[0]))
    requires StripZeros(x) == StripZeros(y) && |x| > |y|
    ensures NaturalCompare(p + x + s, p + y + t) == Less
  {
    assert p + x + s == p + (x + s) && p + y + t == p + (y + t);
    CommonTextSkipped(p, x + s, y + t);
    RunsFirst(x, s, y, t);
  }

  lemma {:induction false} ZerosAddNothing(z: string, n: string)
    requires AllZeros(z) && AllDigits(n)
    ensures AllDigits(z + n) && Value(z + n) == Value(n)
    decreases |z|
  {
    if z == [] {
      assert z + n == n;
    } else {
      assert AllDigits(z) by {
        forall m | 0 <= m < |z| ensures IsDigit(z[m]) { assert z[m] == '0'; }
      }
      ValueConcat(z, n);
      ZerosValue(z);
    }
  }

  lemma {:induction false} ZerosValue(z: string)
    requires AllZeros(z)
    ensures AllDigits(z) && Value(z) == 0
  {
    assert AllDigits(z) by {
      forall m | 0 <= m < |z| ensures IsDigit(z[m]) { assert z[m] == '0'; }
    }
    if z != [] {
      ZerosValue(z[..|z| - 1]);
    }
  }

  /** Different characters outside aligned digit runs abort: at least one of
      them is not a digit, and `digitToInt` of a non-digit calls `log.Fatal`. */
  lemma {:induction false} MismatchAborts(p: string, c: char, s: string, d: char, t: string)
    requires p == [] || !IsDigit(p[|p| - 1])
    requires c != d && !(IsDigit(c) && IsDigit(d))
    ensures NaturalCompare(p + [c] + s, p + [d] + t) == Abort
    ensures DigitToInt([c]) == None || DigitToInt([d]) == None
  {
    assert p + [c] + s == p + ([c] + s) && p + [d] + t == p + ([d] + t);
    CommonTextSkipped(p, [c] + s, [d] + t);
    AtoiOneChar(c);
    AtoiOneChar(d);
  }

  // ---------------------------------------------------------------------------
  // The Go loop nest

  /** The significant digits of the run at `a[i0..]`, given where the loops
      over its leading zeros (`i1`) and over the digits it shares with the other
      name (`i`) stopped. */
  lemma {:induction false} RunAt(a: string, i0: nat, i1: nat, i: nat)
    requires i0 <= i1 <= i <= |a|
    requires forall m | i0 <= m < i1 :: a[m] == '0'
    requires i1 == |a| || a[i1] != '0'
    requires forall m | i1 <= m < i :: IsDigit(a[m])
    ensures DigitRun(a[i0..]) == a[i0..i1] + (a[i1..i] + DigitRun(a[i..]))
    ensures StripZeros(DigitRun(a[i0..])) == a[i1..i] + DigitRun(a[i..])
  {
    RunSplitsAt(a, i0, i1, i);
    var z, n := a[i0..i1], a[i1..i] + DigitRun(a[i..]);
    assert AllZeros(z) by {
      forall m | 0 <= m < |z| ensures z[m] == '0' { assert z[m] == a[i0 + m]; }
    }
    if i1 < i {
      assert n[0] == a[i1];
    } else {
      assert n == DigitRun(a[i..]);
      DigitRunFacts(a[i..]);
      if n != [] { assert n[0] == a[i]; }
    }
    StripZerosPrefix(z, n);
  }

  lemma {:induction false} RunSplitsAt(a: string, i0: nat, i1: nat, i: nat)
    requires i0 <= i1 <= i <= |a|
    requires forall m | i0 <= m < i1 :: a[m] == '0'
    requires forall m | i1 <= m < i :: IsDigit(a[m])
    ensures DigitRun(a[i0..]) == a[i0..i1] + (a[i1..i] + DigitRun(a[i..]))
  {
    var s := a[i0..];
    var t := s[..i - i0];
    assert AllDigits(t) by {
      forall m | 0 <= m < i - i0 ensures IsDigit(t[m]) {
        assert t[m] == a[i0 + m];
      }
    }
    RunPrefix(s, i - i0);
    assert s[..i - i0] == a[i0..i1] + a[i1..i];
    assert s[i - i0..] == a[i..];
  }

  /** The digit run at `a[i..]` is `a[i..i+k]` when the next character is not a digit. */
  lemma {:induction false} RunEndsAt(a: string, i: nat, k: nat)
    requires i + k <= |a|
    requires forall m | i <= m < i + k :: IsDigit(a[m])
    requires i + k == |a| || !IsDigit(a[i + k])
    ensures DigitRun(a[i..]) == a[i..i + k]
  {
    var s := a[i..];
    var t := s[..k];
    assert AllDigits(t) by {
      forall m | 0 <= m < k ensures IsDigit(t[m]) { assert t[m] == a[i + m]; }
    }
    RunPrefix(s, k);
    assert s[k..] == a[i + k..];
    assert s[..k] == a[i..i + k];
  }

  /** The digit run at `a[i..]` is longer than `k` when `a[i+k]` is a digit. */
  lemma {:induction false} RunLongerThan(a: string, i: nat, k: nat)
    requires i + k < |a|
    requires forall m | i <= m <= i + k :: IsDigit(a[m])
    ensures |DigitRun(a[i..])| > k
  {
    var s := a[i..];
    var t := s[..k + 1];
    assert AllDigits(t) by {
      forall m | 0 <= m < k + 1 ensures IsDigit(t[m]) { assert t[m] == a[i + m]; }
    }
    RunPrefix(s, k + 1);
  }

  /** How two aligned digit runs compare when their significant digits are a
      common part `u` followed by the differing tails `x` and `y`. */
  lemma {:induction false} RunOrderTails(ra: string, rb: string, u: string, x: string, y: string)
    requires AllDigits(ra) && AllDigits(rb) && AllDigits(u) && AllDigits(x) && AllDigits(y)
    requires StripZeros(ra) == u + x && StripZeros(rb) == u + y
    requires x != [] && y != [] ==> x[0] != y[0]
    ensures |x| != |y| ==> RunOrder(ra, rb) == LengthOrder(|x|, |y|)
    ensures |x| == |y| && x != [] ==>
              RunOrder(ra, rb) == if Value(x) > MaxInt64 || Value(y) > MaxInt64 then Abort
                                  else SignOf(Value(x) - Value(y))
    ensures x == [] && y == [] ==> RunOrder(ra, rb) == LengthOrder(|rb|, |ra|)
    ensures x != [] || y != [] ==> RunOrder(ra, rb) != Equal
  {
    var na, nb := u + x, u + y;
    if |x| == |y| && x != [] {
      assert na[|u|] == x[0] && nb[|u|] == y[0];
      assert na[..|u|] == u && nb[..|u|] == u;
      CommonPrefixIs(na, nb, |u|);
      assert na[|u|..] == x && nb[|u|..] == y;
      assert na != nb;
      FirstDifferenceDecides(na, nb);
    }
  }

  /** Where the loops over leading zeros and over matching digits leave the
      two runs that start at `i0`: their tails `x` and `y` decide the order. */
  lemma {:induction false} RunsAfterMatch(a: string, b: string, i0: nat, i1: nat, j1: nat, i: nat, j: nat)
    requires i0 <= i1 <= i <= |a| && i0 <= j1 <= j <= |b| && i - i1 == j - j1
    requires forall m | i0 <= m < i1 :: a[m] == '0'
    requires forall m | i0 <= m < j1 :: b[m] == '0'
    requires (i1 == |a| || a[i1] != '0') && (j1 == |b| || b[j1] != '0')
    requires forall m | i1 <= m < i :: IsDigit(a[m])
    requires forall m | j1 <= m < j :: IsDigit(b[m])
    requires a[i1..i] == b[j1..j]
    requires !(i < |a| && j < |b| && IsDigit(a[i]) && IsDigit(b[j]) && a[i] == b[j])
    ensures var ra, rb := DigitRun(a[i0..]), DigitRun(b[i0..]);
      var x, y := DigitRun(a[i..]), DigitRun(b[j..]);
      && (x == [] <==> !(i < |a| && IsDigit(a[i])))
      && (y == [] <==> !(j < |b| && IsDigit(b[j])))
      && (|x| != |y| ==> RunOrder(ra, rb) == LengthOrder(|x|, |y|))
      && (|x| == |y| && x != [] ==>
            RunOrder(ra, rb) == if Value(x) > MaxInt64 || Value(y) > MaxInt64 then Abort
                                else SignOf(Value(x) - Value(y)))
      && (x == [] && y == [] ==>
            |ra| == i - i0 && |rb| == j - i0 && RunOrder(ra, rb) == LengthOrder(|rb|, |ra|))
      && (x != [] || y != [] ==> RunOrder(ra, rb) != Equal)
  {
    RunTail(a, i0, i1, i);
    RunTail(b, i0, j1, j);
    RunOrderTails(DigitRun(a[i0..]), DigitRun(b[i0..]), a[i1..i], DigitRun(a[i..]), DigitRun(b[j..]));
  }

  /** The run at `a[i0..]` as the loops of `strnum_cmp` split it: leading
      zeros up to `i1`, the digits `u` up to `i`, and the rest `x` of the run. */
  lemma {:induction false} RunTail(a: string, i0: nat, i1: nat, i: nat)
    requires i0 <= i1 <= i <= |a|
    requires forall m | i0 <= m < i1 :: a[m] == '0'
    requires i1 == |a| || a[i1] != '0'
    requires forall m | i1 <= m < i :: IsDigit(a[m])
    ensures var ra, u, x := DigitRun(a[i0..]), a[i1..i], DigitRun(a[i..]);
      && AllDigits(ra) && AllDigits(u) && AllDigits(x)
      && StripZeros(ra) == u + x && |ra| == i - i0 + |x|
      && (x == [] <==> !(i < |a| && IsDigit(a[i])))
      && (x != [] ==> x[0] == a[i])
  {
    RunAt(a, i0, i1, i);
    DigitRunFacts(a[i0..]);
    DigitRunFacts(a[i..]);
    var u := a[i1..i];
    assert AllDigits(u) by {
      assert forall m | 0 <= m < |u| :: u[m] == a[i1 + m];
    }
    RunHead(a, i);
  }

  /** The run at `a[i..]` is empty exactly when `a[i]` is not a digit, and
      otherwise starts with `a[i]`. */
  lemma {:induction false} RunHead(a: string, i: nat)
    requires i <= |a|
    ensures DigitRun(a[i..]) == [] <==> !(i < |a| && IsDigit(a[i]))
    ensures DigitRun(a[i..]) != [] ==> DigitRun(a[i..])[0] == a[i]
  {
    if i < |a| {
      assert a[i..][0] == a[i];
    }
  }

  /** Lines 39-50 of `strnum_cmp`: both names continue with digits that differ
      at `a[i]` and `b[j]`; the longer run wins, and runs of equal length are
      parsed and subtracted. */
  method CompareTails(a: string, b: string, i: nat, j: nat) returns (r: Order)
    requires i < |a| && j < |b| && IsDigit(a[i]) && IsDigit(b[j])
    ensures var x, y := DigitRun(a[i..]), DigitRun(b[j..]);
      && (|x| != |y| ==> r == LengthOrder(|x|, |y|))
      && (|x| == |y| ==> r == if Value(x) > MaxInt64 || Value(y) > MaxInt64 then Abort
                              else SignOf(Value(x) - Value(y)))
  {
    var k := 0;
    while i + k < |a| && IsDigit(a[i + k]) && j + k < |b| && IsDigit(b[j + k])
      invariant i + k <= |a| && j + k <= |b|
      invariant forall m | i <= m < i + k :: IsDigit(a[m])
      invariant forall m | j <= m < j + k :: IsDigit(b[m])
    {
      k := k + 1;
    }
    if i + k < |a| && IsDigit(a[i + k]) {
      RunEndsAt(b, j, k);
      RunLongerThan(a, i, k);
      return Greater;
    } else if j + k < |b| && IsDigit(b[j + k]) {
      RunEndsAt(a, i, k);
      RunLongerThan(b, j, k);
      return Less;
    } else {
      RunEndsAt(a, i, k);
      RunEndsAt(b, j, k);
      var sa, sb := a[i..i + k], b[j..j + k];
      assert AllDigits(sa) && AllDigits(sb) by {
        assert forall m | 0 <= m < k :: sa[m] == a[i + m];
        assert forall m | 0 <= m < k :: sb[m] == b[j + m];
      }
      r := SubtractRuns(sa, sb);
    }
  }

  /** Line 49 of `strnum_cmp`: two runs of digits parsed with `digitToInt`
      and subtracted; a run too large for 64 bits aborts. */
  method SubtractRuns(x: string, y: string) returns (r: Order)
    requires x != [] && y != [] && AllDigits(x) && AllDigits(y)
    ensures r == if Value(x) > MaxInt64 || Value(y) > MaxInt64 then Abort else SignOf(Value(x) - Value(y))
  {
    AtoiDigits(x);
    AtoiDigits(y);
    var m := DigitToInt(x);
    var n := DigitToInt(y);
    if m.None? || n.None? {
      return Abort;
    }
    return SignOf(m.value - n.value);
  }

  /** Lines 25-60 of `strnum_cmp`: the aligned digit runs that start at `i0`
      in both names.  A result other than `Equal` is what `strnum_cmp` returns;
      on `Equal` the runs are identical and the scan resumes after them. */
  method CompareRunsAt(a: string, b: string, i0: nat) returns (r: Order, i: nat, j: nat)
    requires i0 < |a| && i0 < |b| && IsDigit(a[i0]) && IsDigit(b[i0])
    ensures r == RunOrder(DigitRun(a[i0..]), DigitRun(b[i0..]))
    ensures r == Equal ==> i == j == i0 + |DigitRun(a[i0..])| == i0 + |DigitRun(b[i0..])|
  {
    i, j := i0, i0;
    while i < |a| && a[i] == '0'
      invariant i0 <= i <= |a|
      invariant forall m | i0 <= m < i :: a[m] == '0'
    {
      i := i + 1;
    }
    while j < |b| && b[j] == '0'
      invariant i0 <= j <= |b|
      invariant forall m | i0 <= m < j :: b[m] == '0'
    {
      j := j + 1;
    }
    ghost var i1, j1 := i, j;
    while i < |a| && j < |b| && IsDigit(a[i]) && IsDigit(b[j]) && a[i] == b[j]
      invariant i1 <= i <= |a| && j1 <= j <= |b| && i - i1 == j - j1
      invariant forall m | i1 <= m < i :: IsDigit(a[m])
      invariant forall m | j1 <= m < j :: IsDigit(b[m])
      invariant a[i1..i] == b[j1..j]
    {
      assert a[i1..i + 1] == a[i1..i] + [a[i]] && b[j1..j + 1] == b[j1..j] + [b[j]];
      i, j := i + 1, j + 1;
    }
    r := DecideRuns(a, b, i0, i1, j1, i, j);
  }

  /** Lines 39-60 of `strnum_cmp`, where the loops over leading zeros and
      over matching digits stopped: a longer remaining run wins, runs of equal
      length are compared by value, and on two exhausted runs the one with
      fewer leading zeros wins. */
  method DecideRuns(a: string, b: string, ghost i0: nat, ghost i1: nat, ghost j1: nat, i: nat, j: nat) returns (r: Order)
    requires i0 <= i1 <= i <= |a| && i0 <= j1 <= j <= |b| && i - i1 == j - j1
    requires forall m | i0 <= m < i1 :: a[m] == '0'
    requires forall m | i0 <= m < j1 :: b[m] == '0'
    requires (i1 == |a| || a[i1] != '0') && (j1 == |b| || b[j1] != '0')
    requires forall m | i1 <= m < i :: IsDigit(a[m])
    requires forall m | j1 <= m < j :: IsDigit(b[m])
    requires a[i1..i] == b[j1..j]
    requires !(i < |a| && j < |b| && IsDigit(a[i]) && IsDigit(b[j]) && a[i] == b[j])
    ensures r == RunOrder(DigitRun(a[i0..]), DigitRun(b[i0..]))
    ensures r == Equal ==> i == j == i0 + |DigitRun(a[i0..])| == i0 + |DigitRun(b[i0..])|
  {
    RunsAfterMatch(a, b, i0, i1, j1, i, j);
    if i < |a| && j < |b| && IsDigit(a[i]) && IsDigit(b[j]) {
      r := CompareTails(a, b, i, j);
    } else if i < |a| && IsDigit(a[i]) {
      r := Greater;
    } else if j < |b| && IsDigit(b[j]) {
      r := Less;
    } else if i != j {
      if i < j {
        r := Greater;
      } else {
        r := Less;
      }
    } else {
      r := Equal;
    }
  }

  /** Where the names differ at a character that is not a digit on both
      sides, the comparison aborts: `digitToInt` fails on the non-digit. */
  lemma AbortsAt(a: string, b: string, i: nat)
    requires i < |a| && i < |b| && !(IsDigit(a[i]) && IsDigit(b[i])) && a[i] != b[i]
    ensures NaturalCompare(a[i..], b[i..]) == Abort
    ensures DigitToInt([a[i]]) == None || DigitToInt([b[i]]) == None
  {
    assert a[i..][0] == a[i] && b[i..][0] == b[i];
    AtoiOneChar(a[i]);
    AtoiOneChar(b[i]);
  }

  /** An equal character that is not a digit on both sides is passed over. */
  lemma SameCharSkips(a: string, b: string, i: nat)
    requires i < |a| && i < |b| && !(IsDigit(a[i]) && IsDigit(b[i])) && a[i] == b[i]
    ensures NaturalCompare(a[i + 1..], b[i + 1..]) == NaturalCompare(a[i..], b[i..])
  {
    assert a[i..][0] == a[i] && b[i..][0] == b[i];
    assert a[i..][1..] == a[i + 1..] && b[i..][1..] == b[i + 1..];
  }

  /** `strnum_cmp` (compare.go:18-75), with its result reduced to a sign. */
  method StrnumCmp(a: string, b: string) returns (r: Order)
    ensures r == NaturalCompare(a, b)
  {
    var i, j := 0, 0;
    while i < |a| && j < |b|
      invariant 0 <= i <= |a| && i <= |b| && j == i
      invariant NaturalCompare(a[i..], b[j..]) == NaturalCompare(a, b)
      decreases |a| - i
    {
      if IsDigit(a[i]) && IsDigit(b[j]) {
        var i0 := i;
        assert a[i0..][0] == a[i0] && b[i0..][0] == b[i0];
        r, i, j := CompareRunsAt(a, b, i0);
        if r != Equal {
          return r;
        }
        assert a[i0..][i - i0..] == a[i..] && b[i0..][j - i0..] == b[j..];
      } else {
        if a[i] != b[j] {
          var x, y := DigitToInt([a[i]]), DigitToInt([b[j]]);
          AbortsAt(a, b, i);
          assert x.None? || y.None?;
          return Abort;
        }
        SameCharSkips(a, b, i);
        i, j := i + 1, j + 1;
      }
    }
    return LengthOrder(|a|, |b|);
  }
}
