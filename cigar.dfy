/** CIGAR strings as `BamRecord.Load` reads them (bam.go:43, 80-90): the
    matches of the regular expression `[0-9][0-9]*[A-Z]`, found left to right
    without overlap, and the running sum of the counts of the `M` operations. */
module Cigar {
  import opened Text
  import opened Types
  import opened Compare

  /** One match of `[0-9][0-9]*[A-Z]`: a count followed by an operation letter. */
  predicate IsCode(m: string)
  {
    |m| >= 2 && AllDigits(m[..|m| - 1]) && IsUpper(m[|m| - 1])
  }

  /** `cigarPattern.FindAllStringSubmatch(cigar, -1)`, whole matches only.  A
      match starts at the leftmost position where a run of digits is followed by
      an upper-case letter; the search resumes after it. */
  function Matches(s: string): seq<string>
    decreases |s|
  {
    if s == [] then []
    else
      var r := DigitRun(s);
      if r != [] && |r| < |s| && IsUpper(s[|r|]) then [s[..|r| + 1]] + Matches(s[|r| + 1..])
      else Matches(s[1..])
  }

  /** Every match is a well-formed code, and the matches appear in the string
      in order. */
  lemma {:induction false} MatchesAreCodes(s: string)
    ensures forall k | 0 <= k < |Matches(s)| :: IsCode(Matches(s)[k])
    decreases |s|
  {
    if s != [] {
      var r := DigitRun(s);
      DigitRunFacts(s);
      if r != [] && |r| < |s| && IsUpper(s[|r|]) {
        MatchesAreCodes(s[|r| + 1..]);
        var m := s[..|r| + 1];
        assert m[..|m| - 1] == r && m[|m| - 1] == s[|r|];
      } else {
        MatchesAreCodes(s[1..]);
      }
    }
  }

  /** A CIGAR operation as it is written: a count and an operation letter. */
  datatype Op = Op(count: nat, kind: char)

  /** The text of one operation, `<count><kind>`. */
  function Code(op: Op): string
  {
    Decimal(op.count) + [op.kind]
  }

  /** A CIGAR string spelled from its operations. */
  function Encode(ops: seq<Op>): string
  {
    if ops == [] then [] else Code(ops[0]) + Encode(ops[1..])
  }

  /** Scanning a spelled CIGAR string finds exactly its operations' codes. */
  lemma {:induction false} MatchesEncode(ops: seq<Op>)
    requires forall k | 0 <= k < |ops| :: IsUpper(ops[k].kind)
    ensures |Matches(Encode(ops))| == |ops|
    ensures forall k | 0 <= k < |ops| :: Matches(Encode(ops))[k] == Code(ops[k])
  {
    if ops != [] {
      var d, rest := Decimal(ops[0].count), Encode(ops[1..]);
      var s := Encode(ops);
      assert s == d + ([ops[0].kind] + rest);
      RunThenText(d, [ops[0].kind] + rest);
      assert s[|d|] == ops[0].kind;
      assert s[..|d| + 1] == Code(ops[0]);
      assert s[|d| + 1..] == rest;
      assert d[0] == s[0];
      assert Matches(s) == [Code(ops[0])] + Matches(rest);
      MatchesEncode(ops[1..]);
      forall k | 0 <= k < |ops| ensures Matches(s)[k] == Code(ops[k]) {
        if k > 0 {
          assert ops[1..][k - 1] == ops[k];
        }
      }
    }
  }

  /** The running total of `M` counts and the error that stopped it, if any. */
  datatype Tally = Tally(total: int, err: Option<Error>)

  /** The loop at bam.go:81-90 over `codes`, starting from `total`: every code
      ending in `M` adds its count; a count `strconv.Atoi` rejects stops the
      loop with `BadCigarFragment`. */
  function Accumulate(total: int, codes: seq<string>): Tally
  {
    if codes == [] then Tally(total, None)
    else AddCode(Accumulate(total, codes[..|codes| - 1]), codes[|codes| - 1])
  }

  /** One turn of that loop: `code` applied to the tally `t` so far. */
  function AddCode(t: Tally, code: string): Tally
  {
    if t.err.Some? || code == [] || code[|code| - 1] != 'M' then t
    else
      var n := Atoi(code[..|code| - 1]);
      if n.ok then Tally(t.total + n.value, None)
      else Tally(t.total, Some(BadCigarFragment(code)))
  }

  /** The tally over one more code is that code applied to the tally so far. */
  lemma AccumulateNext(total: int, codes: seq<string>, k: nat)
    requires k < |codes|
    ensures Accumulate(total, codes[..k + 1]) == AddCode(Accumulate(total, codes[..k]), codes[k])
  {
    assert codes[..k + 1][..k] == codes[..k];
  }

  /** Sum of the counts of the `M` operations. */
  function MatchCount(ops: seq<Op>): nat
  {
    if ops == [] then 0
    else MatchCount(ops[..|ops| - 1]) + (if ops[|ops| - 1].kind == 'M' then ops[|ops| - 1].count else 0)
  }

  /** On a spelled CIGAR string whose counts fit in 64 bits, the scan adds the
      `M` counts, and only those, to the running total. */
  lemma {:induction false} AccumulateEncode(total: int, ops: seq<Op>)
    requires forall k | 0 <= k < |ops| :: IsUpper(ops[k].kind) && ops[k].count <= MaxInt64
    ensures Accumulate(total, Matches(Encode(ops))) == Tally(total + MatchCount(ops), None)
  {
    MatchesEncode(ops);
    var codes := Matches(Encode(ops));
    assert codes == CodesOf(ops) by {
      assert forall k | 0 <= k < |ops| :: CodesOf(ops)[k] == Code(ops[k]) by {
        CodesOfIndex(ops);
      }
    }
    AccumulateCodes(total, ops);
  }

  function CodesOf(ops: seq<Op>): (codes: seq<string>)
    ensures |codes| == |ops|
  {
    if ops == [] then [] else CodesOf(ops[..|ops| - 1]) + [Code(ops[|ops| - 1])]
  }

  lemma {:induction false} CodesOfIndex(ops: seq<Op>)
    ensures forall k | 0 <= k < |ops| :: CodesOf(ops)[k] == Code(ops[k])
  {
    if ops != [] {
      CodesOfIndex(ops[..|ops| - 1]);
    }
  }

  lemma {:induction false} AccumulateCodes(total: int, ops: seq<Op>)
    requires forall k | 0 <= k < |ops| :: ops[k].count <= MaxInt64
    ensures Accumulate(total, CodesOf(ops)) == Tally(total + MatchCount(ops), None)
  {
    if ops != [] {
      var init, op := ops[..|ops| - 1], ops[|ops| - 1];
      var codes := CodesOf(ops);
      assert codes[..|codes| - 1] == CodesOf(init);
      AccumulateCodes(total, init);
      var code := Code(op);
      assert code[..|code| - 1] == Decimal(op.count);
      ValueOfDecimal(op.count);
      AtoiDigits(Decimal(op.count));
    }
  }
}
