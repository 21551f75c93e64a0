/** The name-sorted alignment stream (bam.go): `BamScanner`, a cursor over the
    text lines `samtools view` prints that buffers one record, checks that read
    names never decrease in the natural order, and skips ahead to a given name;
    and `BamRecord.Load`, which parses the fixed SAM columns, the integer tags
    and the CIGAR string of one record.  The line source is a sequence of lines. */
module Bam {
  import opened Text
  import opened Types
  import opened Compare
  import opened Cigar

  const Tab: char := '\t'

  // ---------------------------------------------------------------------------
  // Reading one line (bam.go:162-178)

  /** The outcome of turning one line into the buffered record: the new
      `record` buffer, the new `prev` and what `Record` returns. */
  datatype Pull = Pull(record: Option<seq<string>>, prev: string, result: Result<Option<seq<string>>>)

  /** What `Record` does with a freshly scanned `line`: trim it, refuse a blank
      one, split it on tabs into the buffer, and accept its name unless it sorts
      below `prev`, the last accepted name ("" before the first).  `lineNumber`
      is the already incremented line count. */
  function Accept(prev: string, line: string, lineNumber: int): Pull
  {
    var t := TrimSpace(line);
    if t == [] then Pull(None, prev, Err(EmptyRecord))
    else
      var rec := Split(t, Tab);
      var name := rec[0];
      if prev != [] && NaturalCompare(prev, name) == Abort then Pull(Some(rec), prev, Err(Aborted))
      else if prev != [] && NaturalCompare(prev, name) == Greater then
        Pull(Some(rec), prev, Err(SortOrderViolated(lineNumber)))
      else Pull(Some(rec), name, Ok(Some(rec)))
  }

  /** A line is accepted exactly when it is not blank and its name does not sort
      below the previous one (equal names are allowed).  The accepted record
      is the trimmed line cut at its tabs, its name is non-empty and becomes
      `prev`. */
  lemma {:induction false} AcceptOk(prev: string, line: string, lineNumber: int)
    ensures var p := Accept(prev, line, lineNumber);
      var t := TrimSpace(line);
      && (p.result.Ok? <==> t != [] && (prev == [] || InOrder(prev, Split(t, Tab)[0])))
      && (p.result.Ok? ==>
            && p.result.value.Some? && p.record == p.result.value
            && p.result.value.value == Split(t, Tab)
            && Join(p.result.value.value, Tab) == t
            && p.prev == p.result.value.value[0] && p.prev != [])
  {
    var t := TrimSpace(line);
    if t != [] {
      assert t[0] != Tab;
      SplitFirstNonEmpty(t, Tab);
      JoinSplit(t, Tab);
    }
  }

  /** Whatever happens, a buffered record has a non-empty name. */
  lemma {:induction false} AcceptBuffersNamedRecord(prev: string, line: string, lineNumber: int)
    ensures var p := Accept(prev, line, lineNumber);
      p.record.Some? ==> |p.record.value| >= 1 && p.record.value[0] != []
  {
    var t := TrimSpace(line);
    if t != [] {
      assert t[0] != Tab;
      SplitFirstNonEmpty(t, Tab);
    }
  }

  /** A line made only of white space is the "empty BAM record" error, and
      nothing is buffered. */
  lemma {:induction false} AcceptBlank(prev: string, line: string, lineNumber: int)
    ensures var p := Accept(prev, line, lineNumber);
      (p.result == Err(EmptyRecord) <==> forall k | 0 <= k < |line| :: IsSpace(line[k]))
      && (p.result == Err(EmptyRecord) ==> p.record.None? && p.prev == prev)
  {
    TrimSpaceEmpty(line);
  }

  /** A name that sorts below `prev` is refused with the line number, stays in
      the buffer, and leaves `prev` as it was. */
  lemma {:induction false} AcceptRejectsOutOfOrder(prev: string, line: string, lineNumber: int)
    ensures var p := Accept(prev, line, lineNumber);
      p.result.Err? && p.result.error.SortOrderViolated? ==>
        && p.result.error.line == lineNumber && p.prev == prev && p.record.Some?
        && prev != [] && NaturalCompare(prev, p.record.value[0]) == Greater
  {
  }

  /** The buffer as a list: the record it holds, if any. */
  function Buffer(record: Option<seq<string>>): (b: seq<seq<string>>)
    ensures b == if record.Some? then [record.value] else []
  {
    if record.Some? then [record.value] else []
  }

  /** The records released so far, then the buffered one, are exactly those
      the first `pos` lines yield, and `prev` is the last name they accepted. */
  ghost predicate Faithful(lines: seq<string>, pos: nat, released: seq<seq<string>>, record: Option<seq<string>>, prev: string)
    requires pos <= |lines|
  {
    Pulled(lines, pos).records == released + Buffer(record) && Pulled(lines, pos).prev == prev
  }

  /** What reading lines leaves behind: the records put in the buffer, in
      order, and the last name accepted. */
  datatype Scan = Scan(records: seq<seq<string>>, prev: string)

  /** Reading the first `n` of `lines` in turn: `Accept` folded over the
      lines, numbered from 1, starting with no previous name. */
  ghost function Pulled(lines: seq<string>, n: nat): Scan
    requires n <= |lines|
    decreases n, 2
  {
    if n == 0 then Scan([], []) else ReadLine(lines, n)
  }

  /** Reading line number `n` after the lines before it. */
  ghost function ReadLine(lines: seq<string>, n: nat): Scan
    requires 0 < n <= |lines|
    decreases n, 1
  {
    var p := Accepted(lines, n);
    Scan(Pulled(lines, n - 1).records + Buffer(p.record), p.prev)
  }

  /** What `Accept` makes of line number `n` after the lines before it. */
  ghost function Accepted(lines: seq<string>, n: nat): Pull
    requires 0 < n <= |lines|
    decreases n, 0
  {
    Accept(Pulled(lines, n - 1).prev, lines[n - 1], n)
  }

  /** Reading one more line extends the fold by what `Accept` made of it. */
  lemma {:induction false} PulledNext(lines: seq<string>, n: nat, records: seq<seq<string>>, prev: string, p: Pull)
    requires n < |lines| && Pulled(lines, n) == Scan(records, prev) && p == Accept(prev, lines[n], n + 1)
    ensures Pulled(lines, n + 1).records == records + Buffer(p.record)
    ensures Pulled(lines, n + 1).prev == p.prev
    ensures Accepted(lines, n + 1) == p
  {
    assert Accepted(lines, n + 1) == p;
    assert Pulled(lines, n + 1) == ReadLine(lines, n + 1);
  }

  // ---------------------------------------------------------------------------
  // BamScanner (bam.go:15-24, 120-183)

  class BamScanner {
    /** The lines the source yields, in order. */
    const lines: seq<string>
    /** How many lines have been scanned so far. */
    var pos: nat
    var LineNumber: int
    var prev: string
    var record: Option<seq<string>>
    var Closed: bool
    /** The records `Ratchet` has released so far, in order. */
    ghost var released: seq<seq<string>>

    /** Besides the bookkeeping, no record is ever lost or repeated: the
        records the scanned lines yield are those released, in order, and
        then the buffered one. */
    ghost predicate Valid()
      reads this
    {
      && pos <= |lines|
      && LineNumber == pos
      && (Closed ==> pos == |lines| && record.None?)
      && (record.Some? ==> |record.value| >= 1 && record.value[0] != [])
      && Faithful(lines, pos, released, record, prev)
    }

    /** Work left: every unscanned line may still be buffered and then released. */
    ghost function Remaining(): int
      reads this
    {
      2 * (|lines| - pos) + (if record.Some? then 1 else 0)
    }

    constructor(lines: seq<string>)
      ensures Valid() && this.lines == lines
      ensures pos == 0 && LineNumber == 0 && prev == [] && record.None? && !Closed && released == []
    {
      this.lines := lines;
      pos, LineNumber, prev, record, Closed := 0, 0, [], None, false;
      released := [];
    }

    /** `Record` (bam.go:151-179): the buffered record, or else the next line
        of the source; `Ok(None)` once the source is exhausted. */
    method Record() returns (r: Result<Option<seq<string>>>)
      requires Valid()
      modifies this
      ensures Valid() && Remaining() <= old(Remaining()) && released == old(released)
      ensures r.Ok? ==> (r.value.Some? <==> !Closed) && (r.value.Some? ==> record == r.value)
      ensures old(record).Some? ==> r == Ok(old(record)) && unchanged(this)
      ensures old(record).None? && old(pos) == |lines| ==>
        && r == Ok(None) && Closed
        && pos == old(pos) && record.None? && prev == old(prev)
      ensures old(record).None? && old(pos) < |lines| ==>
        && pos == old(pos) + 1 && LineNumber == old(LineNumber) + 1 && !Closed
        && Pull(record, prev, r) == Accepted(lines, pos)
    {
      if record.Some? {
        return Ok(record);
      }
      Closed := pos == |lines|;
      if Closed {
        return Ok(None);
      }
      r := ScanLine();
      PulledNext(lines, old(pos), released, old(prev), Pull(record, prev, r));
    }

    /** Lines bam.go:162-178: scan the next line, refuse a blank one, buffer
        its fields and check its name against the previous one. */
    method ScanLine() returns (r: Result<Option<seq<string>>>)
      requires record.None? && pos < |lines|
      modifies this`pos, this`LineNumber, this`record, this`prev
      ensures pos == old(pos) + 1 && LineNumber == old(LineNumber) + 1
      ensures Pull(record, prev, r) == Accept(old(prev), lines[old(pos)], old(LineNumber) + 1)
      ensures record.Some? ==> |record.value| >= 1 && record.value[0] != []
      ensures r.Ok? ==> r.value.Some? && r.value == record
      ensures r.Ok? ==> prev == record.value[0] && (old(prev) != [] ==> InOrder(old(prev), prev))
    {
      AcceptBuffersNamedRecord(prev, lines[pos], LineNumber + 1);
      var line := TrimSpace(lines[pos]);
      pos := pos + 1;
      LineNumber := LineNumber + 1;
      if line == [] {
        return Err(EmptyRecord);
      }
      var fields := Split(line, Tab);
      record := Some(fields);
      // `strings.Split` never returns an empty slice, so the check for an
      // empty record at bam.go:168-170 cannot fire.
      var name := fields[0];
      if prev != [] {
        var c := StrnumCmp(prev, name);
        if c == Abort {
          return Err(Aborted);
        }
        if c == Greater {
          return Err(SortOrderViolated(LineNumber));
        }
      }
      prev := name;
      return Ok(record);
    }

    /** `Ratchet` (bam.go:181-183): release the buffered record. */
    method Ratchet()
      requires Valid()
      modifies this
      ensures Valid() && record.None? && released == old(released) + Buffer(old(record))
      ensures pos == old(pos) && LineNumber == old(LineNumber) && prev == old(prev)
      ensures Closed == old(Closed)
    {
      released := released + Buffer(record);
      record := None;
    }

    /** `Find` (bam.go:120-149): skip the records whose names sort below
        `read` and return, consumed, the first one named `read`.  On a name
        past `read` that record stays buffered and nothing is returned; so
        also once the source is exhausted.  `skipped` lists the records it
        consumed without returning them: together with the returned record
        they are exactly what it released. */
    method Find(read: string) returns (r: Result<Option<seq<string>>>, ghost skipped: seq<seq<string>>)
      requires Valid()
      modifies this
      ensures Valid() && pos >= old(pos)
      ensures forall k | 0 <= k < |skipped| :: Skippable(skipped[k], read)
      ensures released == old(released) + skipped + (if r.Ok? && r.value.Some? then [r.value.value] else [])
      ensures r.Ok? && r.value.Some? ==> |r.value.value| >= 1 && r.value.value[0] == read && record.None?
      ensures r == Ok(None) ==>
        Closed || (record.Some? && NaturalCompare(record.value[0], read) == Greater)
      ensures old(Closed) ==> r == Ok(None) && unchanged(this)
    {
      skipped := [];
      while true
        invariant Valid() && pos >= old(pos)
        invariant forall k | 0 <= k < |skipped| :: Skippable(skipped[k], read)
        invariant released == old(released) + skipped
        invariant old(Closed) ==> unchanged(this)
        decreases Remaining()
      {
        if Closed {
          return Ok(None), skipped;
        }
        var done;
        ghost var out;
        r, done, out := FindStep(read);
        if done {
          return r, skipped;
        }
        AllSkippable(skipped, out[0], read);
        AppendAssociates(old(released), skipped, out);
        skipped := skipped + out;
      }
    }

    /** One pass of the loop at bam.go:122-147 on an open source: fetch the
        record and either end the search (`done`) or release the record, whose
        name sorts below `read`.  `out` is what it released. */
    method FindStep(read: string) returns (r: Result<Option<seq<string>>>, done: bool, ghost out: seq<seq<string>>)
      requires Valid() && !Closed
      modifies this
      ensures Valid() && pos >= old(pos) && released == old(released) + out
      ensures !done ==> Remaining() < old(Remaining()) && |out| == 1 && Skippable(out[0], read)
      ensures done ==> out == if r.Ok? && r.value.Some? then [r.value.value] else []
      ensures done && r.Ok? && r.value.Some? ==> |r.value.value| >= 1 && r.value.value[0] == read && record.None?
      ensures done && r == Ok(None) ==>
        Closed || (record.Some? && NaturalCompare(record.value[0], read) == Greater)
    {
      var rec := Record();
      if rec.Err? {
        return rec, true, [];
      }
      if Closed {
        return Ok(None), true, [];
      }
      var fields := rec.value.value;
      if fields[0] == read {
        Ratchet();
        return Ok(Some(fields)), true, [fields];
      }
      var c := StrnumCmp(fields[0], read);
      if c == Abort {
        return Err(Aborted), true, [];
      }
      if c == Less {
        // not far enough yet
        Ratchet();
        return Ok(None), false, [fields];
      }
      // past `read`: leave the record buffered for the next search
      EqualOnlyIdentical(fields[0], read);
      return Ok(None), true, [];
    }
  }

  /** A record `Find` skips for `read`: it has a name, a different one, that
      sorts below `read`. */
  predicate Skippable(record: seq<string>, read: string)
  {
    |record| >= 1 && record[0] != read && NaturalCompare(record[0], read) == Less
  }

  lemma AppendAssociates(a: seq<seq<string>>, b: seq<seq<string>>, c: seq<seq<string>>)
    ensures a + b + c == a + (b + c)
  {
  }

  lemma AllSkippable(skipped: seq<seq<string>>, record: seq<string>, read: string)
    requires forall k | 0 <= k < |skipped| :: Skippable(skipped[k], read)
    requires Skippable(record, read)
    ensures forall k | 0 <= k < |skipped + [record]| :: Skippable((skipped + [record])[k], read)
  {
  }

  // ---------------------------------------------------------------------------
  // BamRecord (bam.go:26-41, 45-93)

  /** The values of a `BamRecord`'s fields. */
  datatype Fields = Fields(
    Qname: string, Flag: int, Rname: string, Pos: int, Mapq: int, Cigar: string,
    Rnext: string, Pnext: int, Seq: string, Qual: string,
    TagAS: int, TagHI: int, TagnM: int, MatchLength: int)

  /** The three integer tags `Load` stores. */
  datatype Tags = Tags(AS: int, HI: int, nM: int)

  predicate IsTagKey(key: string) { key == "AS:i:" || key == "HI:i:" || key == "nM:i:" }

  function Lookup(t: Tags, key: string): int
  {
    if key == "AS:i:" then t.AS else if key == "HI:i:" then t.HI else t.nM
  }

  /** What `Load` needs of a record to avoid a slicing panic: the eleven fixed
      columns, and optional fields at least as long as their `XX:t:` prefix. */
  predicate Loadable(record: seq<string>)
  {
    |record| >= 11 && forall k | 11 <= k < |record| :: |record[k]| >= 5
  }

  datatype TagResult = TagResult(tags: Tags, err: Option<Error>)

  /** The loop at bam.go:65-78 over the optional fields `record[11..i]`,
      starting from the tags `t`: every field's value after its 5-character
      prefix must be an integer (else `BadTag` stops the loop); `AS:i:`, `HI:i:`
      and `nM:i:` fields store it and every other field is ignored. */
  function ScanTags(t: Tags, record: seq<string>, i: nat): TagResult
    requires Loadable(record) && 11 <= i <= |record|
  {
    if i == 11 then TagResult(t, None)
    else
      var s := ScanTags(t, record, i - 1);
      if s.err.Some? then s else ApplyTag(s.tags, record[i - 1])
  }

  /** One optional field: its value must be an integer; a stored tag takes it. */
  function ApplyTag(t: Tags, f: string): TagResult
    requires |f| >= 5
  {
    var val := Atoi(f[5..]);
    if !val.ok then TagResult(t, Some(BadTag(f)))
    else if f[..5] == "AS:i:" then TagResult(t.(AS := val.value), None)
    else if f[..5] == "HI:i:" then TagResult(t.(HI := val.value), None)
    else if f[..5] == "nM:i:" then TagResult(t.(nM := val.value), None)
    else TagResult(t, None)
  }

  /** The tag scan fails exactly when some field's value is not an integer,
      and then with `BadTag` of the first such field. */
  lemma {:induction false} ScanTagsOk(t: Tags, record: seq<string>, i: nat)
    requires Loadable(record) && 11 <= i <= |record|
    ensures ScanTags(t, record, i).err.None? <==> forall k | 11 <= k < i :: Atoi(record[k][5..]).ok
    ensures ScanTags(t, record, i).err.Some? ==>
      exists k | 11 <= k < i :: && ScanTags(t, record, i).err == Some(BadTag(record[k]))
                                && !Atoi(record[k][5..]).ok
                                && forall m | 11 <= m < k :: Atoi(record[m][5..]).ok
  {
    if i > 11 {
      ScanTagsOk(t, record, i - 1);
    }
  }

  /** A field that parses sets the tag named by its prefix and no other. */
  lemma ApplyTagLookup(t: Tags, f: string, key: string)
    requires |f| >= 5 && IsTagKey(key)
    requires ApplyTag(t, f).err.None?
    ensures Lookup(ApplyTag(t, f).tags, key) == if f[..5] == key then Atoi(f[5..]).value else Lookup(t, key)
  {
  }

  /** A successful scan was successful at every earlier point too. */
  lemma ScanTagsOkBefore(t: Tags, record: seq<string>, i: nat)
    requires Loadable(record) && 11 < i <= |record|
    requires ScanTags(t, record, i).err.None?
    ensures ScanTags(t, record, i - 1).err.None?
    ensures ScanTags(t, record, i) == ApplyTag(ScanTags(t, record, i - 1).tags, record[i - 1])
  {
  }

  /** For each stored tag the last field carrying it wins: if field `k` is the
      last of `record[11..i]` with prefix `key`, the tag holds its value. */
  lemma {:induction false} ScanTagsLastWins(t: Tags, record: seq<string>, i: nat, key: string, k: nat)
    requires Loadable(record) && 11 <= k < i <= |record| && IsTagKey(key)
    requires ScanTags(t, record, i).err.None?
    requires record[k][..5] == key && forall m | k < m < i :: record[m][..5] != key
    ensures Lookup(ScanTags(t, record, i).tags, key) == Atoi(record[k][5..]).value
  {
    ScanTagsOkBefore(t, record, i);
    ApplyTagLookup(ScanTags(t, record, i - 1).tags, record[i - 1], key);
    if k < i - 1 {
      ScanTagsLastWins(t, record, i - 1, key, k);
    }
  }

  /** A tag that no field carries keeps its previous value. */
  lemma {:induction false} ScanTagsKeeps(t: Tags, record: seq<string>, i: nat, key: string)
    requires Loadable(record) && 11 <= i <= |record| && IsTagKey(key)
    requires ScanTags(t, record, i).err.None?
    requires forall m | 11 <= m < i :: record[m][..5] != key
    ensures Lookup(ScanTags(t, record, i).tags, key) == Lookup(t, key)
  {
    if i > 11 {
      ScanTagsOkBefore(t, record, i);
      ApplyTagLookup(ScanTags(t, record, i - 1).tags, record[i - 1], key);
      ScanTagsKeeps(t, record, i - 1, key);
    }
  }

  /** An error in the tag loop ends it: later fields change nothing. */
  lemma {:induction false} ScanTagsStops(t: Tags, record: seq<string>, i: nat, j: nat)
    requires Loadable(record) && 11 <= i <= j <= |record|
    requires ScanTags(t, record, i).err.Some?
    ensures ScanTags(t, record, j) == ScanTags(t, record, i)
    decreases j - i
  {
    if i < j {
      ScanTagsStops(t, record, i, j - 1);
    }
  }

  /** An error in the CIGAR loop ends it: later codes change nothing. */
  lemma {:induction false} AccumulateStops(total: int, codes: seq<string>, i: nat)
    requires i <= |codes|
    requires Accumulate(total, codes[..i]).err.Some?
    ensures Accumulate(total, codes) == Accumulate(total, codes[..i])
    decreases |codes| - i
  {
    if i < |codes| {
      assert codes[..i + 1][..i] == codes[..i];
      AccumulateStops(total, codes, i + 1);
    } else {
      assert codes[..i] == codes;
    }
  }

  /** The result of `Load`: the new field values and the error it returned. */
  datatype Loaded = Loaded(fields: Fields, err: Option<Error>)

  /** bam.go:46-51: the text columns are copied. */
  function ColumnsCopied(r: Fields, record: seq<string>): Fields
    requires |record| >= 11
  {
    r.(Qname := record[0], Rname := record[2], Cigar := record[5],
       Rnext := record[6], Seq := record[9], Qual := record[10])
  }

  /** bam.go:52-64: the integer columns 1, 3, 4 and 7 are parsed in turn; each
      is assigned whatever `strconv.Atoi` returned, even when it failed, and
      the first failure stops the load. */
  function IntegersParsed(r: Fields, record: seq<string>): Loaded
    requires |record| >= 11
  {
    var flag := Atoi(record[1]);
    if !flag.ok then Loaded(r.(Flag := flag.value), Some(BadInteger(record[1])))
    else
      var pos := Atoi(record[3]);
      if !pos.ok then Loaded(r.(Flag := flag.value, Pos := pos.value), Some(BadInteger(record[3])))
      else
        var mapq := Atoi(record[4]);
        if !mapq.ok then Loaded(r.(Flag := flag.value, Pos := pos.value, Mapq := mapq.value), Some(BadInteger(record[4])))
        else
          var pnext := Atoi(record[7]);
          Loaded(r.(Flag := flag.value, Pos := pos.value, Mapq := mapq.value, Pnext := pnext.value),
                 if pnext.ok then None else Some(BadInteger(record[7])))
  }

  /** bam.go:65-78: the optional fields set the stored tags. */
  function TagsLoaded(r: Fields, record: seq<string>): Loaded
    requires Loadable(record)
  {
    var ts := ScanTags(Tags(r.TagAS, r.TagHI, r.TagnM), record, |record|);
    Loaded(r.(TagAS := ts.tags.AS, TagHI := ts.tags.HI, TagnM := ts.tags.nM), ts.err)
  }

  /** bam.go:80-90: the `M` counts of the CIGAR string are added to
      `MatchLength`. */
  function CigarLoaded(r: Fields): Loaded
  {
    var m := Accumulate(r.MatchLength, Matches(r.Cigar));
    Loaded(r.(MatchLength := m.total), m.err)
  }

  /** `BamRecord.Load` on fields `r` (bam.go:45-93): the three stages in turn,
      stopping at the first error. */
  function LoadInto(r: Fields, record: seq<string>): Loaded
    requires Loadable(record)
  {
    var columns := IntegersParsed(ColumnsCopied(r, record), record);
    if columns.err.Some? then columns
    else
      var tags := TagsLoaded(columns.fields, record);
      if tags.err.Some? then tags else CigarLoaded(tags.fields)
  }

  /** The CIGAR scan fails only on an `M` count too large for 64 bits. */
  lemma {:induction false} AccumulateOk(total: int, codes: seq<string>)
    requires forall k | 0 <= k < |codes| :: IsCode(codes[k])
    ensures Accumulate(total, codes).err.None? <==>
      forall k | 0 <= k < |codes| ::
        codes[k] != [] && codes[k][|codes[k]| - 1] == 'M' ==> Value(codes[k][..|codes[k]| - 1]) <= MaxInt64
    ensures Accumulate(total, codes).total >= total
  {
    if codes != [] {
      var n := |codes| - 1;
      var init, code := codes[..n], codes[n];
      assert forall k | 0 <= k < n :: init[k] == codes[k];
      AccumulateOk(total, init);
      assert code[..|code| - 1] != [];
      AtoiDigits(code[..|code| - 1]);
    }
  }

  /** What a successful `Load` leaves: the columns and the integers parsed, the
      tags the last carrier of each set, and `MatchLength` increased (not
      reset) by the `M` counts of the CIGAR string.  It succeeds exactly when
      the four integer columns, every optional field's value and every `M`
      count are 64-bit integers. */
  lemma {:induction false} LoadOk(r: Fields, record: seq<string>)
    requires Loadable(record)
    ensures var l := LoadInto(r, record);
      var ts := ScanTags(Tags(r.TagAS, r.TagHI, r.TagnM), record, |record|);
      var codes := Matches(record[5]);
      && (l.err.None? <==>
            && Atoi(record[1]).ok && Atoi(record[3]).ok && Atoi(record[4]).ok && Atoi(record[7]).ok
            && (forall k | 11 <= k < |record| :: Atoi(record[k][5..]).ok)
            && (forall k | 0 <= k < |codes| ::
                  codes[k] != [] && codes[k][|codes[k]| - 1] == 'M' ==> Value(codes[k][..|codes[k]| - 1]) <= MaxInt64))
      && (l.err.None? ==>
            && l.fields.Qname == record[0] && l.fields.Rname == record[2] && l.fields.Cigar == record[5]
            && l.fields.Rnext == record[6] && l.fields.Seq == record[9] && l.fields.Qual == record[10]
            && l.fields.Flag == Atoi(record[1]).value && l.fields.Pos == Atoi(record[3]).value
            && l.fields.Mapq == Atoi(record[4]).value && l.fields.Pnext == Atoi(record[7]).value
            && Tags(l.fields.TagAS, l.fields.TagHI, l.fields.TagnM) == ts.tags
            && l.fields.MatchLength >= r.MatchLength
            && l.fields.MatchLength == Accumulate(r.MatchLength, codes).total)
  {
    var columns := IntegersParsed(ColumnsCopied(r, record), record);
    assert columns.err.None? <==> Atoi(record[1]).ok && Atoi(record[3]).ok && Atoi(record[4]).ok && Atoi(record[7]).ok;
    assert Tags(columns.fields.TagAS, columns.fields.TagHI, columns.fields.TagnM) == Tags(r.TagAS, r.TagHI, r.TagnM);
    assert columns.fields.Cigar == record[5] && columns.fields.MatchLength == r.MatchLength;
    ScanTagsOk(Tags(r.TagAS, r.TagHI, r.TagnM), record, |record|);
    MatchesAreCodes(record[5]);
    AccumulateOk(r.MatchLength, Matches(record[5]));
  }

  class BamRecord {
    var Qname: string
    var Flag: int
    var Rname: string
    var Pos: int
    var Mapq: int
    var Cigar: string
    var Rnext: string
    var Pnext: int
    var Seq: string
    var Qual: string
    var TagAS: int
    var TagHI: int
    var TagnM: int
    var MatchLength: int

    function View(): Fields
      reads this
    {
      Fields(Qname, Flag, Rname, Pos, Mapq, Cigar, Rnext, Pnext, Seq, Qual,
             TagAS, TagHI, TagnM, MatchLength)
    }

    constructor()
      ensures View() == Fields([], 0, [], 0, 0, [], [], 0, [], [], 0, 0, 0, 0)
    {
      Qname, Flag, Rname, Pos, Mapq, Cigar, Rnext := [], 0, [], 0, 0, [], [];
      Pnext, Seq, Qual, TagAS, TagHI, TagnM, MatchLength := 0, [], [], 0, 0, 0, 0;
    }

    /** `Load` (bam.go:45-93). */
    method Load(record: seq<string>) returns (err: Option<Error>)
      requires Loadable(record)
      modifies this
      ensures View() == LoadInto(old(View()), record).fields
      ensures err == LoadInto(old(View()), record).err
    {
      CopyColumns(record);
      err := ParseIntegers(record);
      if err.Some? {
        return;
      }
      err := LoadTags(record);
      if err.Some? {
        return;
      }
      err := LoadCigar();
    }

    /** bam.go:46-51. */
    method CopyColumns(record: seq<string>)
      requires |record| >= 11
      modifies this`Qname, this`Rname, this`Cigar, this`Rnext, this`Seq, this`Qual
      ensures View() == ColumnsCopied(old(View()), record)
    {
      Qname, Rname, Cigar, Rnext, Seq, Qual := record[0], record[2], record[5], record[6], record[9], record[10];
    }

    /** bam.go:52-64. */
    method ParseIntegers(record: seq<string>) returns (err: Option<Error>)
      requires |record| >= 11
      modifies this`Flag, this`Pos, this`Mapq, this`Pnext
      ensures View() == IntegersParsed(old(View()), record).fields
      ensures err == IntegersParsed(old(View()), record).err
    {
      var n := Atoi(record[1]);
      Flag := n.value;
      if !n.ok {
        return Some(BadInteger(record[1]));
      }
      n := Atoi(record[3]);
      Pos := n.value;
      if !n.ok {
        return Some(BadInteger(record[3]));
      }
      n := Atoi(record[4]);
      Mapq := n.value;
      if !n.ok {
        return Some(BadInteger(record[4]));
      }
      n := Atoi(record[7]);
      Pnext := n.value;
      if !n.ok {
        return Some(BadInteger(record[7]));
      }
      return None;
    }

    /** bam.go:65-78. */
    method LoadTags(record: seq<string>) returns (err: Option<Error>)
      requires Loadable(record)
      modifies this`TagAS, this`TagHI, this`TagnM
      ensures View() == TagsLoaded(old(View()), record).fields
      ensures err == TagsLoaded(old(View()), record).err
    {
      ghost var t0 := Tags(TagAS, TagHI, TagnM);
      var i := 11;
      while i < |record|
        invariant 11 <= i <= |record|
        invariant ScanTags(t0, record, i) == TagResult(Tags(TagAS, TagHI, TagnM), None)
      {
        ghost var before := Tags(TagAS, TagHI, TagnM);
        assert ScanTags(t0, record, i + 1) == ApplyTag(before, record[i]);
        var val := Atoi(record[i][5..]);
        if !val.ok {
          ScanTagsStops(t0, record, i + 1, |record|);
          return Some(BadTag(record[i]));
        }
        var key := record[i][..5];
        if key == "AS:i:" {
          TagAS := val.value;
        } else if key == "HI:i:" {
          TagHI := val.value;
        } else if key == "nM:i:" {
          TagnM := val.value;
        }
        assert ApplyTag(before, record[i]) == TagResult(Tags(TagAS, TagHI, TagnM), None);
        i := i + 1;
      }
      return None;
    }

    /** bam.go:80-90. */
    method LoadCigar() returns (err: Option<Error>)
      modifies this`MatchLength
      ensures View() == CigarLoaded(old(View())).fields
      ensures err == CigarLoaded(old(View())).err
    {
      ghost var m0 := MatchLength;
      var matches := Matches(Cigar);
      var k := 0;
      while k < |matches|
        invariant 0 <= k <= |matches|
        invariant Accumulate(m0, matches[..k]) == Tally(MatchLength, None)
      {
        var code := matches[k];
        AccumulateNext(m0, matches, k);
        if |code| > 0 && code[|code| - 1] == 'M' {
          var c := Atoi(code[..|code| - 1]);
          if !c.ok {
            AccumulateStops(m0, matches, k + 1);
            return Some(BadCigarFragment(code));
          }
          MatchLength := MatchLength + c.value;
        }
        k := k + 1;
      }
      assert matches[..k] == matches;
      return None;
    }
  }
}
