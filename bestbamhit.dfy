/** The processing loop of `bestbamhit` (bestbamhit.go:144-270): merge N
    name-sorted alignment streams, gather every alignment of the lowest read
    name, keep the best-scoring one and count it by its source or by the
    reason it was dropped. */
module BestHit {
  import opened Types
  import opened Text
  import opened Compare
  import opened Tokens
  import opened Bam

  // ---------------------------------------------------------------------------
  // extract (bestbamhit.go:56-70)

  /** What `extract` reads from an alignment row. */
  datatype Alignment = Alignment(mlen: nat, edist: int)

  /** `extract`: the byte length of the sequence column and the edit distance
      of the `nM:i:` tag in column 14.  A column 14 shorter than five bytes
      makes `edit_tag[:5]` panic.  The first five bytes spell `nM:i:` exactly
      when the first five characters do, since no other character's UTF-8
      bytes are ASCII. */
  function Extract(row: seq<string>): Result<Alignment>
  {
    if |row| < 15 then Err(TooFewFields)
    else if Utf8Len(row[14]) < 5 then Err(ShortEditTag(row[14]))
    else if |row[14]| < 5 || row[14][..5] != "nM:i:" then Err(MalformedEditTag(row[14]))
    else
      var d := Atoi(row[14][5..]);
      if !d.ok then Err(BadEditDistance(row[14]))
      else Ok(Alignment(Utf8Len(row[9]), d.value))
  }

  /** `extract` succeeds exactly on rows with at least 15 columns whose column
      14 is `nM:i:` followed by a 64-bit integer; the match length is the
      sequence's length, not anything read from the CIGAR string. */
  lemma ExtractOk(row: seq<string>)
    ensures Extract(row).Ok? <==>
      |row| >= 15 && |row[14]| >= 5 && row[14][..5] == "nM:i:" && Atoi(row[14][5..]).ok
    ensures |row| >= 15 && |row[14]| >= 5 && Extract(row).Ok? ==>
      && Extract(row).value.mlen == Utf8Len(row[9]) >= |row[9]|
      && Extract(row).value.edist == Atoi(row[14][5..]).value
      && MinInt64 <= Extract(row).value.edist <= MaxInt64
  {
    if |row| >= 15 {
      if |row[14]| >= 5 {
        AtoiOk(row[14][5..]);
      }
      Utf8LenBounds(row[14]);
      Utf8LenBounds(row[9]);
    }
  }

  /** A row written with sequence `sq` and edit distance `d` reads back as
      `(len(sq), d)`. */
  lemma ExtractRoundTrip(row: seq<string>, sq: string, d: int)
    requires |row| >= 15 && row[9] == sq && row[14] == "nM:i:" + Itoa(d)
    requires MinInt64 <= d <= MaxInt64
    ensures Extract(row) == Ok(Alignment(Utf8Len(sq), d))
  {
    var tag := row[14];
    assert tag[..5] == "nM:i:" && tag[5..] == Itoa(d);
    Utf8LenBounds(tag);
    AtoiItoa(d);
  }

  // ---------------------------------------------------------------------------
  // Hits and their scores (bestbamhit.go:27-30, 213-249)

  /** One alignment of the current read: the index of its source and its
      columns. */
  datatype Hit = Hit(index: nat, record: seq<string>)

  /** The score of an alignment: its length less the penalised edit distance. */
  function Score(a: Alignment, penalty: int): int
  {
    a.mlen - a.edist * penalty
  }

  predicate AllExtract(hits: seq<Hit>)
  {
    forall j {:trigger Extract(hits[j].record)} | 0 <= j < |hits| :: Extract(hits[j].record).Ok?
  }

  function HitScore(h: Hit, penalty: int): int
    requires Extract(h.record).Ok?
  {
    Score(Extract(h.record).value, penalty)
  }

  /** Hit `j` scores at least as high as every hit. */
  predicate IsBest(hits: seq<Hit>, penalty: int, j: int)
    requires AllExtract(hits)
  {
    0 <= j < |hits| && forall m {:trigger HitScore(hits[m], penalty)} | 0 <= m < |hits| :: HitScore(hits[m], penalty) <= HitScore(hits[j], penalty)
  }

  predicate Increasing(s: seq<nat>)
  {
    forall a, b | 0 <= a < b < |s| :: s[a] < s[b]
  }

  /** Two best hits come from different sources. */
  predicate MixedBest(hits: seq<Hit>, penalty: int)
    requires AllExtract(hits)
  {
    exists j, k | 0 <= j < |hits| && 0 <= k < |hits| ::
      IsBest(hits, penalty, j) && IsBest(hits, penalty, k) && hits[j].index != hits[k].index
  }

  /** The scoring loop (bestbamhit.go:214-233): `extract` every hit, stopping
      at the first error, and collect, in increasing order, exactly the
      indices of the hits with the highest score. */
  method TiedBest(hits: seq<Hit>, penalty: int) returns (r: Result<seq<nat>>)
    ensures r.Ok? <==> AllExtract(hits)
    ensures r.Err? ==>
      exists j | 0 <= j < |hits| :: && Extract(hits[j].record) == Err(r.error)
                                   && forall m | 0 <= m < j :: Extract(hits[m].record).Ok?
    ensures r.Ok? ==> Increasing(r.value) && (|r.value| == 0 <==> |hits| == 0)
    ensures r.Ok? ==> forall j :: j in r.value <==> IsBest(hits, penalty, j)
  {
    var best := 0;
    var which: seq<nat> := [];
    ghost var scores: seq<int> := [];
    var j := 0;
    while j < |hits|
      invariant 0 <= j <= |hits| && |scores| == j
      invariant Scored(hits[..j], penalty, scores)
      invariant Ties(scores, which, best)
    {
      var e := ScoreHit(hits[j], penalty);
      if e.Err? {
        ScoredAt(hits[..j], penalty, scores);
        assert forall m | 0 <= m < j :: hits[..j][m] == hits[m];
        return Err(e.error);
      }
      ScoredSnoc(hits[..j], penalty, scores, hits[j], e.value);
      assert hits[..j + 1] == hits[..j] + [hits[j]];
      which, best := Track(which, best, j, e.value, scores);
      scores := scores + [e.value];
      j := j + 1;
    }
    assert hits[..j] == hits;
    TiesAreBest(hits, penalty, scores, which, best);
    return Ok(which);
  }

  /** One step of the scoring loop (bestbamhit.go:220-232): the first hit
      starts the ties, a hit equal to the best joins them, a higher one starts
      them afresh and a lower one leaves them as they are. */
  method Track(which: seq<nat>, best: int, j: nat, score: int, ghost scores: seq<int>)
    returns (which': seq<nat>, best': int)
    requires j == |scores| && Ties(scores, which, best)
    ensures Ties(scores + [score], which', best')
  {
    if which == [] {
      TiesFirst(scores, score);
      best' := score;
      which' := which + [j];
    } else if score == best {
      TiesEqual(scores, which, best);
      which', best' := which + [j], best;
    } else if score > best {
      TiesAbove(scores, which, best, score);
      best' := score;
      which' := [j];
    } else {
      TiesBelow(scores, which, best, score);
      which', best' := which, best;
    }
  }

  /** Once every hit is scored, the ties are exactly the best hits. */
  lemma TiesAreBest(hits: seq<Hit>, penalty: int, scores: seq<int>, which: seq<nat>, best: int)
    requires Scored(hits, penalty, scores) && Ties(scores, which, best)
    ensures AllExtract(hits)
    ensures Increasing(which) && (|which| == 0 <==> |hits| == 0)
    ensures forall j :: j in which <==> IsBest(hits, penalty, j)
  {
    ScoredAt(hits, penalty, scores);
    forall i | 0 <= i < |hits| ensures i in which <==> IsBest(hits, penalty, i) {
      if IsBest(hits, penalty, i) {
        assert scores[which[0]] == best;
      }
    }
  }

  /** `which` holds, in increasing order, exactly the positions of the highest
      of `scores`, and `best` is that score. */
  ghost predicate Ties(scores: seq<int>, which: seq<nat>, best: int)
  {
    && (which == [] <==> scores == [])
    && Increasing(which)
    && (forall k | 0 <= k < |which| :: which[k] < |scores| && scores[which[k]] == best)
    && (forall m | 0 <= m < |scores| :: scores[m] <= best && (scores[m] == best ==> m in which))
  }

  lemma TiesFirst(scores: seq<int>, score: int)
    requires Ties(scores, [], 0)
    ensures Ties(scores + [score], [|scores|], score)
  {
  }

  lemma TiesEqual(scores: seq<int>, which: seq<nat>, best: int)
    requires Ties(scores, which, best) && which != []
    ensures Ties(scores + [best], which + [|scores|], best)
  {
    var s, w := scores + [best], which + [|scores|];
    forall m | 0 <= m < |s| && s[m] == best ensures m in w {
      if m < |scores| {
        assert m in which;
      } else {
        assert w[|which|] == m;
      }
    }
  }

  lemma TiesAbove(scores: seq<int>, which: seq<nat>, best: int, score: int)
    requires Ties(scores, which, best) && score > best
    ensures Ties(scores + [score], [|scores|], score)
  {
  }

  lemma TiesBelow(scores: seq<int>, which: seq<nat>, best: int, score: int)
    requires Ties(scores, which, best) && which != [] && score < best
    ensures Ties(scores + [score], which, best)
  {
  }

  /** `extract` on one hit, and its score. */
  method ScoreHit(h: Hit, penalty: int) returns (r: Result<int>)
    ensures r.Ok? ==> Scored([h], penalty, [r.value])
    ensures r.Err? ==> Extract(h.record) == Err(r.error)
  {
    var e := Extract(h.record);
    if e.Err? {
      return Err(e.error);
    }
    assert [h][..0] == [] && [e.value.mlen - e.value.edist * penalty][..0] == [];
    return Ok(Score(e.value, penalty));
  }

  lemma ScoredSnoc(hits: seq<Hit>, penalty: int, scores: seq<int>, h: Hit, score: int)
    requires Scored(hits, penalty, scores) && Scored([h], penalty, [score])
    ensures Scored(hits + [h], penalty, scores + [score])
  {
    assert (hits + [h])[..|hits|] == hits;
    assert (scores + [score])[..|scores|] == scores;
  }

  /** `scores` are the scores of `hits`, each of which `extract` accepts. */
  predicate Scored(hits: seq<Hit>, penalty: int, scores: seq<int>)
  {
    && |scores| == |hits|
    && (hits != [] ==>
          && Scored(hits[..|hits| - 1], penalty, scores[..|scores| - 1])
          && Extract(hits[|hits| - 1].record).Ok?
          && HitScore(hits[|hits| - 1], penalty) == scores[|scores| - 1])
  }

  lemma {:induction false} ScoredAt(hits: seq<Hit>, penalty: int, scores: seq<int>)
    requires Scored(hits, penalty, scores)
    ensures AllExtract(hits)
    ensures forall m | 0 <= m < |hits| :: HitScore(hits[m], penalty) == scores[m]
  {
    if hits != [] {
      var n := |hits| - 1;
      ScoredAt(hits[..n], penalty, scores[..n]);
      assert forall m | 0 <= m < n :: hits[..n][m] == hits[m] && scores[..n][m] == scores[m];
    }
  }

  /** The loop at bestbamhit.go:241-246: whether some tied hit comes from a
      source other than the first tied hit's. */
  method SpansSources(hits: seq<Hit>, which: seq<nat>) returns (b: bool)
    requires |which| >= 1 && forall k | 0 <= k < |which| :: which[k] < |hits|
    ensures b <==> exists k | 0 <= k < |which| :: hits[which[k]].index != hits[which[0]].index
  {
    var first := hits[which[0]].index;
    var k := 0;
    while k < |which|
      invariant 0 <= k <= |which|
      invariant forall m | 0 <= m < k :: hits[which[m]].index == first
    {
      if hits[which[k]].index != first {
        return true;
      }
      k := k + 1;
    }
    return false;
  }

  /** Comparing every tied hit with the first one finds a second source
      exactly when two best hits come from different sources. */
  lemma MixedBestIsSpanned(hits: seq<Hit>, penalty: int, which: seq<nat>)
    requires AllExtract(hits) && |which| >= 1
    requires forall k | 0 <= k < |which| :: which[k] < |hits|
    requires forall j :: j in which <==> IsBest(hits, penalty, j)
    ensures MixedBest(hits, penalty) <==>
      exists k | 0 <= k < |which| :: hits[which[k]].index != hits[which[0]].index
  {
    assert IsBest(hits, penalty, which[0]);
    if MixedBest(hits, penalty) {
      var j, k :| 0 <= j < |hits| && 0 <= k < |hits| &&
        IsBest(hits, penalty, j) && IsBest(hits, penalty, k) && hits[j].index != hits[k].index;
      assert j in which && k in which;
      var a :| 0 <= a < |which| && which[a] == j;
      var b :| 0 <= b < |which| && which[b] == k;
      assert hits[which[a]].index != hits[which[0]].index || hits[which[b]].index != hits[which[0]].index;
    }
    if exists k | 0 <= k < |which| :: hits[which[k]].index != hits[which[0]].index {
      var k :| 0 <= k < |which| && hits[which[k]].index != hits[which[0]].index;
      assert which[k] in which;
      assert IsBest(hits, penalty, which[k]);
    }
  }

  // ---------------------------------------------------------------------------
  // Classification (bestbamhit.go:250-269)

  /** Why the best hit of a read is counted where it is. */
  datatype Class = Ercc | TooDiverged | TooShort | Accepted

  /** Spike-in controls first, then too many edits, then too short; every other
      best hit is accepted for its source.  The edit distance is read again
      with `extract`, whose errors end the run. */
  function Classification(rec: seq<string>, maxDist: int, minLength: int): Result<Class>
    requires |rec| >= 3
  {
    if Contains(rec[2], "ERCC") then Ok(Ercc)
    else match Extract(rec)
      case Err(e) => Err(e)
      case Ok(a) =>
        if a.edist > maxDist then Ok(TooDiverged)
        else if a.mlen < minLength then Ok(TooShort)
        else Ok(Accepted)
  }

  /** The outcomes are checked in order: a reference name containing `ERCC`
      wins over everything; an edit distance equal to the maximum passes; a
      length equal to the minimum passes. */
  lemma ClassificationOrder(rec: seq<string>, maxDist: int, minLength: int)
    requires |rec| >= 3
    ensures Contains(rec[2], "ERCC") ==> Classification(rec, maxDist, minLength) == Ok(Ercc)
    ensures Classification(rec, maxDist, minLength) == Ok(TooDiverged) <==>
      !Contains(rec[2], "ERCC") && Extract(rec).Ok? && Extract(rec).value.edist > maxDist
    ensures Classification(rec, maxDist, minLength) == Ok(TooShort) <==>
      && !Contains(rec[2], "ERCC") && Extract(rec).Ok?
      && Extract(rec).value.edist <= maxDist && Extract(rec).value.mlen < minLength
    ensures Classification(rec, maxDist, minLength) == Ok(Accepted) <==>
      && !Contains(rec[2], "ERCC") && Extract(rec).Ok?
      && Extract(rec).value.edist <= maxDist && Extract(rec).value.mlen >= minLength
    ensures Classification(rec, maxDist, minLength).Err? ==> !Contains(rec[2], "ERCC") && Extract(rec).Err?
  {
  }

  function Sum(s: seq<nat>): nat
  {
    if s == [] then 0 else Sum(s[..|s| - 1]) + s[|s| - 1]
  }

  /** Adding one to an entry adds one to the total. */
  lemma {:induction false} SumIncrement(s: seq<nat>, i: nat)
    requires i < |s|
    ensures Sum(s[i := s[i] + 1]) == Sum(s) + 1
  {
    var t := s[i := s[i] + 1];
    if i < |s| - 1 {
      assert t[..|t| - 1] == s[..|s| - 1][i := s[i] + 1];
      SumIncrement(s[..|s| - 1], i);
    } else {
      assert t[..|t| - 1] == s[..|s| - 1];
    }
  }

  // ---------------------------------------------------------------------------
  // Progress measure

  /** Work left in all the streams `ss`. */
  ghost function Pending(ss: seq<BamScanner>): (n: int)
    reads ss
    ensures (forall k | 0 <= k < |ss| :: ss[k].Valid()) ==> n >= 0
  {
    if ss == [] then 0 else Pending(ss[..|ss| - 1]) + ss[|ss| - 1].Remaining()
  }

  twostate lemma {:induction false} PendingShrinks(ss: seq<BamScanner>)
    requires forall k | 0 <= k < |ss| :: ss[k].Remaining() <= old(ss[k].Remaining())
    ensures Pending(ss) <= old(Pending(ss))
    ensures (exists k | 0 <= k < |ss| :: ss[k].Remaining() < old(ss[k].Remaining())) ==>
      Pending(ss) < old(Pending(ss))
  {
    if ss != [] {
      PendingShrinks(ss[..|ss| - 1]);
      if exists k | 0 <= k < |ss| :: ss[k].Remaining() < old(ss[k].Remaining()) {
        var k :| 0 <= k < |ss| && ss[k].Remaining() < old(ss[k].Remaining());
        if k < |ss| - 1 {
          assert ss[..|ss| - 1][k] == ss[k];
        }
      }
    }
  }

  // ---------------------------------------------------------------------------
  // The merge (bestbamhit.go:144-270)

  class Merger {
    const scanners: seq<BamScanner>
    const labels: seq<string>
    const minLength: int
    const maxDist: int
    /** `-limit`: stop after this many reads; 0 for no limit. */
    const limit: int
    /** `-edit-penalty`, here an integer. */
    const penalty: int
    /** Whether a keep file was asked for. */
    const keeping: bool
    var totalMappings: nat
    var tooDiverged: nat
    var tooShort: nat
    var found: nat
    var ercc: nat
    var multi: nat
    /** Accepted reads per source. */
    const counts: array<nat>
    /** The lines written to the keep file. */
    var keep: seq<string>

    ghost predicate Valid()
      reads this, counts, scanners
    {
      Streams(scanners) && Tallied()
    }

    /** The counters agree: every read found is counted once, at most once as
        a multi-source read, and has at least one alignment. */
    ghost predicate Tallied()
      reads this, counts
    {
      && Counted()
      && (keeping ==> |labels| >= |scanners|)
      && multi <= found <= totalMappings
    }

    /** Every read found is counted once: as a spike-in, as too diverged, as
        too short or for the source of its best hit. */
    ghost predicate Counted()
      reads this, counts
    {
      && counts.Length == |scanners|
      && found == ercc + tooDiverged + tooShort + Sum(counts[..])
    }

    constructor(scanners: seq<BamScanner>, labels: seq<string>, minLength: int, maxDist: int,
                limit: int, penalty: int, keeping: bool)
      requires Streams(scanners)
      requires keeping ==> |labels| >= |scanners|
      ensures Valid()
      ensures this.scanners == scanners && this.labels == labels && this.keeping == keeping
      ensures this.minLength == minLength && this.maxDist == maxDist
      ensures this.limit == limit && this.penalty == penalty
      ensures totalMappings == tooDiverged == tooShort == found == ercc == multi == 0
      ensures fresh(counts) && counts[..] == seq(|scanners|, _ => 0) && keep == []
    {
      this.scanners, this.labels, this.keeping := scanners, labels, keeping;
      this.minLength, this.maxDist, this.limit, this.penalty := minLength, maxDist, limit, penalty;
      totalMappings, tooDiverged, tooShort, found, ercc, multi := 0, 0, 0, 0, 0, 0;
      counts := new nat[|scanners|](_ => 0);
      keep := [];
      new;
      SumZeros(counts[..]);
    }

    /** The choice at bestbamhit.go:234-249: among the tied best hits, one
        drawn at random, here `draw` reduced to the number of ties (the only
        hit when there is no tie).  A read whose tied best hits span more
        than one source is counted in `multi`. */
    method SelectBest(hits: seq<Hit>, draw: nat) returns (r: Result<nat>)
      requires |hits| >= 1
      modifies this`multi
      ensures r.Ok? <==> AllExtract(hits)
      ensures r.Err? ==> exists j | 0 <= j < |hits| :: Extract(hits[j].record) == Err(r.error)
      ensures r.Ok? ==> IsBest(hits, penalty, r.value)
      ensures r.Ok? ==> multi == old(multi) + if MixedBest(hits, penalty) then 1 else 0
      ensures r.Err? ==> multi == old(multi)
    {
      var tied := TiedBest(hits, penalty);
      if tied.Err? {
        return Err(tied.error);
      }
      var which := tied.value;
      assert which[0] in which;
      forall k | 0 <= k < |which| ensures which[k] < |hits| {
        assert which[k] in which;
      }
      MixedBestIsSpanned(hits, penalty, which);
      var best: nat;
      if |which| > 1 {
        best := which[draw % |which|];
        assert best in which;
        var spans := SpansSources(hits, which);
        if spans {
          multi := multi + 1;
        }
      } else {
        best := which[0];
      }
      return Ok(best);
    }

    /** The counting at bestbamhit.go:250-269 of a read's best hit, by its
        `Classification`; an accepted hit also writes the read's name and its
        source's label to the keep file. */
    method Classify(hit: Hit) returns (err: Option<Error>)
      requires Counted() && |hit.record| >= 3 && hit.index < counts.Length
      requires keeping ==> hit.index < |labels|
      modifies this`ercc, this`tooDiverged, this`tooShort, this`found, this`keep, counts
      ensures Counted()
      ensures var c := Classification(hit.record, maxDist, minLength);
        && (err.Some? <==> c.Err?)
        && (c.Err? ==> err.value == c.error && Tally() == old(Tally()))
        && (c.Ok? ==> CountedAs(hit, c.value, old(Tally())))
    {
      var rec := hit.record;
      if Contains(rec[2], "ERCC") {
        ercc := ercc + 1;
      } else {
        var e := Extract(rec);
        if e.Err? {
          return Some(e.error);
        }
        if e.value.edist > maxDist {
          tooDiverged := tooDiverged + 1;
        } else if e.value.mlen < minLength {
          tooShort := tooShort + 1;
        } else {
          Credit(hit.index, rec[0]);
        }
      }
      found := found + 1;
      return None;
    }

    /** The counters, which stood at `before`, after a read whose best hit
        `hit` was classified `c`: the read is found and counted once, under
        `c`; an accepted read counts for the hit's source and, with a keep
        file, writes one line to it. */
    ghost predicate CountedAs(hit: Hit, c: Class, before: Counters)
      requires hit.index < |before.counts| && |hit.record| >= 1 && (keeping ==> hit.index < |labels|)
      reads this, counts
    {
      && found == before.found + 1
      && ercc == before.ercc + (if c == Ercc then 1 else 0)
      && tooDiverged == before.tooDiverged + (if c == TooDiverged then 1 else 0)
      && tooShort == before.tooShort + (if c == TooShort then 1 else 0)
      && counts[..] == (if c == Accepted then before.counts[hit.index := before.counts[hit.index] + 1] else before.counts)
      && keep == (if c == Accepted && keeping then before.keep + [KeepLine(hit.record[0], labels[hit.index])] else before.keep)
    }

    /** The counters as they stand. */
    ghost function Tally(): Counters
      reads this, counts
    {
      Counters(found, ercc, tooDiverged, tooShort, counts[..], keep)
    }

    /** bestbamhit.go:264-267: an accepted read counts for its source, and its
        name goes to the keep file with the source's label. */
    method Credit(index: nat, name: string)
      requires index < counts.Length && (keeping ==> index < |labels|)
      modifies counts, this`keep
      ensures counts[..] == old(counts[..])[index := old(counts[index]) + 1]
      ensures Sum(counts[..]) == Sum(old(counts[..])) + 1
      ensures keep == if keeping then old(keep) + [KeepLine(name, labels[index])] else old(keep)
    {
      SumIncrement(counts[..], index);
      counts[index] := counts[index] + 1;
      if keeping {
        keep := keep + [KeepLine(name, labels[index])];
      }
    }

    /** One pass of the loop at bestbamhit.go:155-270 after the limit check:
        find the lowest read name among the streams' heads, gather all its
        hits, keep the best and count it.  `Ok(false)` once every stream is
        exhausted, with nothing counted; `Ok(true)` after the read is counted
        once, which leaves less work in the streams. */
    method MergeStep(draw: nat, ghost last: Option<string>)
      returns (r: Result<bool>, ghost heads: seq<Option<string>>, ghost groups: seq<seq<Hit>>, ghost best: nat)
      requires Valid()
      modifies this, counts, scanners
      ensures Valid()
      ensures Pending(scanners) <= old(Pending(scanners))
      ensures Grown(old(Logs(scanners)), Logs(scanners))
      ensures r == Ok(false) ==> unchanged(this, counts) && forall k | 0 <= k < |scanners| :: scanners[k].Closed
      ensures r == Ok(false) ==> Logs(scanners) == old(Logs(scanners))
      ensures r.Err? ==> found == old(found)
      ensures multi <= old(multi) + 1
      ensures r == Ok(true) ==>
        && found == old(found) + 1 && totalMappings > old(totalMappings)
        && Pending(scanners) < old(Pending(scanners))
      ensures r == Ok(true) ==>
        var hits := Concat(groups);
        && |hits| >= 1 && |hits[0].record| >= 1
        && Grouped(scanners, old(Logs(scanners)), heads, hits[0].record[0], groups)
        && totalMappings == old(totalMappings) + |hits|
        && Chose(hits, best, old(Tally()))
        && multi == old(multi) + (if MixedBest(hits, penalty) then 1 else 0)
      ensures r == Ok(true) && old(Ahead(scanners, last)) ==>
        var read := Concat(groups)[0].record[0];
        && Ahead(scanners, Some(read))
        && (last.Some? ==> Below(Tokenize(last.value), Tokenize(read)))
    {
      var fetched;
      fetched, heads, groups := Fetch(scanners, last);
      if fetched.Err? {
        return Err(fetched.error), heads, groups, 0;
      }
      if fetched.value.None? {
        return Ok(false), heads, groups, 0;
      }
      assert Tally() == old(Tally()) && multi == old(multi);
      label fetched:
      var err;
      err, best := Count(fetched.value.value, draw);
      assert unchanged@fetched(scanners);
      assert Logs(scanners) == old@fetched(Logs(scanners));
      if err.Some? {
        return Err(err.value), heads, groups, best;
      }
      return Ok(true), heads, groups, best;
    }

    /** The part of one pass of the loop at bestbamhit.go:155-270 that
        counts (lines 211-269): add the read's alignments to the total, pick
        its best hit and count the read once.  It fails only where `extract`
        rejects one of the hits. */
    method Count(hits: seq<Hit>, draw: nat) returns (err: Option<Error>, ghost best: nat)
      requires Tallied()
      requires |hits| >= 1 && forall a | 0 <= a < |hits| :: hits[a].index < |scanners|
      modifies this`totalMappings, this`multi, this`ercc, this`tooDiverged, this`tooShort, this`found,
        this`keep, counts
      ensures Tallied() && totalMappings == old(totalMappings) + |hits|
      ensures err.None? <==> AllExtract(hits)
      ensures err.None? ==> found == old(found) + 1 && Chose(hits, best, old(Tally()))
      ensures err.None? ==> multi == old(multi) + if MixedBest(hits, penalty) then 1 else 0
      ensures err.Some? ==> Tally() == old(Tally()) && multi == old(multi)
      ensures multi <= old(multi) + 1
    {
      totalMappings := totalMappings + |hits|;
      var selected := SelectBest(hits, draw);
      if selected.Err? {
        return Some(selected.error), 0;
      }
      best := selected.value;
      var hit := hits[selected.value];
      assert Extract(hit.record).Ok?;
      assert Tally() == old(Tally());
      err := Classify(hit);
      assert err.None?;
    }

    /** The counting of a read whose hits are `hits`, from counters that
        stood at `before`: `best` is one of its best hits, and the read is
        counted once, under the class of `best`. */
    ghost predicate Chose(hits: seq<Hit>, best: nat, before: Counters)
      reads this, counts
    {
      && AllExtract(hits) && best < |hits| && IsBest(hits, penalty, best)
      && |hits[best].record| >= 3 && hits[best].index < |before.counts|
      && (keeping ==> hits[best].index < |labels|)
      && Classification(hits[best].record, maxDist, minLength).Ok?
      && CountedAs(hits[best], Classification(hits[best].record, maxDist, minLength).value, before)
    }

    /** The loop at bestbamhit.go:155-270: process reads until `-limit`
        reads are found or every stream is exhausted.  `pick(n)` is the
        random draw for the `n`-th read found.  `names` are the reads
        counted, in the order they were counted: each is the name of records
        the streams released, and a run without an error counted every
        record it released. */
    method Run(pick: nat -> nat) returns (err: Option<Error>, ghost names: seq<string>)
      requires Valid()
      modifies this, counts, scanners
      ensures Valid() && found >= old(found)
      ensures limit > 0 && old(found) <= limit ==> found <= limit
      ensures err.None? ==>
        (limit > 0 && found == limit) || forall k | 0 <= k < |scanners| :: scanners[k].Closed
      ensures |names| == found - old(found)
      ensures old(Ahead(scanners, None)) ==> Ascending(names)
      ensures err.None? && old(Ahead(scanners, None)) ==> Ahead(scanners, LastOf(names))
      ensures Traced(old(Logs(scanners)), Logs(scanners), names)
      ensures err.None? ==> Covered(old(Logs(scanners)), Logs(scanners), names)
    {
      names := [];
      ghost var ordered := Ahead(scanners, None);
      ghost var logs0 := Logs(scanners);
      while true
        invariant Valid() && found >= old(found)
        invariant limit > 0 && old(found) <= limit ==> found <= limit
        invariant |names| == found - old(found)
        invariant ordered ==> Ascending(names) && Ahead(scanners, LastOf(names))
        invariant Traced(logs0, Logs(scanners), names) && Covered(logs0, Logs(scanners), names)
        decreases Pending(scanners)
      {
        if limit > 0 && limit == found {
          return None, names;
        }
        var step;
        step, names := Advance(pick(found), logs0, names, ordered);
        if step.Err? {
          return Some(step.error), names;
        }
        if !step.value {
          return None, names;
        }
      }
    }

    /** One pass of the loop at bestbamhit.go:155-270 after the limit check
        (`MergeStep`), with `names`, the reads counted since the streams had
        released `logs0`, extended by the read it counts. */
    method Advance(draw: nat, ghost logs0: seq<seq<seq<string>>>, ghost names: seq<string>, ghost ordered: bool)
      returns (r: Result<bool>, ghost counted: seq<string>)
      requires Valid() && Traced(logs0, Logs(scanners), names) && Covered(logs0, Logs(scanners), names)
      requires ordered ==> Ascending(names) && Ahead(scanners, LastOf(names))
      modifies this, counts, scanners
      ensures Valid() && Pending(scanners) <= old(Pending(scanners))
      ensures r == Ok(true) ==> found == old(found) + 1 && Pending(scanners) < old(Pending(scanners))
      ensures r != Ok(true) ==> found == old(found)
      ensures r == Ok(false) ==> forall k | 0 <= k < |scanners| :: scanners[k].Closed
      ensures |counted| == |names| + found - old(found)
      ensures Traced(logs0, Logs(scanners), counted)
      ensures r.Ok? ==> Covered(logs0, Logs(scanners), counted)
      ensures ordered ==> Ascending(counted)
      ensures r.Ok? && ordered ==> Ahead(scanners, LastOf(counted))
    {
      counted := names;
      ghost var before := Logs(scanners);
      var step, heads, groups, _ := MergeStep(draw, LastOf(names));
      r := step;
      if r.Err? {
        TracedGrows(logs0, before, Logs(scanners), names);
        return;
      }
      if !r.value {
        ClosedAhead(scanners, LastOf(names));
        return;
      }
      ghost var read := Concat(groups)[0].record[0];
      GroupedTook(scanners, before, heads, read, groups);
      CountedStep(logs0, before, Logs(scanners), names, read);
      if ordered {
        AscendingSnoc(names, read);
      }
      counted := names + [read];
    }
  }

  /** The last of `names`, if any. */
  function LastOf(names: seq<string>): Option<string>
  {
    if names == [] then None else Some(names[|names| - 1])
  }

  /** The names strictly increase in the token order. */
  ghost predicate Ascending(names: seq<string>)
  {
    forall i, j | 0 <= i < j < |names| :: Below(Tokenize(names[i]), Tokenize(names[j]))
  }

  /** A name above the last keeps the names ascending. */
  lemma AscendingSnoc(names: seq<string>, read: string)
    requires Ascending(names)
    requires LastOf(names).Some? ==> Below(Tokenize(LastOf(names).value), Tokenize(read))
    ensures Ascending(names + [read])
  {
    forall i, j | 0 <= i < j < |names| + 1
      ensures Below(Tokenize((names + [read])[i]), Tokenize((names + [read])[j]))
    {
      if j == |names| && i < |names| - 1 {
        BelowTransitive(Tokenize(names[i]), Tokenize(names[|names| - 1]), Tokenize(read));
      }
    }
  }

  /** Exhausted streams are ready for any read: they hold nothing more. */
  lemma ClosedAhead(ss: seq<BamScanner>, last: Option<string>)
    requires forall k | 0 <= k < |ss| :: ss[k].Valid() && ss[k].Closed
    ensures Ahead(ss, last)
  {
    forall k | 0 <= k < |ss|
      ensures ReadyAfter(ss[k], last)
    {
      assert ss[k].record.None?;
    }
  }

  /** Ascending names are all different: no read is taken twice. */
  lemma AscendingDistinct(names: seq<string>)
    requires Ascending(names)
    ensures forall i, j | 0 <= i < j < |names| :: names[i] != names[j]
  {
    forall i, j | 0 <= i < j < |names|
      ensures names[i] != names[j]
    {
      BelowIrreflexive(Tokenize(names[i]));
    }
  }

  /** The counters a read's classification moves, as one value. */
  datatype Counters = Counters(found: nat, ercc: nat, tooDiverged: nat, tooShort: nat, counts: seq<nat>, keep: seq<string>)

  /** A line of the keep file: the read's name and the label of the source
      its best hit came from. */
  function KeepLine(name: string, source: string): (line: string)
    ensures |line| == |name| + |source| + 2 && line[|line| - 1] == '\n'
    ensures line[..|name|] == name && line[|name|] == '\t' && line[|name| + 1..|line| - 1] == source
  {
    name + "\t" + source + "\n"
  }

  /** The merge's streams: distinct scanners, each consistent. */
  ghost predicate Streams(ss: seq<BamScanner>)
    reads ss
  {
    Distinct(ss) && forall i {:trigger ss[i].Valid()} | 0 <= i < |ss| :: ss[i].Valid()
  }

  ghost predicate Distinct(ss: seq<BamScanner>)
  {
    forall i, j | 0 <= i < j < |ss| :: ss[i] != ss[j]
  }

  /** A stream still consistent, with no more work left than at the start
      of the call, and whose released log has only grown. */
  twostate predicate Progressed(s: BamScanner)
    reads s
  {
    Worked(s, old(s.released), old(s.Remaining()))
  }

  /** `Progressed`, given the stream's released log `log` and work left
      `rem` at the start of the call. */
  ghost predicate Worked(s: BamScanner, log: seq<seq<string>>, rem: int)
    reads s
  {
    s.Valid() && s.Remaining() <= rem && log <= s.released
  }

  /** What pulling a stream's head may do to it: it releases nothing, keeps a
      record already buffered, and otherwise reads at most one line, whose
      record (if any) it then buffers. */
  twostate predicate Peeked(s: BamScanner)
    reads s
  {
    && Progressed(s) && s.released == old(s.released)
    && (old(s.record).Some? ==> s.record == old(s.record) && s.pos == old(s.pos))
    && s.pos <= old(s.pos) + 1 && (old(s.Closed) ==> s.Closed)
  }

  /** The loop at bestbamhit.go:164-190: pull each open stream's head
      record and find the lowest name among them.  `heads` holds each
      stream's head name, `None` for an exhausted stream; the answer is
      `None` when every stream is exhausted, and otherwise the running
      minimum of the heads, which no head lies below (`LowestIsLowest`
      restates that in terms of `strnum_cmp`). */
  method Lowest(scanners: seq<BamScanner>, ghost last: Option<string>)
    returns (r: Result<Option<string>>, ghost heads: seq<Option<string>>)
    requires Streams(scanners)
    modifies scanners
    ensures forall k {:trigger Peeked(scanners[k])} | 0 <= k < |scanners| :: Peeked(scanners[k])
    ensures r.Ok? ==> |heads| == |scanners| && forall k {:trigger HeadIs(scanners[k], heads[k])} | 0 <= k < |scanners| :: HeadIs(scanners[k], heads[k])
    ensures r.Ok? ==> forall k {:trigger KeptSorted(scanners[k])} | 0 <= k < |scanners| :: KeptSorted(scanners[k])
    ensures r == Ok(None) ==> LowestOf(heads, [])
    ensures r.Ok? && r.value.Some? ==> LowestOf(heads, r.value.value)
    ensures r.Ok? && r.value.Some? ==> r.value.value != []
    ensures r.Ok? && old(Ahead(scanners, last)) ==>
      (forall k {:trigger Sorted(scanners[k])} | 0 <= k < |scanners| :: Sorted(scanners[k])) && AllAbove(heads, last)
  {
    ghost var ahead := Ahead(scanners, last);
    var read: string := [];
    var allClosed := true;
    heads := [];
    var i := 0;
    while i < |scanners|
      invariant 0 <= i <= |scanners| && |heads| == i
      invariant forall k {:trigger Peeked(scanners[k])} | 0 <= k < |scanners| :: Peeked(scanners[k])
      invariant forall k {:trigger scanners[k]} | i <= k < |scanners| :: unchanged(scanners[k])
      invariant forall k {:trigger HeadIs(scanners[k], heads[k])} | 0 <= k < i :: HeadIs(scanners[k], heads[k])
      invariant forall k {:trigger KeptSorted(scanners[k])} | 0 <= k < i :: KeptSorted(scanners[k])
      invariant LowestOf(heads, read) && (allClosed <==> read == [])
      invariant ahead ==>
        (forall k {:trigger Sorted(scanners[k])} | 0 <= k < i :: Sorted(scanners[k])) && AllAbove(heads, last)
    {
      assert ahead ==> old(ReadyAfter(scanners[i], last));
      label pass:
      var visited, open, head := Visit(scanners[i], read, heads, last);
      assert forall k {:trigger scanners[k]} | 0 <= k < |scanners| && k != i :: unchanged@pass(scanners[k]);
      if visited.Err? {
        return Err(visited.error), heads;
      }
      allClosed := allClosed && !open;
      read := visited.value;
      heads := heads + [head];
      i := i + 1;
    }
    if allClosed {
      return Ok(None), heads;
    }
    // a head record's name is never empty, so the check at
    // bestbamhit.go:188-190 cannot fire
    return Ok(Some(read)), heads;
  }

  /** One pass of the loop at bestbamhit.go:168-183 on stream `s`: pull its
      head record and lower the running minimum `read` to its name.  `open`
      tells whether the stream still has a record; `head` is its name. */
  method Visit(s: BamScanner, read: string, ghost heads: seq<Option<string>>, ghost last: Option<string>)
    returns (r: Result<string>, open: bool, ghost head: Option<string>)
    requires s.Valid() && LowestOf(heads, read)
    modifies s
    ensures Peeked(s)
    ensures r.Ok? ==> HeadIs(s, head) && (open <==> head.Some?) && KeptSorted(s)
    ensures r.Ok? ==> LowestOf(heads + [head], r.value) && (r.value == [] <==> read == [] && !open)
    ensures r.Ok? && old(ReadyAfter(s, last)) ==> Sorted(s) && AboveLast(head, last)
  {
    var h := Head(s);
    if h.Err? {
      return Err(h.error), false, None;
    }
    head := h.value;
    if h.value.None? {
      LowestOfClosed(heads, read);
      return Ok(read), false, head;
    }
    var lower := Lower(h.value.value, read, heads);
    if lower.Err? {
      return Err(lower.error), true, head;
    }
    return Ok(lower.value), true, head;
  }

  /** A head named above `last` in the token order, or no head or no `last`. */
  ghost predicate AboveLast(head: Option<string>, last: Option<string>)
  {
    last.Some? && head.Some? ==> Below(Tokenize(last.value), Tokenize(head.value))
  }

  /** Every one of `heads` lies above `last`. */
  ghost predicate AllAbove(heads: seq<Option<string>>, last: Option<string>)
  {
    forall k | 0 <= k < |heads| :: AboveLast(heads[k], last)
  }

  /** The state of a stream after `Record`: exhausted, or buffering a record
      named `head`. */
  ghost predicate HeadIs(s: BamScanner, head: Option<string>)
    reads s
  {
    && (head.None? <==> s.Closed)
    && (head.Some? ==> s.record.Some? && |s.record.value| >= 1 && s.record.value[0] == head.value)
  }

  /** `read` is the running minimum of the names in `heads` (`None` for an
      exhausted stream): empty while every stream is exhausted, else one of
      the names, and no name lies below it in the token order. */
  ghost predicate LowestOf(heads: seq<Option<string>>, read: string)
  {
    && (AnyOpen(heads) <==> read != [])
    && (read != [] ==> Some(read) in heads)
    && NoneBelow(heads, read)
  }

  /** Some stream in `heads` has a head record. */
  ghost predicate AnyOpen(heads: seq<Option<string>>)
  {
    heads != [] && (AnyOpen(heads[..|heads| - 1]) || heads[|heads| - 1].Some?)
  }

  /** No name in `heads` lies below `read` in the token order. */
  ghost predicate NoneBelow(heads: seq<Option<string>>, read: string)
  {
    heads != [] ==>
      && NoneBelow(heads[..|heads| - 1], read)
      && (heads[|heads| - 1].Some? ==> !Below(Tokenize(heads[|heads| - 1].value), Tokenize(read)))
  }

  lemma {:induction false} AnyOpenAt(heads: seq<Option<string>>)
    ensures AnyOpen(heads) <==> exists k | 0 <= k < |heads| :: heads[k].Some?
  {
    if heads != [] {
      var n := |heads| - 1;
      AnyOpenAt(heads[..n]);
      assert forall k | 0 <= k < n :: heads[..n][k] == heads[k];
    }
  }

  lemma {:induction false} NoneBelowAt(heads: seq<Option<string>>, read: string)
    requires NoneBelow(heads, read)
    ensures forall k | 0 <= k < |heads| && heads[k].Some? :: !Below(Tokenize(heads[k].value), Tokenize(read))
  {
    if heads != [] {
      var n := |heads| - 1;
      NoneBelowAt(heads[..n], read);
      assert forall k | 0 <= k < n :: heads[..n][k] == heads[k];
    }
  }

  /** A stream past `read` holds no record named `read`. */
  lemma PastDrained(s: BamScanner, read: string)
    requires Past(s, read)
    ensures Drained(s, read)
  {
    if !s.Closed {
      BelowIrreflexive(Tokenize(read));
    }
  }

  /** A stream whose head is not the lowest name `read` is past `read`:
      it is exhausted, or its head lies above `read`. */
  lemma PastOther(s: BamScanner, heads: seq<Option<string>>, read: string, m: nat)
    requires LowestOf(heads, read) && m < |heads| && heads[m] != Some(read) && HeadIs(s, heads[m])
    ensures Past(s, read)
  {
    if heads[m].Some? {
      NoneBelowAt(heads, read);
      TokenOrderTotal(heads[m].value, read);
    }
  }

  /** Moving the minimum down keeps every name off the new one. */
  lemma {:induction false} NoneBelowLower(heads: seq<Option<string>>, s: string, t: string)
    requires NoneBelow(heads, t) && Below(Tokenize(s), Tokenize(t))
    ensures NoneBelow(heads, s)
  {
    if heads != [] {
      var n := |heads| - 1;
      NoneBelowLower(heads[..n], s, t);
      if heads[n].Some? {
        NotBelowLower(Tokenize(heads[n].value), Tokenize(s), Tokenize(t));
      }
    }
  }

  /** While every stream is exhausted, nothing lies below any name. */
  lemma {:induction false} NoneBelowClosed(heads: seq<Option<string>>, s: string)
    requires !AnyOpen(heads)
    ensures NoneBelow(heads, s)
  {
    if heads != [] {
      NoneBelowClosed(heads[..|heads| - 1], s);
    }
  }

  lemma LowestOfClosed(heads: seq<Option<string>>, read: string)
    requires LowestOf(heads, read)
    ensures LowestOf(heads + [None], read)
  {
    assert (heads + [None])[..|heads|] == heads;
  }

  /** No open stream's head is below the minimum by `strnum_cmp` either, and
      the minimum is empty exactly when every stream is exhausted. */
  lemma LowestIsLowest(heads: seq<Option<string>>, read: string)
    requires LowestOf(heads, read)
    ensures read == [] <==> forall k | 0 <= k < |heads| :: heads[k].None?
    ensures forall k | 0 <= k < |heads| && heads[k].Some? :: NaturalCompare(heads[k].value, read) != Less
  {
    AnyOpenAt(heads);
    NoneBelowAt(heads, read);
    forall k | 0 <= k < |heads| && heads[k].Some?
      ensures NaturalCompare(heads[k].value, read) != Less
    {
      if NaturalCompare(heads[k].value, read) == Less {
        LessIsBelow(heads[k].value, read);
      }
    }
  }

  /** `s.Record()` as the loop at bestbamhit.go:167-175 uses it: the name of
      the stream's head record, or `None` once the stream is exhausted. */
  method Head(s: BamScanner) returns (r: Result<Option<string>>)
    requires s.Valid()
    modifies s
    ensures Peeked(s)
    ensures r.Ok? ==> HeadIs(s, r.value) && r.value != Some([]) && KeptSorted(s)
  {
    var rec := s.Record();
    if rec.Err? {
      return Err(rec.error);
    }
    if rec.value.None? {
      return Ok(None);
    }
    return Ok(Some(rec.value.value[0]));
  }

  /** One comparison of the loop at bestbamhit.go:177-183: the first name seen
      is taken as it is; after that a name replaces `read` only when
      `strnum_cmp` puts it below.  The running minimum stays the minimum of
      the names seen so far. */
  method Lower(name: string, read: string, ghost heads: seq<Option<string>>) returns (r: Result<string>)
    requires name != [] && LowestOf(heads, read)
    ensures read == [] ==> r == Ok(name)
    ensures read != [] ==>
      && (r.Err? <==> NaturalCompare(name, read) == Abort)
      && (r.Err? ==> r.error == Aborted)
      && (r.Ok? ==> r.value == if NaturalCompare(name, read) == Less then name else read)
    ensures r.Ok? ==> LowestOf(heads + [Some(name)], r.value) && r.value != []
  {
    var h := heads + [Some(name)];
    assert h[..|heads|] == heads && h[|heads|] == Some(name);
    if read == [] {
      BelowIrreflexive(Tokenize(name));
      NoneBelowClosed(heads, name);
      return Ok(name);
    }
    var c := StrnumCmp(name, read);
    if c == Abort {
      return Err(Aborted);
    }
    if c == Less {
      LessIsBelow(name, read);
      BelowIrreflexive(Tokenize(name));
      NoneBelowLower(heads, name, read);
      return Ok(name);
    }
    NotLessIsNotBelow(name, read);
    assert Some(read) in heads;
    return Ok(read);
  }

  /** The part of one pass of the loop at bestbamhit.go:155-270 that reads
      the streams (lines 164-210): the lowest read name among the streams'
      heads and all its hits, grouped by stream; `None` once every stream is
      exhausted.  `heads` are the names the streams' heads had and `groups`
      what each stream gave: every record named after the lowest head, and
      nothing else.  Taking a read leaves less work in the streams. */
  method Fetch(scanners: seq<BamScanner>, ghost last: Option<string>)
    returns (r: Result<Option<seq<Hit>>>, ghost heads: seq<Option<string>>, ghost groups: seq<seq<Hit>>)
    requires Streams(scanners)
    modifies scanners
    ensures Streams(scanners) && Pending(scanners) <= old(Pending(scanners))
    ensures Grown(old(Logs(scanners)), Logs(scanners))
    ensures r == Ok(None) ==> Logs(scanners) == old(Logs(scanners))
    ensures r == Ok(None) ==> forall k | 0 <= k < |scanners| ::
      scanners[k].Closed && scanners[k].released == old(scanners[k].released)
    ensures r.Ok? && r.value.Some? ==>
      var hits := r.value.value;
      && |hits| >= 1 && |hits[0].record| >= 1 && AllNamed(hits, hits[0].record[0])
      && (forall a | 0 <= a < |hits| :: hits[a].index < |scanners|)
      && hits == Concat(groups)
      && Grouped(scanners, old(Logs(scanners)), heads, hits[0].record[0], groups)
      && Pending(scanners) < old(Pending(scanners))
    ensures r.Ok? && r.value.Some? && old(Ahead(scanners, last)) ==>
      var read := r.value.value[0].record[0];
      && Ahead(scanners, Some(read))
      && (last.Some? ==> Below(Tokenize(last.value), Tokenize(read)))
  {
    var low;
    low, heads := Lowest(scanners, last);
    forall m | 0 <= m < |scanners|
      ensures scanners[m].Valid() && scanners[m].Remaining() <= old(scanners[m].Remaining())
      ensures scanners[m].released == old(scanners[m].released)
    {
      assert Peeked(scanners[m]);
    }
    assert Logs(scanners) == old(Logs(scanners));
    if low.Err? {
      PendingShrinks(scanners);
      return Err(low.error), heads, [];
    }
    if low.value.None? {
      LowestIsLowest(heads, []);
      forall k | 0 <= k < |scanners| ensures scanners[k].Closed {
        assert HeadIs(scanners[k], heads[k]);
      }
      PendingShrinks(scanners);
      return Ok(None), heads, [];
    }
    var read := low.value.value;
    assert Some(read) in heads;
    ghost var k :| 0 <= k < |heads| && heads[k] == Some(read);
    ghost var ahead := old(Ahead(scanners, last));
    assert ahead ==> AboveLast(heads[k], last);
    PendingShrinks(scanners);
    ghost var logs := Logs(scanners);
    assert logs == old(Logs(scanners));
    label looked:
    var hits;
    hits, groups := Collect(scanners, heads, read, ahead, k);
    if hits.Err? {
      return Err(hits.error), heads, groups;
    }
    return Ok(Some(hits.value)), heads, groups;
  }

  /** `Gather` seen from the streams: with `read` the lowest of the heads
      `heads`, stream k among them, the hits come grouped by stream, the
      first of them named `read`, and the streams hold less work. */
  method Collect(scanners: seq<BamScanner>, ghost heads: seq<Option<string>>, read: string, ghost sorted: bool, ghost k: nat)
    returns (r: Result<seq<Hit>>, ghost groups: seq<seq<Hit>>)
    requires Streams(scanners) && |heads| == |scanners| && LowestOf(heads, read)
    requires k < |heads| && heads[k] == Some(read)
    requires forall m | 0 <= m < |scanners| :: HeadIs(scanners[m], heads[m])
    requires sorted ==> forall m | 0 <= m < |scanners| :: Sorted(scanners[m])
    modifies scanners
    ensures Streams(scanners) && Pending(scanners) <= old(Pending(scanners))
    ensures Grown(old(Logs(scanners)), Logs(scanners))
    ensures r.Ok? ==>
      && |r.value| >= 1 && |r.value[0].record| >= 1 && r.value[0].record[0] == read
      && AllNamed(r.value, read)
      && (forall a | 0 <= a < |r.value| :: r.value[a].index < |scanners|)
      && r.value == Concat(groups)
      && Grouped(scanners, old(Logs(scanners)), heads, read, groups)
      && Pending(scanners) < old(Pending(scanners))
    ensures r.Ok? && sorted ==> Ahead(scanners, Some(read))
  {
    r, groups := Gather(scanners, heads, read, sorted);
    forall m | 0 <= m < |scanners|
      ensures scanners[m].Valid() && scanners[m].Remaining() <= old(scanners[m].Remaining())
      ensures old(Logs(scanners))[m] <= Logs(scanners)[m]
    {
      assert Progressed(scanners[m]);
    }
    PendingShrinks(scanners);
    if r.Err? {
      return;
    }
    forall m | 0 <= m < |scanners|
      ensures GaveGroup(scanners[m], old(Logs(scanners))[m], heads[m], read, groups[m], m)
      ensures sorted ==> ReadyAfter(scanners[m], Some(read))
    {
      assert Collected(scanners[m], heads[m], read, groups[m], m, sorted);
    }
    assert |groups[k]| >= 1 && scanners[k].Remaining() < old(scanners[k].Remaining()) by {
      assert Collected(scanners[k], heads[k], read, groups[k], k, sorted);
    }
    ConcatHas(groups, k);
  }

  /** What `Fetch` did to the streams `ss`, whose released records were
      `logs`: `heads` are the names at their heads, `read` is the lowest of
      them, and stream k gave `groups[k]`. */
  ghost predicate Grouped(ss: seq<BamScanner>, logs: seq<seq<seq<string>>>, heads: seq<Option<string>>,
                          read: string, groups: seq<seq<Hit>>)
    reads ss
  {
    && |logs| == |ss| && |heads| == |ss| && |groups| == |ss| && LowestOf(heads, read)
    && forall k {:trigger GaveGroup(ss[k], logs[k], heads[k], read, groups[k], k)} | 0 <= k < |ss| ::
      GaveGroup(ss[k], logs[k], heads[k], read, groups[k], k)
  }

  /** Stream `s`, numbered `index`, which had released `log` and whose head
      was named `head`, gave `group`: the records named `read` it had at its
      head, now released after `log`, and nothing else.  A stream with
      another head keeps it. */
  ghost predicate GaveGroup(s: BamScanner, log: seq<seq<string>>, head: Option<string>, read: string,
                            group: seq<Hit>, index: nat)
    reads s
  {
    && FromStream(group, index) && AllNamed(group, read) && Drained(s, read)
    && s.released == log + Records(group)
    && (head == Some(read) <==> group != [])
    && (head != Some(read) ==> HeadIs(s, head))
  }

  /** The records each of the streams `ss` has released. */
  ghost function Logs(ss: seq<BamScanner>): (logs: seq<seq<seq<string>>>)
    reads ss
    ensures |logs| == |ss| && forall k | 0 <= k < |ss| :: logs[k] == ss[k].released
  {
    seq(|ss|, k requires 0 <= k < |ss| reads ss => ss[k].released)
  }

  /** Every log of `logs` extends the one at the same place in `logs0`. */
  ghost predicate Grown(logs0: seq<seq<seq<string>>>, logs: seq<seq<seq<string>>>)
  {
    |logs0| == |logs| && forall k | 0 <= k < |logs| :: logs0[k] <= logs[k]
  }

  /** A record whose first field, the read name, is `read`. */
  predicate NamedAs(record: seq<string>, read: string)
  {
    |record| >= 1 && record[0] == read
  }

  /** From `logs0` to `logs` the streams released at least one record, and
      only records named `read`. */
  ghost predicate TookRead(logs0: seq<seq<seq<string>>>, logs: seq<seq<seq<string>>>, read: string)
  {
    && Grown(logs0, logs)
    && (forall k, j | 0 <= k < |logs| && |logs0[k]| <= j < |logs[k]| :: NamedAs(logs[k][j], read))
    && exists k | 0 <= k < |logs| :: |logs0[k]| < |logs[k]|
  }

  /** Every record released after `logs0` is named in `names`. */
  ghost predicate Covered(logs0: seq<seq<seq<string>>>, logs: seq<seq<seq<string>>>, names: seq<string>)
  {
    && Grown(logs0, logs)
    && forall k, j | 0 <= k < |logs| && |logs0[k]| <= j < |logs[k]| :: |logs[k][j]| >= 1 && logs[k][j][0] in names
  }

  /** Every name of `names` is the name of a record released after `logs0`. */
  ghost predicate Traced(logs0: seq<seq<seq<string>>>, logs: seq<seq<seq<string>>>, names: seq<string>)
  {
    Grown(logs0, logs) && forall i | 0 <= i < |names| :: ReleasedName(logs0, logs, names[i])
  }

  /** Some record released after `logs0` is named `read`. */
  ghost predicate ReleasedName(logs0: seq<seq<seq<string>>>, logs: seq<seq<seq<string>>>, read: string)
    requires Grown(logs0, logs)
  {
    exists k, j | 0 <= k < |logs| && |logs0[k]| <= j < |logs[k]| :: NamedAs(logs[k][j], read)
  }

  /** Further releases keep every traced name traced. */
  lemma TracedGrows(logs0: seq<seq<seq<string>>>, logs1: seq<seq<seq<string>>>, logs2: seq<seq<seq<string>>>,
                    names: seq<string>)
    requires Traced(logs0, logs1, names) && Grown(logs1, logs2)
    ensures Traced(logs0, logs2, names)
  {
    forall k | 0 <= k < |logs2|
      ensures logs0[k] <= logs2[k]
    {
      assert logs0[k] == logs1[k][..|logs0[k]|] && logs1[k] == logs2[k][..|logs1[k]|];
    }
    forall i | 0 <= i < |names|
      ensures ReleasedName(logs0, logs2, names[i])
    {
      assert ReleasedName(logs0, logs1, names[i]);
      var k, j :| 0 <= k < |logs1| && |logs0[k]| <= j < |logs1[k]| && NamedAs(logs1[k][j], names[i]);
      assert logs2[k][j] == logs1[k][j];
    }
  }

  /** A pass that released only records named `read`, and some, and then
      counted `read`, keeps the counted names and the released records in
      step. */
  lemma CountedStep(logs0: seq<seq<seq<string>>>, logs1: seq<seq<seq<string>>>, logs2: seq<seq<seq<string>>>,
                    names: seq<string>, read: string)
    requires Covered(logs0, logs1, names) && Traced(logs0, logs1, names) && TookRead(logs1, logs2, read)
    ensures Covered(logs0, logs2, names + [read]) && Traced(logs0, logs2, names + [read])
  {
    TracedGrows(logs0, logs1, logs2, names);
    forall k, j | 0 <= k < |logs2| && |logs0[k]| <= j < |logs2[k]|
      ensures |logs2[k][j]| >= 1 && logs2[k][j][0] in names + [read]
    {
      if j < |logs1[k]| {
        assert logs2[k][j] == logs1[k][j];
      }
    }
    var counted := names + [read];
    forall i | 0 <= i < |counted|
      ensures ReleasedName(logs0, logs2, counted[i])
    {
      if i < |names| {
        assert counted[i] == names[i];
        assert ReleasedName(logs0, logs2, names[i]);
      } else {
        var k :| 0 <= k < |logs2| && |logs1[k]| < |logs2[k]|;
        assert |logs0[k]| <= |logs1[k]| && NamedAs(logs2[k][|logs1[k]|], read);
      }
    }
  }

  /** Some group of a non-empty concatenation is non-empty. */
  lemma {:induction false} ConcatNonEmpty(groups: seq<seq<Hit>>) returns (k: nat)
    requires Concat(groups) != []
    ensures k < |groups| && groups[k] != []
  {
    if groups[|groups| - 1] != [] {
      k := |groups| - 1;
    } else {
      k := ConcatNonEmpty(groups[..|groups| - 1]);
    }
  }

  /** The streams of a `Grouped` pass that gave hits released at least one
      record, and only records named `read`. */
  lemma GroupedTook(ss: seq<BamScanner>, logs: seq<seq<seq<string>>>, heads: seq<Option<string>>,
                    read: string, groups: seq<seq<Hit>>)
    requires Grouped(ss, logs, heads, read, groups) && Concat(groups) != []
    ensures TookRead(logs, Logs(ss), read)
  {
    var after := Logs(ss);
    forall k | 0 <= k < |ss|
      ensures after[k] == logs[k] + Records(groups[k]) && AllNamed(groups[k], read)
    {
      assert GaveGroup(ss[k], logs[k], heads[k], read, groups[k], k);
    }
    forall k, j | 0 <= k < |after| && |logs[k]| <= j < |after[k]|
      ensures NamedAs(after[k][j], read)
    {
      assert after[k][j] == groups[k][j - |logs[k]|].record;
    }
    var k := ConcatNonEmpty(groups);
    assert |after[k]| == |logs[k]| + |groups[k]|;
  }

  /** The stream buffers a record named `read`. */
  ghost predicate Holds(s: BamScanner, read: string)
    reads s
  {
    s.record.Some? && |s.record.value| >= 1 && s.record.value[0] == read
  }

  /** The stream has no more records named `read` at its head. */
  ghost predicate Drained(s: BamScanner, read: string)
    reads s
  {
    s.Closed || (s.record.Some? && |s.record.value| >= 1 && s.record.value[0] != read)
  }

  /** The stream's `prev` is the name of the record it buffers, as every
      successful read leaves it (bam.go:176); only a sort-order error leaves
      a buffered record with an older `prev`. */
  ghost predicate Sorted(s: BamScanner)
    reads s
  {
    s.record.Some? ==> |s.record.value| >= 1 && s.prev == s.record.value[0]
  }

  /** Reading on keeps `prev` the name of the buffered record. */
  twostate predicate KeptSorted(s: BamScanner)
    reads s
  {
    old(Sorted(s)) ==> Sorted(s)
  }

  /** The stream is past `read`: exhausted, or buffering a record whose name
      lies above `read` in the token order. */
  ghost predicate Past(s: BamScanner, read: string)
    reads s
  {
    s.Closed || (s.record.Some? && |s.record.value| >= 1 && Below(Tokenize(read), Tokenize(s.record.value[0])))
  }

  /** Stream `s` is ready for the read after `last`: `Sorted`, and past
      `last` once there is one. */
  ghost predicate ReadyAfter(s: BamScanner, last: Option<string>)
    reads s
  {
    Sorted(s) && (last.Some? ==> Past(s, last.value))
  }

  /** Every stream is ready for the read after `last`. */
  ghost predicate Ahead(ss: seq<BamScanner>, last: Option<string>)
    reads ss
  {
    forall k {:trigger ReadyAfter(ss[k], last)} | 0 <= k < |ss| :: ReadyAfter(ss[k], last)
  }

  /** Every hit is a record named `read`. */
  predicate AllNamed(hits: seq<Hit>, read: string)
  {
    forall k | 0 <= k < |hits| :: |hits[k].record| >= 1 && hits[k].record[0] == read
  }

  /** The inner loop at bestbamhit.go:195-206: consume the records named
      `read` at the head of stream `s`, numbered `index`.  It stops at the
      first record with another name, which stays buffered, or at the end of
      the stream.  A stream that buffered a record named `read` yields at
      least that record, and has less work left. */
  method Drain(s: BamScanner, index: nat, read: string) returns (r: Result<seq<Hit>>)
    requires s.Valid()
    modifies s
    ensures Progressed(s)
    ensures r.Ok? ==> AllNamed(r.value, read) && FromStream(r.value, index) && DrainedFrom(s, read, r.value)
    ensures r.Ok? && old(Holds(s, read)) ==> r.value[0].record == old(s.record.value)
  {
    var first := Take(s, index, read);
    if first.Err? {
      return Err(first.error);
    }
    if first.value.None? {
      return Ok([]);
    }
    var hits := [first.value.value];
    RecordsSnoc(old(s.released), [], first.value.value);
    assert [] + hits == hits;
    while true
      invariant Progressed(s) && s.Remaining() < old(s.Remaining())
      invariant AllNamed(hits, read) && FromStream(hits, index)
      invariant |hits| >= 1 && hits[0] == first.value.value
      invariant s.released == old(s.released) + Records(hits)
      invariant read != [] && (old(Sorted(s)) ==> s.record.None? && s.prev == read)
      decreases s.Remaining()
    {
      var next := Take(s, index, read);
      if next.Err? {
        return Err(next.error);
      }
      if next.value.None? {
        return Ok(hits);
      }
      DrainMore(old(s.released), hits, next.value.value, read, index);
      hits := hits + [next.value.value];
    }
  }

  /** One pass of the inner loop at bestbamhit.go:195-206: the head record of
      stream `s`, consumed, if it is named `read`; `None`, with the stream
      drained of `read`, otherwise.  A record already buffered is the one
      taken. */
  method Take(s: BamScanner, index: nat, read: string) returns (r: Result<Option<Hit>>)
    requires s.Valid()
    modifies s
    ensures Progressed(s)
    ensures r == Ok(None) ==> Drained(s, read) && !old(Holds(s, read))
    ensures r.Ok? && r.value.Some? ==>
      && r.value.value.index == index && |r.value.value.record| >= 1 && r.value.value.record[0] == read
      && read != [] && s.Remaining() < old(s.Remaining())
    ensures r.Ok? && old(Holds(s, read)) ==> r == Ok(Some(Hit(index, old(s.record.value))))
    ensures s.released == old(s.released) + if r.Ok? && r.value.Some? then [r.value.value.record] else []
    ensures old(Drained(s, read)) ==> r == Ok(None) && s.record == old(s.record) && s.Closed == old(s.Closed)
    ensures r.Ok? ==> KeptSorted(s)
    ensures r.Ok? && r.value.Some? && old(Sorted(s)) ==> s.record.None? && s.prev == read
    ensures r == Ok(None) && old(s.record).None? && old(s.prev) == read && read != [] ==> Past(s, read)
  {
    var record := s.Record();
    if record.Err? {
      return Err(record.error);
    }
    if record.value.None? || record.value.value[0] != read {
      if record.value.Some? && old(s.record).None? && old(s.prev) == read && read != [] {
        AcceptOk(read, s.lines[old(s.pos)], old(s.pos) + 1);
        EqualOnlyIdentical(read, record.value.value[0]);
        LessIsBelow(read, record.value.value[0]);
      }
      return Ok(None);
    }
    s.Ratchet();
    return Ok(Some(Hit(index, record.value.value)));
  }

  /** The loop at bestbamhit.go:193-207: drain every stream in turn.  The
      hits come grouped by stream, in stream order: `groups[k]` is what
      stream `k` gave.  Afterwards no stream holds a record named `read`,
      and a stream that held one has given at least one hit and has less
      work left. */
  method Gather(scanners: seq<BamScanner>, ghost heads: seq<Option<string>>, read: string, ghost sorted: bool)
    returns (r: Result<seq<Hit>>, ghost groups: seq<seq<Hit>>)
    requires Streams(scanners) && |heads| == |scanners| && LowestOf(heads, read)
    requires forall k | 0 <= k < |scanners| :: HeadIs(scanners[k], heads[k])
    requires sorted ==> forall k | 0 <= k < |scanners| :: Sorted(scanners[k])
    modifies scanners
    ensures forall k {:trigger Progressed(scanners[k])} | 0 <= k < |scanners| :: Progressed(scanners[k])
    ensures r.Ok? ==> AllNamed(r.value, read) && forall a | 0 <= a < |r.value| :: r.value[a].index < |scanners|
    ensures r.Ok? ==> |groups| == |scanners| && r.value == Concat(groups)
    ensures r.Ok? ==> forall k {:trigger Collected(scanners[k], heads[k], read, groups[k], k, sorted)}
      | 0 <= k < |scanners| :: Collected(scanners[k], heads[k], read, groups[k], k, sorted)
  {
    var hits: seq<Hit> := [];
    groups := [];
    ghost var logs, rems := Logs(scanners), Rems(scanners);
    var i := 0;
    while i < |scanners|
      invariant GatheredTo(scanners, logs, rems, heads, read, groups, sorted, i)
      invariant AllNamed(hits, read) && forall a | 0 <= a < |hits| :: hits[a].index < i
      invariant hits == Concat(groups)
    {
      var more := GatherStep(scanners, heads, read, sorted, logs, rems, i, groups);
      if more.Err? {
        return Err(more.error), groups;
      }
      GatherMore(hits, groups, more.value, read, i);
      hits := hits + more.value;
      groups := groups + [more.value];
      i := i + 1;
    }
    forall k | 0 <= k < |scanners|
      ensures Collected(scanners[k], heads[k], read, groups[k], k, sorted)
    {
      assert Settled(scanners[k], logs[k], rems[k], heads[k], read, groups[k], k, sorted);
    }
    return Ok(hits), groups;
  }

  /** How far the gathering of `read` has got before stream `i`: the streams
      before it gave `groups` (`Settled`), and the others are as the
      gathering found them (`Waiting`), with released logs `logs` and work
      left `rems`. */
  ghost predicate GatheredTo(ss: seq<BamScanner>, logs: seq<seq<seq<string>>>, rems: seq<int>,
                             heads: seq<Option<string>>, read: string, groups: seq<seq<Hit>>, sorted: bool, i: nat)
    reads ss
  {
    && Distinct(ss) && |logs| == |ss| && |rems| == |ss| && |heads| == |ss| && i <= |ss| && |groups| == i
    && (forall k {:trigger Settled(ss[k], logs[k], rems[k], heads[k], read, groups[k], k, sorted)}
         | 0 <= k < i :: Settled(ss[k], logs[k], rems[k], heads[k], read, groups[k], k, sorted))
    && (forall k {:trigger Waiting(ss[k], logs[k], rems[k], heads[k], sorted)}
         | i <= k < |ss| :: Waiting(ss[k], logs[k], rems[k], heads[k], sorted))
  }

  /** One pass of the loop at bestbamhit.go:194-207, seen from all the
      streams: stream `i` is drained of `read` and the others are left as
      they were.  On an error every stream has still only progressed. */
  method GatherStep(scanners: seq<BamScanner>, ghost heads: seq<Option<string>>, read: string, ghost sorted: bool,
                    ghost logs: seq<seq<seq<string>>>, ghost rems: seq<int>, i: nat, ghost groups: seq<seq<Hit>>)
    returns (more: Result<seq<Hit>>)
    requires i < |scanners| && LowestOf(heads, read)
    requires GatheredTo(scanners, logs, rems, heads, read, groups, sorted, i)
    modifies scanners[i]
    ensures more.Err? ==> forall k | 0 <= k < |scanners| :: Worked(scanners[k], logs[k], rems[k])
    ensures more.Ok? ==>
      && AllNamed(more.value, read) && FromStream(more.value, i)
      && GatheredTo(scanners, logs, rems, heads, read, groups + [more.value], sorted, i + 1)
  {
    assert Waiting(scanners[i], logs[i], rems[i], heads[i], sorted);
    if sorted && heads[i] != Some(read) {
      PastOther(scanners[i], heads, read, i);
    }
    more := GatherFrom(scanners[i], i, read, heads[i], sorted);
    if more.Err? {
      forall k | 0 <= k < |scanners|
        ensures Worked(scanners[k], logs[k], rems[k])
      {
        if k < i {
          assert old(Settled(scanners[k], logs[k], rems[k], heads[k], read, groups[k], k, sorted));
        } else if k > i {
          assert old(Waiting(scanners[k], logs[k], rems[k], heads[k], sorted));
        }
      }
      return;
    }
    assert Settled(scanners[i], logs[i], rems[i], heads[i], read, more.value, i, sorted);
    assert forall k | 0 <= k < i :: (groups + [more.value])[k] == groups[k];
  }

  /** One pass of the loop at bestbamhit.go:191-207 on stream `s`, numbered
      `index`, whose head is `head`: drain it of `read`.  It gives exactly
      its records named `read`, and a stream that was in order and at or past
      `read` is left in order and past `read`. */
  method GatherFrom(s: BamScanner, index: nat, read: string, ghost head: Option<string>, ghost sorted: bool)
    returns (r: Result<seq<Hit>>)
    requires s.Valid() && HeadIs(s, head)
    requires sorted ==> Sorted(s) && (head == Some(read) || Past(s, read))
    modifies s
    ensures Progressed(s)
    ensures r.Ok? ==> Collected(s, head, read, r.value, index, sorted)
  {
    if sorted && head != Some(read) {
      PastDrained(s, read);
    }
    r := Drain(s, index, read);
  }

  /** What gathering `read` did to stream `s`, numbered `index`, whose head
      was `head`: it gave `group` (`GaveGroup`), shrank if `head` was `read`,
      and, if it was `sorted`, is now in order and past `read`. */
  twostate predicate Collected(s: BamScanner, head: Option<string>, new read: string, new group: seq<Hit>,
                               index: nat, sorted: bool)
    reads s
  {
    Settled(s, old(s.released), old(s.Remaining()), head, read, group, index, sorted)
  }

  /** `Collected`, given the stream's released log `log` and work left `rem`
      when the gathering began. */
  ghost predicate Settled(s: BamScanner, log: seq<seq<string>>, rem: int, head: Option<string>, read: string,
                          group: seq<Hit>, index: nat, sorted: bool)
    reads s
  {
    && Worked(s, log, rem)
    && GaveGroup(s, log, head, read, group, index)
    && (head == Some(read) ==> s.Remaining() < rem)
    && (sorted ==> ReadyAfter(s, Some(read)))
  }

  /** Stream `s` as the gathering found it: released `log`, with `rem`
      work left and head `head`, in order if `sorted`. */
  ghost predicate Waiting(s: BamScanner, log: seq<seq<string>>, rem: int, head: Option<string>, sorted: bool)
    reads s
  {
    s.Valid() && s.released == log && s.Remaining() == rem && HeadIs(s, head) && (sorted ==> Sorted(s))
  }

  /** The work left in each of the streams `ss`. */
  ghost function Rems(ss: seq<BamScanner>): (rems: seq<int>)
    reads ss
    ensures |rems| == |ss| && forall k | 0 <= k < |ss| :: rems[k] == ss[k].Remaining()
  {
    seq(|ss|, k requires 0 <= k < |ss| reads ss => ss[k].Remaining())
  }

  lemma GatherMore(hits: seq<Hit>, groups: seq<seq<Hit>>, more: seq<Hit>, read: string, i: nat)
    requires |groups| == i && hits == Concat(groups) && AllNamed(hits, read) && AllNamed(more, read)
    requires (forall a | 0 <= a < |hits| :: hits[a].index < i) && FromStream(more, i)
    ensures Concat(groups + [more]) == hits + more && (groups + [more])[..i] == groups
    ensures AllNamed(hits + more, read) && forall a | 0 <= a < |hits + more| :: (hits + more)[a].index < i + 1
    ensures forall k | 0 <= k < i :: (groups + [more])[k] == groups[k]
  {
    assert (groups + [more])[..i] == groups;
  }

  /** Every hit of `group` comes from stream `index`. */
  predicate FromStream(group: seq<Hit>, index: nat)
  {
    forall k | 0 <= k < |group| :: group[k].index == index
  }

  /** What `Drain` leaves of stream `s` and gives as `group`, since the start
      of the call. */
  twostate predicate DrainedFrom(s: BamScanner, new read: string, new group: seq<Hit>)
    reads s
  {
    && Drained(s, read) && AllNamed(group, read)
    && s.released == old(s.released) + Records(group)
    && (old(Holds(s, read)) ==> |group| >= 1 && s.Remaining() < old(s.Remaining()))
    && (old(Drained(s, read)) ==> group == [] && s.record == old(s.record) && s.Closed == old(s.Closed))
    && KeptSorted(s) && (old(Sorted(s)) && old(Holds(s, read)) ==> Past(s, read))
  }

  /** The records of `hits`, in order. */
  function Records(hits: seq<Hit>): seq<seq<string>>
  {
    seq(|hits|, k requires 0 <= k < |hits| => hits[k].record)
  }

  /** One more hit named `read` from stream `index` keeps the group so. */
  lemma DrainMore(log: seq<seq<string>>, hits: seq<Hit>, hit: Hit, read: string, index: nat)
    requires AllNamed(hits, read) && FromStream(hits, index) && |hits| >= 1
    requires |hit.record| >= 1 && hit.record[0] == read && hit.index == index
    ensures AllNamed(hits + [hit], read) && FromStream(hits + [hit], index) && (hits + [hit])[0] == hits[0]
    ensures log + Records(hits) + [hit.record] == log + Records(hits + [hit])
  {
    RecordsSnoc(log, hits, hit);
  }

  /** Releasing one more hit's record extends the log by that record. */
  lemma RecordsSnoc(log: seq<seq<string>>, hits: seq<Hit>, hit: Hit)
    ensures log + Records(hits) + [hit.record] == log + Records(hits + [hit])
  {
    assert Records(hits + [hit]) == Records(hits) + [hit.record];
  }

  function Concat(groups: seq<seq<Hit>>): seq<Hit>
  {
    if groups == [] then [] else Concat(groups[..|groups| - 1]) + groups[|groups| - 1]
  }

  /** A group's hits are all among the concatenation. */
  lemma {:induction false} ConcatHas(groups: seq<seq<Hit>>, k: nat)
    requires k < |groups|
    ensures |Concat(groups)| >= |groups[k]|
  {
    if k < |groups| - 1 {
      ConcatHas(groups[..|groups| - 1], k);
    }
  }

  lemma {:induction false} SumZeros(s: seq<nat>)
    requires forall k | 0 <= k < |s| :: s[k] == 0
    ensures Sum(s) == 0
  {
    if s != [] {
      SumZeros(s[..|s| - 1]);
    }
  }
}
