# bestbamhit in Dafny

`bestbamhit` reads several alignment files. Each is sorted by read name and
arrives as the text lines `samtools view` prints. For every read it keeps the
single best alignment across all files and counts where that alignment came
from. This project models the program's core and proves properties about it:

- **`strnum_cmp`** (compare.go) is the natural-order comparator on read names
  that samtools sorts by. `Compare.NaturalCompare` states it token by token.
  `Compare.StrnumCmp` is the Go loop nest itself, and it is proved to compute
  `NaturalCompare`.
  - The result is a sign: `Less`, `Equal` or `Greater`.
  - A fourth outcome, `Abort`, stands for the `log.Fatal` inside `digitToInt`.
  - The ordering laws are proved on `NaturalCompare`.
  - `Tokens` gives a strict order that every `Less` answer respects. The
    comparator is not transitive where it aborts, so the running minimum over
    the streams relies on this order instead.
- **`BamScanner`** (bam.go) is a one-record lookahead cursor over the lines of
  one stream. It is a class, and the line source is a sequence of lines.
  - `Record` pulls and buffers the next line and checks the sort order.
  - `Ratchet` releases the buffered record.
  - `Find` skips ahead to a name.
  - A ghost field `released` logs the records `Ratchet` has released, in
    order. The scanner's invariant (`Bam.Faithful`) says that the released
    records, then the buffered one, are exactly what `Accept` makes of the
    lines read so far (`Bam.Pulled`). So no record is lost or repeated, and
    every contract that speaks of `released` says which records of the
    stream a call consumed.
- **`BamRecord.Load`** (bam.go) parses the fixed SAM columns, the `AS`, `HI`
  and `nM` tags, and the `M` counts of the CIGAR string. It is a class, with
  one method per stage. Each method is specified by a function of the old
  field values (`Bam.LoadInto`).
- **The processing loop of `main`** (bestbamhit.go:144-270) becomes the class
  `BestHit.Merger`. Its fields are the counters, the per-source `counts` array
  and the lines written to the keep file.
  - `MergeStep` runs one pass. It finds the lowest head name (`Lowest`),
    drains every stream's records with that name (`Gather`, `Drain`), and
    hands them to `Count`.
  - `Fetch` reports which records each stream gave (`BestHit.Grouped`): the
    records named after the lowest head, appended to that stream's log, and
    nothing else.
  - `Count` picks the best hit (`SelectBest`, which relies on `TiedBest`) and
    counts the read (`Classify`).
  - `Run` is the whole loop, including the `-limit` check. Each pass after
    that check is `Advance`, which calls `MergeStep` and keeps the ghost list
    of counted names in step with the records released.
  - `Merger.Valid` is the invariant every pass keeps:
    `found == ercc + tooDiverged + tooShort + Sum(counts)` and
    `multi <= found <= totalMappings`.

Go's `(value, error)` returns become `Result`/`Option` values, and every
error path of the core is modelled. Go `int` is modelled as an unbounded
integer. `Text.Atoi` fails where `strconv.Atoi` does. It also returns the
value Go returns alongside the error: 0 for a syntax error, and `MaxInt64`
or `MinInt64` for a number out of range. A digit prefix that overflows 64
unsigned bits counts as out of range even when a non-digit follows it, as in
Go.

## Model

| member | source | states |
|---|---|---|
| `Compare.DigitToInt` | compare.go:9-14 | Succeeds exactly when `strconv.Atoi` does, with its value; `None` is the `log.Fatal` path |
| `Compare.StrnumCmp` | compare.go:18-75 | The Go loop nest returns exactly `NaturalCompare(a, b)`, including `Abort` |
| `Compare.CompareRunsAt` | compare.go:24-60 | The zero-skipping and matching-digit loops at an aligned digit run return the `RunOrder` of the two maximal runs; on `Equal` both indices land just past the runs |
| `Compare.DecideRuns` | compare.go:39-60 | Where the inner loops stopped: a longer remaining run wins; equal-length runs compare by value; exhausted runs with different zero counts put more zeros first; together this is `RunOrder` of the runs |
| `Compare.CompareTails` | compare.go:39-50 | The `k` loop: runs of different lengths order by length; equal-length runs order by the sign of their numeric difference, and abort when a run exceeds 64 bits |
| `Compare.SubtractRuns` | compare.go:49 | `digitToInt(x) - digitToInt(y)` has the sign of `Value(x) - Value(y)`, and aborts when either value exceeds `MaxInt64` |
| `Compare.Reflexive` | compare.go:23-74 | `strnum_cmp(a, a)` is `Equal` and never aborts |
| `Compare.Antisymmetric` | compare.go:44-74 | Swapping the arguments flips the sign; an abort happens in both directions |
| `Compare.EqualOnlyIdentical` | compare.go:55-74 | A result of 0 happens exactly for identical names |
| `Compare.TransitiveLess` | compare.go:18-75 | `a < b` and `b < c` give `a < c` whenever the comparison of `a` and `c` does not abort |
| `Compare.InOrderTransitive` | compare.go:18-75 | "Not greater" chains the same way, so a stream that passes the order check pair by pair is ordered throughout |
| `Compare.LongerRunGreater` | compare.go:39-54 | At aligned digit runs after equal text, the run with more significant digits sorts greater (`read2 < read10`), whatever follows |
| `Compare.LargerNumberGreater` | compare.go:41-49 | Aligned runs with the same number of significant digits: the larger number sorts greater (below the 64-bit limit) |
| `Compare.RunOrderLessKey` | compare.go:39-60 | Away from `Abort`, one run is below another exactly when its key (significant length, value, minus leading zeros) is lexicographically smaller |
| `Compare.MoreZerosFirst` | compare.go:55-60 | Aligned runs that spell the same number: the one with more leading zeros sorts first (`x007 < x7`, `x00 < x0`) |
| `Compare.PrefixFirst` | compare.go:69-74 | A proper prefix sorts first whenever the longer name does not continue a digit run that ends the prefix. Where it does, the two runs decide instead; that reverses the order only when both runs are all zeros (`x0` sorts after `x00`, by `MoreZerosFirst`) |
| `Compare.MismatchAborts` | compare.go:61-63 | Different characters outside aligned digit runs give `Abort`: at least one is a non-digit, and `digitToInt` of that character fails |
| `Compare.CommonTextSkipped` | compare.go:61-67 | Equal leading text that does not end inside a digit run does not change the result |
| `Tokens.LessIsBelow` | compare.go:18-75 | Every `Less` answer is a strict step down in the token order |
| `Tokens.NoLessCycle` | bestbamhit.go:177-183 | No chain of `Less` answers returns to its start, even where the comparison of its ends aborts |
| `Tokens.TokenOrderTotal` | compare.go:18-75 | Of two different names, one lies below the other in the token order |
| `Tokens.TokenizeInjective` | compare.go:18-75 | Names with the same tokens are the same name |
| `Text.TrimSpaceEmpty` | bam.go:162-166 | A line trims to "" exactly when it consists only of white space |
| `Text.JoinSplit` | bam.go:167 | Splitting on tabs loses nothing: joining the fields gives the trimmed line back |
| `Text.SplitJoin` | bam.go:167 | Splitting undoes joining fields that contain no tab |
| `Text.SplitFirstNonEmpty` | bam.go:167-171 | A line that does not start with a tab has a non-empty first field |
| `Text.AtoiDigits` | compare.go:9-14 | On a run of ASCII digits, `Atoi` succeeds exactly when the value fits in 64 bits, and then returns that value |
| `Text.AtoiStops` | bam.go:52-64 | For unsigned text, the first non-digit ends the conversion with a failure. The value returned is 0, or `MaxInt64` when the digits before it already exceed 64 unsigned bits; `ParseIntegers` stores that value |
| `Text.AtoiOneChar` | compare.go:62-63 | `Atoi` of one character succeeds exactly for a digit |
| `Text.AtoiItoa` | bestbamhit.go:65 | Formatting and then parsing returns every 64-bit integer unchanged |
| `Text.Utf8LenBounds` | bestbamhit.go:60 | A string's byte length lies between its length in characters and four times that length, and equals it for ASCII text |
| `Cigar.MatchesAreCodes` | bam.go:43 | Every match of `[0-9][0-9]*[A-Z]` is a digit count followed by one upper-case letter |
| `Cigar.MatchesEncode` | bam.go:80 | Scanning a CIGAR string spelled from operations finds exactly those operations' codes, in order |
| `Cigar.AccumulateEncode` | bam.go:80-90 | On a spelled CIGAR string whose counts fit in 64 bits, the loop adds exactly the `M` counts to the running total |
| `Bam.AcceptOk` | bam.go:162-178 | A pulled line is accepted exactly when it is not blank and its name does not sort below `prev`. The record is the trimmed line split on tabs, it joins back to the line, and its non-empty name becomes `prev` |
| `Bam.AcceptBuffersNamedRecord` | bam.go:167-171 | Whatever happens, a buffered record has a non-empty name |
| `Bam.AcceptBlank` | bam.go:162-166 | A whitespace-only line is exactly the "empty BAM record" error; nothing is buffered and `prev` is kept |
| `Bam.AcceptRejectsOutOfOrder` | bam.go:171-175 | A name below `prev` gives the sort-order error with the current line number, stays buffered, and leaves `prev` unchanged |
| `Bam.BamScanner.Record` | bam.go:151-179 | Releases nothing. A buffered record is returned unchanged without reading. An exhausted source sets `Closed` and returns nothing. Otherwise exactly the next line is read, its outcome is `Accept` of that line after the lines before it, and `LineNumber` grows by one |
| `Bam.BamScanner.ScanLine` | bam.go:162-178 | Reads exactly one line. The buffered record, the new `prev` and the result are what `Accept` makes of it with the old `prev` and the new line number; a buffered record has a non-empty name. On success the new name becomes `prev`, and `strnum_cmp` does not put it below the old `prev` |
| `Bam.PulledNext` | bam.go:151-179 | Reading one more line extends the records the lines yield by what `Accept` buffers for it, and moves `prev` to what `Accept` leaves |
| `Bam.BamScanner.Ratchet` | bam.go:181-183 | Appends the buffered record, if any, to the released log, clears the buffer and changes nothing else |
| `Bam.BamScanner.Find` | bam.go:120-149 | The records it releases are, in order, the skipped ones, each with a name other than `read` that sorts below it, then the returned record, named `read`. So the returned record is the first record of the stream named `read`, and no record is dropped. Otherwise the source is exhausted, or the next record, left buffered, sorts above `read`. A closed scanner is left untouched |
| `Bam.BamScanner.FindStep` | bam.go:122-147 | One pass of the search. It ends the search, having released exactly the returned record or nothing. Otherwise it releases exactly one record, which sorts below `read`, and leaves less work |
| `Bam.ScanTagsOk` | bam.go:65-69 | The tag loop fails exactly when some optional field's value is not an integer, and then with `BadTag` of the first such field |
| `Bam.ScanTagsLastWins` | bam.go:65-78 | Each stored tag holds the value of the last field that carries its prefix |
| `Bam.ScanTagsKeeps` | bam.go:70-77 | A tag that no field carries keeps its earlier value; other prefixes are ignored |
| `Bam.ScanTagsStops` | bam.go:65-69 | After a tag error, later fields change nothing |
| `Bam.AccumulateStops` | bam.go:84-87 | After a CIGAR count error, later codes change nothing |
| `Bam.AccumulateOk` | bam.go:80-90 | The CIGAR loop fails exactly on an `M` count above `MaxInt64`, and never lowers the total |
| `Bam.LoadOk` | bam.go:45-93 | `Load` succeeds exactly when the four integer columns, every optional field's value and every `M` count parse. On success the columns are copied and parsed, the tags are set, and `MatchLength` grows by the `M` counts rather than being reset |
| `Bam.BamRecord.Load` | bam.go:45-93 | The new field values and the returned error are `LoadInto` of the old field values and the record |
| `Bam.BamRecord.CopyColumns` | bam.go:46-51 | The six text columns are copied and nothing else changes |
| `Bam.BamRecord.ParseIntegers` | bam.go:52-64 | Flag, pos, mapq and pnext are parsed in turn. Each receives what `Atoi` returned, even on failure, and the first failure stops the load |
| `Bam.BamRecord.LoadTags` | bam.go:65-78 | The optional fields set the stored tags, as `ScanTags` says |
| `Bam.BamRecord.LoadCigar` | bam.go:80-90 | `MatchLength` grows by the `M` counts of the CIGAR matches, or stops at a bad count |
| `BestHit.ExtractOk` | bestbamhit.go:56-70 | `extract` succeeds exactly on rows with at least 15 columns whose column 14 is `nM:i:` followed by a 64-bit integer. The match length is the byte length of the sequence column, not anything read from the CIGAR string |
| `BestHit.ExtractRoundTrip` | bestbamhit.go:56-70 | A row written with sequence `sq` and edit tag `nM:i:<d>` reads back as `(len(sq), d)` |
| `BestHit.ScoreHit` | bestbamhit.go:217-221 | One hit's score, or the error `extract` gives for it |
| `BestHit.TiedBest` | bestbamhit.go:214-233 | Succeeds exactly when every hit extracts, and otherwise returns the first hit's error. On success it holds, in increasing order, exactly the indices of the highest-scoring hits, and is non-empty for non-empty input |
| `BestHit.Track` | bestbamhit.go:222-232 | One step of the tie tracking preserves the invariant that `which` holds exactly the positions of the highest score so far |
| `BestHit.SpansSources` | bestbamhit.go:238-246 | True exactly when some tied hit comes from a source other than the first tied hit's |
| `BestHit.MixedBestIsSpanned` | bestbamhit.go:236-246 | Comparing each tie with the first one finds another source exactly when two best hits come from different sources |
| `BestHit.ClassificationOrder` | bestbamhit.go:250-269 | The outcomes are exclusive and checked in order: `ERCC` wins over everything; an edit distance equal to `-max-dist` passes; a length equal to `-min-len` passes; every other hit is accepted |
| `BestHit.KeepLine` | bestbamhit.go:266 | A keep line is the read name, a tab, the source label and a newline |
| `BestHit.Merger.constructor` | bestbamhit.go:144-150 | Every counter starts at zero and `counts` holds one zero per source |
| `BestHit.Merger.SelectBest` | bestbamhit.go:234-249 | The chosen hit is among the best. `multi` grows by one exactly when two best hits come from different sources, and not at all on an error |
| `BestHit.Merger.Classify` | bestbamhit.go:250-270 | Exactly one of `ercc`, `tooDiverged`, `tooShort` and `counts[source]` grows, as `Classification` says, and `found` grows by one. An accepted hit adds one keep line. An `extract` error changes no counter |
| `BestHit.Merger.Credit` | bestbamhit.go:264-267 | The source's count and the sum of all counts grow by one, and the keep file gains the read's line when one is kept |
| `BestHit.Merger.Count` | bestbamhit.go:211-270 | `totalMappings` grows by the group size. The read is counted exactly when every hit extracts. Then a best hit (`IsBest`) was chosen, and the counters moved exactly as its `Classification` says (`Chose`, `CountedAs`): `found` and one class counter grow by one, an accepted hit also credits its source and the keep file. `multi` grows by one exactly when two best hits come from different sources. An error changes no counter |
| `BestHit.Merger.MergeStep` | bestbamhit.go:164-270 | Keeps the invariant. `Ok(false)` means every stream is exhausted and nothing changed. `Ok(true)` means the streams gave exactly the records named after the lowest head (`Grouped`), `totalMappings` grew by their number, a best hit among them was counted as `Count` says, and less work is left. If the streams were in order and past the previous read (`Ahead`), the new read lies above that read in the token order, and every stream is left in order and past the new read. An error leaves `found` as it was. Every stream's released log only grows, and stays as it was when every stream is exhausted |
| `BestHit.Merger.Run` | bestbamhit.go:155-271 | The loop terminates and keeps the counter invariant. It never counts past a positive `-limit` it started at or below. Without an error it stops because `found` reached that limit or every stream is exhausted. The ghost `names` holds one name per read found. Each stream's released log only grows, and every name in `names` is the name of a record some stream released during the run (`Traced`). Without an error, every record released during the run is named in `names` (`Covered`). When the streams start in order (as fresh scanners are), `names` is strictly ascending in the token order, hence pairwise distinct (`AscendingDistinct`), so no read is grouped and counted twice. A run that ends without an error also leaves every stream in order and past the last name |
| `BestHit.Lowest` | bestbamhit.go:164-190 | Every stream's head is pulled without releasing or skipping a record (`Peeked`). The result is `None` exactly when all streams are exhausted, and otherwise one of the head names, with no head below it in the token order. Streams that were in order and past the previous read `last` stay in order, and every head lies above `last` |
| `BestHit.Visit` | bestbamhit.go:168-183 | One stream's pass of the minimum search: its head is pulled without releasing or skipping a record, and the running minimum stays the minimum of the heads seen so far. It stays empty exactly while every stream seen so far is exhausted. A stream in order and past `last` stays in order, and its head lies above `last` |
| `BestHit.LowestIsLowest` | bestbamhit.go:167-187 | The selected name is empty exactly when every stream is exhausted, and `strnum_cmp` puts no open stream's head below it |
| `BestHit.Head` | bestbamhit.go:168-175 | A stream's head name, or `None` once it is closed; a head name is never empty. It releases nothing, keeps a buffered record, and otherwise reads at most one line, whose record it buffers; a stream in order stays in order |
| `BestHit.Lower` | bestbamhit.go:177-183 | The first name is taken as it is. After that a name replaces the minimum exactly when `strnum_cmp` says `Less`, and an abort is an error. The running minimum stays the minimum of the names seen |
| `BestHit.Fetch` | bestbamhit.go:164-210 | Either every stream is exhausted and nothing was released, or it returns a non-empty group of records named after the lowest head (`LowestOf`). Stream by stream, the group is exactly the records that stream released during the call, in order; a stream gave records exactly when its head had that name, and a stream with another head keeps it. No stream still holds the name, and less work is left. If every stream was in order and past the previous read `last`, the new read lies above `last` and every stream is left in order and past the new read. Every stream's released log only grows |
| `BestHit.Drain` | bestbamhit.go:195-206 | The hits are exactly the records the stream released during the call, in order, all named `read`. It stops at another name, which stays buffered, or at the end. A stream that held the name yields at least that record, first; a stream that did not is left as it was. A stream in order that held the name is left in order and past it |
| `BestHit.Take` | bestbamhit.go:196-205 | The stream's head record, consumed, when it is named `read`: the buffered one when there is one, with less work left. The released log grows by exactly the returned record. Otherwise nothing is released, and the stream no longer holds `read`; a stream already past `read` is left as it was. A stream in order keeps its `prev` the name of its buffered record; once it has released `read` and stops at another name, it is past `read` |
| `BestHit.Gather` | bestbamhit.go:193-207 | Drains every stream in index order; the hits are the streams' groups concatenated in that order, each group exactly what its stream released (`Collected`). Afterwards no stream holds a record named `read`, a stream that held one has less work left, and streams that were in order are left in order and past `read` |
| `BestHit.Merger.Advance` | bestbamhit.go:164-270 | One pass after the limit check, with the ghost names counted so far. It keeps the invariant, never adds work, and counts exactly one read when it returns `Ok(true)` (with less work left), none otherwise; `Ok(false)` means every stream is exhausted. The names grow by one exactly when a read is counted. Every counted name stays the name of a released record (`Traced`); without an error every released record stays named (`Covered`). Names that were ascending, with the streams past the last of them, stay so |
| `BestHit.GatherStep` | bestbamhit.go:194-207 | One pass of the gathering loop seen from all streams: stream `i` gives exactly the records it released, all named `read`, and the streams after it are as the gathering found them (`GatheredTo`). On an error every stream is still valid, with no more work and a released log that has only grown |
| `BestHit.GatherFrom` | bestbamhit.go:195-206 | One stream's pass of the gathering loop: it gives exactly the records it released, all named `read`, and no longer holds `read`. A stream in order and at or past `read` is left in order and past `read` |
| `BestHit.Collect` | bestbamhit.go:191-210 | With `read` the lowest head, the hits are non-empty, the first one named `read`, grouped by stream as `Grouped` says, and less work is left. Streams that were in order are left in order and past `read`. Every stream's released log only grows |
| `BestHit.PastOther` | bestbamhit.go:177-194 | A stream whose head is not the lowest name is exhausted or has a head above it in the token order |
| `BestHit.PastDrained` | bestbamhit.go:200-202 | A stream past `read` yields no record named `read`, so the gathering loop leaves it untouched |
| `BestHit.AscendingSnoc` | bestbamhit.go:164-207 | A name above the last of an ascending list of reads extends the list in ascending order |
| `BestHit.AscendingDistinct` | bestbamhit.go:164-207 | Reads taken in ascending token order are pairwise distinct |
| `BestHit.ClosedAhead` | bestbamhit.go:185-187 | Exhausted streams are in order and past any read, so the order facts survive the end of the loop |
| `BestHit.GroupedTook` | bestbamhit.go:192-207 | A pass that gathered hits released at least one record, and only records named `read` |
| `BestHit.CountedStep` | bestbamhit.go:192-270 | Counting `read` after a pass that released only records named `read` keeps both directions: every counted name was released, and every released record is counted |
| `BestHit.TracedGrows` | bestbamhit.go:192-207 | Further releases (as on the error path) keep every counted name released |

## Left out

- Digits are ASCII only. `unicode.IsDigit` also accepts other Unicode decimal
  digits, which `strconv.Atoi` then rejects. `unicode.IsSpace` is modelled in
  full.
- The `-edit-penalty` flag is a `float64` in the program; here it is an
  integer, so scores are exact integers. The tie logic does not depend on
  floating point, but ties that rounding would create or break are not
  captured.
- `rand.Intn(len(which_best))` becomes a caller-supplied number reduced
  modulo the number of ties. `Merger.Run` takes a function that gives the
  draw for the n-th read.
- The subprocess and pipe plumbing is not part of this model: `OpenBam`,
  `ReadBamHeader`, `Done`, `BamWriter` and the `sync.WaitGroup`. Each stream
  is a sequence of lines.
- `bufio.Scanner` read errors (bam.go:156-158) are not modelled: a sequence
  of lines cannot fail to read.
- Not modelled: flag parsing, the logger, JSON argument logging, timing,
  progress messages, the gzip or plain keep-file writer and the final
  summary. The keep file is the sequence of lines written to it.
- Go `int` arithmetic on the counters and on `MatchLength` does not wrap
  here; with 64-bit counters that would take more than 2^63 alignments.
- Go slicing panics are not modelled as crashes:
  - `edit_tag[:5]` on a short column 14 in `extract` is the `ShortEditTag`
    error.
  - `Load`'s slicing of fewer than 11 columns, or of optional fields shorter
    than 5 bytes, is the `Loadable` precondition of `Bam.LoadInto` and
    `Bam.BamRecord.Load`.
- `Bam.ScanTags` and `Bam.Loadable` slice optional fields at 5 characters.
  Go slices at 5 bytes. The two agree when the first five characters are
  ASCII, which holds for every SAM tag prefix.
- Three error checks cannot fire, and their branches are omitted:
  - the "empty record" check after `strings.Split` (bam.go:168-170);
  - "Failed to find read" (bestbamhit.go:188-190);
  - "No hits" (bestbamhit.go:208-210).

  Their absence is justified by `Text.SplitFirstNonEmpty`,
  `Bam.AcceptBuffersNamedRecord` and `BestHit.Fetch`.
- `BestHit.Lowest`: the minimum is stated in the token order (`LowestOf`) and
  in `strnum_cmp` terms by `BestHit.LowestIsLowest`. The comparator is not
  transitive where it aborts, so "below no other head by `strnum_cmp`" is
  the strongest form of minimum it admits.
- `BestHit.Merger.constructor` requires `keeping ==> |labels| >= |scanners|`,
  and `Merger.Tallied` keeps it as an invariant. This rules out the index panic that `labels[...]` raises at bestbamhit.go:266
  and bestbamhit.go:286 when fewer labels than input files are given.
- `BestHit.Merger.Run`: a run that stops on an error is described by the
  invariant it keeps, the `-limit` bound, the reads it counted and their
  order, and the fact that every counted read was released. It does not
  promise that such a run counted every record it released, or that the
  streams are still in order: the failing pass may already have released
  records, and a sort-order error leaves the offending record buffered
  with the older `prev`. The Go
  program prints the error and exits. The order of the counted reads is
  stated in the token order, not by `strnum_cmp`, which is not transitive
  where it aborts; a stream out of order stops the run with the sort-order
  error before its record can be counted.
- `Compare.StrnumCmp` returns the sign of the Go result, not the difference
  of the parsed numbers: callers only test the sign.
