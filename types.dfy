/** Shared result types: the Go code returns `(value, error)` pairs and, in a few
    places, aborts the whole process through `log.Fatal`. */
module Types {

  datatype Option<+T> = None | Some(value: T)

  /** Every error the modelled core can raise.  All of them end the run. */
  datatype Error =
    | EmptyRecord                        // a whitespace-only line (bam.go:164-166)
    | SortOrderViolated(line: int)       // a name that sorts below its predecessor (bam.go:172-175)
    | Aborted                            // `log.Fatal` inside `digitToInt` (compare.go:9-14)
    | BadInteger(field: string)          // a fixed numeric column that `strconv.Atoi` rejects (bam.go:53-64)
    | BadTag(field: string)              // an optional field whose value is not an integer (bam.go:65-69)
    | BadCigarFragment(code: string)     // a CIGAR count `strconv.Atoi` rejects (bam.go:84-87)
    | TooFewFields                       // `extract` on fewer than 15 columns (bestbamhit.go:57-59)
    | ShortEditTag(tag: string)          // column 14 shorter than 5 bytes: `edit_tag[:5]` panics (bestbamhit.go:62)
    | MalformedEditTag(tag: string)      // column 14 is not an `nM:i:` tag (bestbamhit.go:62-64)
    | BadEditDistance(tag: string)       // the `nM:i:` value is not an integer (bestbamhit.go:65-68)

  datatype Result<+T> = Ok(value: T) | Err(error: Error)
}
