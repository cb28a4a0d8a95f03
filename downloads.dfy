/**
 * The decision `download_file` in scripts/download_pdfs.py makes before it
 * touches the network: skip a file already present with the expected size,
 * report in a dry run, or fetch (again). The fetch itself is a parameter of
 * the crawl; only the size check after it is modelled here.
 */
module Downloads {

  import opened Wrappers

  /** What the crawler says about an existing file it does not skip. */
  datatype Existing =
    | Absent                                  // no file at the destination
    | ExistsSizeUnknown(localSize: nat)       // remote size unknown; redownloading
    | ExistsSizeMismatch(localSize: nat, expectedSize: nat)

  /** The outcome of the decision. */
  datatype Action =
    | SkipExisting(size: nat)                              // `[SKIP]`: nothing else happens
    | ReportDryRun(existing: Existing, expected: Option<nat>) // `[DRY-RUN]`: nothing is written
    | Fetch(existing: Existing)                            // create the parent directory and download

  /**
   * The decision over the local file (`None` when it does not exist, else its
   * size), the size the server announced, and the dry-run flag.
   */
  function Decide(localSize: Option<nat>, expected: Option<nat>, dryRun: bool): (a: Action)
    ensures a.SkipExisting? <==> localSize.Some? && expected == localSize
    ensures a.Fetch? <==> !dryRun && !(localSize.Some? && expected == localSize)
    ensures a.ReportDryRun? ==> a.expected == expected
    ensures !a.SkipExisting? ==>
      (a.existing == Absent <==> localSize.None?) &&
      (a.existing.ExistsSizeUnknown? <==> localSize.Some? && expected.None?) &&
      (a.existing.ExistsSizeMismatch? <==> localSize.Some? && expected.Some? && localSize != expected)
    ensures a.SkipExisting? ==> a.size == localSize.value
    ensures a.ReportDryRun? || a.Fetch? ==>
      (a.existing.ExistsSizeUnknown? || a.existing.ExistsSizeMismatch? ==> a.existing.localSize == localSize.value) &&
      (a.existing.ExistsSizeMismatch? ==> a.existing.expectedSize == expected.value)
  {
    if localSize.Some? && expected == localSize then SkipExisting(localSize.value)
    else
      var existing :=
        match localSize
        case None => Absent
        case Some(size) => if expected.None? then ExistsSizeUnknown(size) else ExistsSizeMismatch(size, expected.value);
      if dryRun then ReportDryRun(existing, expected) else Fetch(existing)
  }

  /**
   * A file already present with the announced size is skipped whether or not
   * this is a dry run; otherwise a dry run and a real run note the same thing
   * about the existing file, and only the real run fetches.
   */
  lemma DryRunOnlyChangesTheLastStep(localSize: Option<nat>, expected: Option<nat>)
    ensures Decide(localSize, expected, true).SkipExisting? == Decide(localSize, expected, false).SkipExisting?
    ensures Decide(localSize, expected, true).SkipExisting? ==>
      Decide(localSize, expected, true) == Decide(localSize, expected, false)
    ensures !Decide(localSize, expected, true).SkipExisting? ==>
      Decide(localSize, expected, true) == ReportDryRun(Decide(localSize, expected, false).existing, expected)
  {
  }

  /** What the size check after a completed download reports. */
  datatype Downloaded =
    | Complete(size: nat)                            // `[DOWNLOADED]`
    | SizeMismatch(expectedSize: nat, size: nat)     // `[WARN] Downloaded size mismatch`

  /** The check after the body is copied: a warning only when a known expected size differs. */
  function CheckDownloaded(expected: Option<nat>, downloadedSize: nat): (r: Downloaded)
    ensures r.size == downloadedSize
    ensures r.SizeMismatch? <==> expected.Some? && expected.value != downloadedSize
    ensures r.SizeMismatch? ==> r.expectedSize == expected.value
  {
    if expected.Some? && downloadedSize != expected.value then SizeMismatch(expected.value, downloadedSize)
    else Complete(downloadedSize)
  }
}
