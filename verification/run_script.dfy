/** `main()` of the orchestrator: check that the data files exist, validate
    them, organize them when the flags and the verdict allow it, write the
    report, and choose the exit code. */
module DataScript {
  import opened Wrappers
  import opened Text
  import opened Issues
  import opened FileHandler
  import opened DataValidation
  import opened DataReport
  import opened OrganizeData

  /** The files `main` looks for, in order. */
  const DataFiles: seq<string> := [AreasFile, FormatsFile, GlossaryFile]

  /** The code passed to `process.exit` and the files and log left behind. */
  datatype Exit = Exit(code: int, disk: Disk)

  predicate AllPresent(files: map<string, Contents>)
  {
    forall k :: 0 <= k < |DataFiles| ==> DataFiles[k] in files
  }

  /** `organizeAllData()` is called: no `--validate-only`, and a valid
      verdict or `--force`. */
  predicate OrganizeRuns(v: Validation, argv: seq<string>)
  {
    "--validate-only" !in argv && (v.valid || "--force" in argv)
  }

  /** What `main()` does with the arguments `argv`. Every exception lands
      in the final `catch`, which exits with 1. */
  function RunScript(disk: Disk, argv: seq<string>, urlOk: string -> bool, numeric: (string, string) -> int,
                     plain: (string, string) -> int, now: string): (r: Exit)
    ensures r.code == 0 || r.code == 1
  {
    if !AllPresent(disk.files) then Exit(1, disk)
    else
      var v := ValidateAll(disk.files, urlOk);
      var organized := if OrganizeRuns(v, argv) then Organize(disk, numeric, plain, now) else Effect(Ok(false), disk);
      if organized.result.Throws? then Exit(1, organized.disk)
      else
        var report := GenerateReportEffect(organized.disk, v, now);
        if report.result.Throws? then Exit(1, report.disk)
        else Exit(if v.valid then 0 else 1, report.disk)
  }

  /** A missing data file ends the run with 1 before anything is written. */
  lemma RunMissingFile(disk: Disk, argv: seq<string>, urlOk: string -> bool, numeric: (string, string) -> int,
                       plain: (string, string) -> int, now: string, d: Dataset)
    requires PathOf(d) !in disk.files
    ensures RunScript(disk, argv, urlOk, numeric, plain, now) == Exit(1, disk)
  {
    assert PathOf(d) == DataFiles[Rank(d)];
  }

  /** The run exits with 0 exactly when the files exist, they are valid,
      and organizing, when it runs, does not throw. */
  lemma RunExitCode(disk: Disk, argv: seq<string>, urlOk: string -> bool, numeric: (string, string) -> int,
                    plain: (string, string) -> int, now: string)
    ensures var v := ValidateAll(disk.files, urlOk);
      RunScript(disk, argv, urlOk, numeric, plain, now).code == 0
      <==> && AllPresent(disk.files)
           && v.valid
           && (OrganizeRuns(v, argv) ==> Organize(disk, numeric, plain, now).result.Ok?)
  {
    hide Organize, ValidateAll;
    var v := ValidateAll(disk.files, urlOk);
    if AllPresent(disk.files) && v.valid {
      ValidReports(disk.files, urlOk, now);
    }
  }

  /** When organizing does not run, the data files are as they were. */
  lemma RunKeepsData(disk: Disk, argv: seq<string>, urlOk: string -> bool, numeric: (string, string) -> int,
                     plain: (string, string) -> int, now: string, d: Dataset)
    requires !OrganizeRuns(ValidateAll(disk.files, urlOk), argv)
    ensures var files := RunScript(disk, argv, urlOk, numeric, plain, now).disk.files;
      (PathOf(d) in files <==> PathOf(d) in disk.files)
      && (PathOf(d) in disk.files ==> files[PathOf(d)] == disk.files[PathOf(d)])
  {
    hide Organize, ValidateAll, ReportLines;
    assert PathOf(d) != ReportFile;
  }

  /** When organizing runs, the data files are as `organizeAllData()` left
      them: the report does not touch them. */
  lemma RunOrganizes(disk: Disk, argv: seq<string>, urlOk: string -> bool, numeric: (string, string) -> int,
                     plain: (string, string) -> int, now: string, d: Dataset)
    requires AllPresent(disk.files) && OrganizeRuns(ValidateAll(disk.files, urlOk), argv)
    ensures var files := RunScript(disk, argv, urlOk, numeric, plain, now).disk.files;
      var organized := Organize(disk, numeric, plain, now).disk.files;
      PathOf(d) in organized && PathOf(d) in files && files[PathOf(d)] == organized[PathOf(d)]
  {
    hide ValidateAll, ReportLines;
    OrganizeOutcome(disk, numeric, plain, now);
    assert PathOf(d) == DataFiles[Rank(d)] && PathOf(d) != ReportFile;
  }

  /** Unless a step before it throws, the run writes the report's lines,
      joined by newlines, to the report file; a valid run always does. */
  lemma RunWritesReport(disk: Disk, argv: seq<string>, urlOk: string -> bool, numeric: (string, string) -> int,
                        plain: (string, string) -> int, now: string)
    requires AllPresent(disk.files)
    requires var v := ValidateAll(disk.files, urlOk);
      (OrganizeRuns(v, argv) ==> Organize(disk, numeric, plain, now).result.Ok?)
    requires ValidateAll(disk.files, urlOk).valid || ReportLines(ValidateAll(disk.files, urlOk), now).Ok?
    ensures var v := ValidateAll(disk.files, urlOk);
      var files := RunScript(disk, argv, urlOk, numeric, plain, now).disk.files;
      && ReportLines(v, now).Ok?
      && ReportFile in files && files[ReportFile] == Text(Join(ReportLines(v, now).value, "\n"))
  {
    hide Organize, ValidateAll, ReportLines;
    if ValidateAll(disk.files, urlOk).valid {
      ValidReports(disk.files, urlOk, now);
    }
  }

  method Run(store: FileStore, argv: seq<string>, urlOk: string -> bool, numeric: (string, string) -> int,
             plain: (string, string) -> int, now: string) returns (code: int)
    modifies store
    ensures Exit(code, store.State()) == RunScript(old(store.State()), argv, urlOk, numeric, plain, now)
  {
    hide Organize, ValidateAll, ReportLines, GenerateReportEffect;
    for k := 0 to |DataFiles|
      invariant forall m :: 0 <= m < k ==> DataFiles[m] in store.files
    {
      if !store.Exists(DataFiles[k]) {
        return 1;
      }
    }
    var v := ValidateAllData(store, urlOk);
    if "--validate-only" !in argv && (v.valid || "--force" in argv) {
      var organized := OrganizeAllData(store, numeric, plain, now);
      if organized.Throws? {
        return 1;
      }
    }
    var report := GenerateReport(store, v, now);
    if report.Throws? {
      return 1;
    }
    code := if v.valid then 0 else 1;
  }
}
