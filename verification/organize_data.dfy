/** `organizeAllData()` of the orchestrator: load the three data files,
    ask each sorter whether its file is in order, and for each file that is
    not, back it up, sort it and save it. */
module OrganizeData {
  import opened Wrappers
  import opened JsonValues
  import opened Issues
  import opened FileHandler
  import opened Sorters
  import opened Sorting
  import opened DataValidation

  /** The order the datasets are loaded, checked and organized in. */
  const Order: seq<Dataset> := [AreasData, FormatsData, GlossaryData]

  /** The position of `d` in `Order`. */
  function Rank(d: Dataset): (r: nat)
    ensures r < |Order| && Order[r] == d
  {
    match d
    case AreasData => 0
    case FormatsData => 1
    case GlossaryData => 2
  }

  function SorterOf(d: Dataset): Sorter
  {
    match d
    case AreasData => AreaSorter
    case FormatsData => FormatSorter
    case GlossaryData => GlossarySorter
  }

  /** The document `loadJSON` reads for `d`. */
  function Input(files: map<string, Contents>, d: Dataset): Outcome<Json>
  {
    LoadJson(files, PathOf(d))
  }

  /** `isXSorted` on the loaded document of `d`. */
  function Checked(files: map<string, Contents>, d: Dataset, plain: (string, string) -> int): Outcome<bool>
  {
    match Input(files, d)
    case Throws(e) => Throws(e)
    case Ok(v) => IsSortedResult(SorterOf(d), v, plain)
  }

  /** The check found `d` out of order. */
  predicate NeedsSort(files: map<string, Contents>, d: Dataset, plain: (string, string) -> int)
  {
    Checked(files, d, plain) == Ok(false)
  }

  /** What `sortX` makes of the loaded document of `d`. */
  function SortedOf(files: map<string, Contents>, d: Dataset, numeric: (string, string) -> int): Outcome<seq<Json>>
    requires Input(files, d).Ok?
  {
    Sort(SorterOf(d), Input(files, d).value, numeric)
  }

  /** `d` is out of order and its sort throws. */
  predicate SortFails(files: map<string, Contents>, d: Dataset, numeric: (string, string) -> int,
                      plain: (string, string) -> int)
  {
    NeedsSort(files, d, plain) && SortedOf(files, d, numeric).Throws?
  }

  /** The three loads, then the three checks, each rethrowing the first
      error. */
  function Prepare(files: map<string, Contents>, plain: (string, string) -> int): (r: Outcome<()>)
    ensures r.Ok? <==> Checked(files, AreasData, plain).Ok? && Checked(files, FormatsData, plain).Ok?
                       && Checked(files, GlossaryData, plain).Ok?
  {
    var a, f, g := Input(files, AreasData), Input(files, FormatsData), Input(files, GlossaryData);
    if a.Throws? then Throws(a.error)
    else if f.Throws? then Throws(f.error)
    else if g.Throws? then Throws(g.error)
    else
      var ca, cf, cg := Checked(files, AreasData, plain), Checked(files, FormatsData, plain),
                        Checked(files, GlossaryData, plain);
      if ca.Throws? then Throws(ca.error)
      else if cf.Throws? then Throws(cf.error)
      else if cg.Throws? then Throws(cg.error)
      else Ok(())
  }

  /** One `if (!xAlreadySorted)` block: back the file up, sort the loaded
      document and save it over the file. A throw keeps the backup made
      before it. */
  function OrganizeOne(disk: Disk, d: Dataset, data: Json, numeric: (string, string) -> int, now: string): (r: Effect<()>)
  {
    match BackupIn(disk, PathOf(d), now)
    case Throws(e) => Effect(Throws(e), disk)
    case Ok(b) =>
      match Sort(SorterOf(d), data, numeric)
      case Throws(e) => Effect(Throws(e), b.1)
      case Ok(sorted) => Effect(Ok(()), SaveIn(b.1, PathOf(d), Data(JArr(sorted))))
  }

  /** The block of `d` run after the blocks before it left `e`; the result
      is `anyChanges`. */
  function Block(e: Effect<bool>, files: map<string, Contents>, d: Dataset, numeric: (string, string) -> int,
                 plain: (string, string) -> int, now: string): Effect<bool>
    requires Checked(files, d, plain).Ok?
  {
    if e.result.Throws? || !NeedsSort(files, d, plain) then e
    else
      var one := OrganizeOne(e.disk, d, Input(files, d).value, numeric, now);
      Effect(if one.result.Throws? then Throws(one.result.error) else Ok(true), one.disk)
  }

  /** The blocks of the first `k` datasets of `Order`. */
  function BlocksUpTo(disk: Disk, k: nat, numeric: (string, string) -> int, plain: (string, string) -> int,
                      now: string): Effect<bool>
    requires k <= |Order| && Prepare(disk.files, plain).Ok?
  {
    if k == 0 then Effect(Ok(false), disk)
    else Block(BlocksUpTo(disk, k - 1, numeric, plain, now), disk.files, Order[k - 1], numeric, plain, now)
  }

  /** What `organizeAllData()` returns or throws, and the files and log it
      leaves. */
  function Organize(disk: Disk, numeric: (string, string) -> int, plain: (string, string) -> int,
                    now: string): (r: Effect<bool>)
  {
    match Prepare(disk.files, plain)
    case Throws(e) => Effect(Throws(e), disk)
    case Ok(_) => BlocksUpTo(disk, |Order|, numeric, plain, now)
  }

  // ---------------------------------------------------------------- paths

  /** A backup is never one of the data files. */
  lemma BackupIsNotData(d: Dataset, e: Dataset, now: string)
    ensures BackupPath(PathOf(d), now) != PathOf(e)
  {
    assert |PathOf(e)| <= 22 && |PathOf(d)| >= 19;
  }

  /** The backups of two data files are two files. */
  lemma BackupsDiffer(d: Dataset, e: Dataset, now: string)
    requires d != e
    ensures BackupPath(PathOf(d), now) != BackupPath(PathOf(e), now)
  {
    var p, q := PathOf(d), PathOf(e);
    assert p[9] != q[9];
    assert BackupPath(p, now)[9] == p[9] && BackupPath(q, now)[9] == q[9];
  }

  // ---------------------------------------------------------------- one block

  /** A block throws exactly when it follows a throw or the sort of its
      dataset, out of order, throws; `anyChanges` is set when the dataset
      was out of order. A block removes no file. */
  lemma BlockOutcome(e: Effect<bool>, files: map<string, Contents>, x: Dataset, numeric: (string, string) -> int,
                     plain: (string, string) -> int, now: string)
    requires Checked(files, x, plain).Ok? && PathOf(x) in e.disk.files
    ensures var r := Block(e, files, x, numeric, plain, now);
      && (r.result.Throws? <==> e.result.Throws? || SortFails(files, x, numeric, plain))
      && (r.result.Ok? ==> (r.result.value <==> e.result.value || NeedsSort(files, x, plain)))
      && e.disk.files.Keys <= r.disk.files.Keys
  {
  }

  // ---------------------------------------------------------------- the blocks

  /** The blocks throw exactly when the sort of a dataset out of order
      throws; otherwise `anyChanges` says whether some dataset was out of
      order. No file disappears. */
  lemma {:induction false} BlocksOutcome(disk: Disk, k: nat, numeric: (string, string) -> int,
                                         plain: (string, string) -> int, now: string)
    requires k <= |Order| && Prepare(disk.files, plain).Ok?
    ensures var r := BlocksUpTo(disk, k, numeric, plain, now);
      && (r.result.Throws? <==> exists m :: 0 <= m < k && SortFails(disk.files, Order[m], numeric, plain))
      && (r.result.Ok? ==> (r.result.value <==> exists m :: 0 <= m < k && NeedsSort(disk.files, Order[m], plain)))
      && disk.files.Keys <= r.disk.files.Keys
  {
    hide Block, Checked, SortedOf;
    if k > 0 {
      var e := BlocksUpTo(disk, k - 1, numeric, plain, now);
      CheckedWasLoaded(disk.files, Order[k - 1], plain);
      BlocksOutcome(disk, k - 1, numeric, plain, now);
      BlockOutcome(e, disk.files, Order[k - 1], numeric, plain, now);
    }
  }

  /** A path that is neither a data file nor the backup of one. */
  predicate Unrelated(p: string, now: string)
  {
    forall d :: p != PathOf(d) && p != BackupPath(PathOf(d), now)
  }

  /** The copy and the write the block of `d` logs. */
  function EventsOf(files: map<string, Contents>, d: Dataset, numeric: (string, string) -> int,
                    plain: (string, string) -> int, now: string): seq<Event>
    requires Checked(files, d, plain).Ok?
  {
    if !NeedsSort(files, d, plain) then []
    else
      var sorted := SortedOf(files, d, numeric);
      [Copied(PathOf(d), BackupPath(PathOf(d), now))]
        + (if sorted.Ok? then [Wrote(PathOf(d), Data(JArr(sorted.value)))] else [])
  }

  /** The events of the first `k` datasets, in order. */
  function Planned(files: map<string, Contents>, k: nat, numeric: (string, string) -> int,
                   plain: (string, string) -> int, now: string): seq<Event>
    requires k <= |Order| && Prepare(files, plain).Ok?
  {
    if k == 0 then [] else Planned(files, k - 1, numeric, plain, now) + EventsOf(files, Order[k - 1], numeric, plain, now)
  }

  /** A dataset that was checked was loaded from its file. */
  lemma CheckedWasLoaded(files: map<string, Contents>, d: Dataset, plain: (string, string) -> int)
    requires Checked(files, d, plain).Ok?
    ensures PathOf(d) in files && Input(files, d).Ok?
  {
  }

  /** A block after a throw, or for a dataset in order, changes nothing. */
  lemma BlockSkips(e: Effect<bool>, files: map<string, Contents>, x: Dataset, numeric: (string, string) -> int,
                   plain: (string, string) -> int, now: string)
    requires Checked(files, x, plain).Ok? && (e.result.Throws? || !NeedsSort(files, x, plain))
    ensures Block(e, files, x, numeric, plain, now) == e
  {
  }

  /** A block changes no path but its data file and that file's backup. */
  lemma BlockKeeps(e: Effect<bool>, files: map<string, Contents>, x: Dataset, numeric: (string, string) -> int,
                   plain: (string, string) -> int, now: string, p: string)
    requires Checked(files, x, plain).Ok? && PathOf(x) in e.disk.files
    requires p != PathOf(x) && p != BackupPath(PathOf(x), now)
    ensures var after := Block(e, files, x, numeric, plain, now).disk.files;
      && (p in after <==> p in e.disk.files)
      && (p in e.disk.files ==> after[p] == e.disk.files[p])
  {
  }

  /** A block that runs and does not throw saves the sorted document over
      its data file and keeps the file's previous contents in the backup. */
  lemma BlockWrites(e: Effect<bool>, files: map<string, Contents>, x: Dataset, numeric: (string, string) -> int,
                    plain: (string, string) -> int, now: string)
    requires Checked(files, x, plain).Ok? && PathOf(x) in e.disk.files
    requires e.result.Ok? && NeedsSort(files, x, plain)
    requires Block(e, files, x, numeric, plain, now).result.Ok?
    ensures var after := Block(e, files, x, numeric, plain, now).disk.files;
      && SortedOf(files, x, numeric).Ok?
      && PathOf(x) in after && after[PathOf(x)] == Data(JArr(SortedOf(files, x, numeric).value))
      && BackupPath(PathOf(x), now) in after && after[BackupPath(PathOf(x), now)] == e.disk.files[PathOf(x)]
  {
    BackupIsNotData(x, x, now);
  }

  /** A block that does not throw logs its planned events. */
  lemma BlockLogs(e: Effect<bool>, files: map<string, Contents>, x: Dataset, numeric: (string, string) -> int,
                  plain: (string, string) -> int, now: string)
    requires Checked(files, x, plain).Ok? && PathOf(x) in e.disk.files
    requires Block(e, files, x, numeric, plain, now).result.Ok?
    ensures e.result.Ok?
    ensures Block(e, files, x, numeric, plain, now).disk.log == e.disk.log + EventsOf(files, x, numeric, plain, now)
  {
  }

  /** After the blocks of the first `k` datasets ran normally, the file of
      each of them that was out of order holds its sorted document; every
      other data file is as it was. */
  lemma {:induction false} BlocksData(disk: Disk, k: nat, numeric: (string, string) -> int,
                                      plain: (string, string) -> int, now: string, d: Dataset)
    requires k <= |Order| && Prepare(disk.files, plain).Ok?
    requires BlocksUpTo(disk, k, numeric, plain, now).result.Ok?
    ensures var files := BlocksUpTo(disk, k, numeric, plain, now).disk.files;
      && PathOf(d) in disk.files && PathOf(d) in files
      && (Rank(d) < k && NeedsSort(disk.files, d, plain) ==>
            SortedOf(disk.files, d, numeric).Ok? && files[PathOf(d)] == Data(JArr(SortedOf(disk.files, d, numeric).value)))
      && (!(Rank(d) < k && NeedsSort(disk.files, d, plain)) ==> files[PathOf(d)] == disk.files[PathOf(d)])
  {
    hide Block, Checked, SortedOf;
    CheckedWasLoaded(disk.files, d, plain);
    if k > 0 {
      var e := BlocksUpTo(disk, k - 1, numeric, plain, now);
      var x := Order[k - 1];
      CheckedWasLoaded(disk.files, x, plain);
      BlocksOutcome(disk, k - 1, numeric, plain, now);
      BlockLogs(e, disk.files, x, numeric, plain, now);
      BlocksData(disk, k - 1, numeric, plain, now, d);
      if x == d && NeedsSort(disk.files, d, plain) {
        BlockWrites(e, disk.files, x, numeric, plain, now);
      } else if NeedsSort(disk.files, x, plain) {
        BackupIsNotData(x, d, now);
        BlockKeeps(e, disk.files, x, numeric, plain, now, PathOf(d));
      } else {
        BlockSkips(e, disk.files, x, numeric, plain, now);
      }
    }
  }

  /** After the blocks of the first `k` datasets ran normally, the backup
      of each of them that was out of order holds its file's original
      contents. */
  lemma {:induction false} BlocksBackup(disk: Disk, k: nat, numeric: (string, string) -> int,
                                        plain: (string, string) -> int, now: string, d: Dataset)
    requires k <= |Order| && Prepare(disk.files, plain).Ok?
    requires BlocksUpTo(disk, k, numeric, plain, now).result.Ok?
    requires Rank(d) < k && NeedsSort(disk.files, d, plain)
    ensures var files := BlocksUpTo(disk, k, numeric, plain, now).disk.files;
      BackupPath(PathOf(d), now) in files && files[BackupPath(PathOf(d), now)] == disk.files[PathOf(d)]
  {
    hide Block, Checked, SortedOf;
    var e := BlocksUpTo(disk, k - 1, numeric, plain, now);
    var x := Order[k - 1];
    CheckedWasLoaded(disk.files, x, plain);
    BlocksOutcome(disk, k - 1, numeric, plain, now);
    BlockLogs(e, disk.files, x, numeric, plain, now);
    if x == d {
      BlocksData(disk, k - 1, numeric, plain, now, d);
      BlockWrites(e, disk.files, x, numeric, plain, now);
    } else {
      BlocksBackup(disk, k - 1, numeric, plain, now, d);
      BackupsDiffer(d, x, now);
      BackupIsNotData(d, x, now);
      BlockKeeps(e, disk.files, x, numeric, plain, now, BackupPath(PathOf(d), now));
    }
  }

  /** The blocks leave every unrelated path as it was, whether they throw
      or not. */
  lemma {:induction false} BlocksOthers(disk: Disk, k: nat, numeric: (string, string) -> int,
                                        plain: (string, string) -> int, now: string, p: string)
    requires k <= |Order| && Prepare(disk.files, plain).Ok? && Unrelated(p, now)
    ensures var files := BlocksUpTo(disk, k, numeric, plain, now).disk.files;
      && (p in files <==> p in disk.files)
      && (p in disk.files ==> files[p] == disk.files[p])
  {
    hide Block, Checked, SortedOf;
    if k > 0 {
      var e := BlocksUpTo(disk, k - 1, numeric, plain, now);
      var x := Order[k - 1];
      CheckedWasLoaded(disk.files, x, plain);
      BlocksOutcome(disk, k - 1, numeric, plain, now);
      BlocksOthers(disk, k - 1, numeric, plain, now, p);
      BlockKeeps(e, disk.files, x, numeric, plain, now, p);
    }
  }

  /** The blocks log, after what was there, the events planned for the
      datasets out of order and nothing else. */
  lemma {:induction false} BlocksLog(disk: Disk, k: nat, numeric: (string, string) -> int,
                                     plain: (string, string) -> int, now: string)
    requires k <= |Order| && Prepare(disk.files, plain).Ok?
    requires BlocksUpTo(disk, k, numeric, plain, now).result.Ok?
    ensures BlocksUpTo(disk, k, numeric, plain, now).disk.log == disk.log + Planned(disk.files, k, numeric, plain, now)
  {
    hide Block, Checked, SortedOf, EventsOf, Prepare, Input;
    if k > 0 {
      var e := BlocksUpTo(disk, k - 1, numeric, plain, now);
      var x := Order[k - 1];
      var before := Planned(disk.files, k - 1, numeric, plain, now);
      var events := EventsOf(disk.files, x, numeric, plain, now);
      assert BlocksUpTo(disk, k, numeric, plain, now) == Block(e, disk.files, x, numeric, plain, now);
      assert Planned(disk.files, k, numeric, plain, now) == before + events;
      hide BlocksUpTo, Planned;
      CheckedWasLoaded(disk.files, x, plain);
      BlocksOutcome(disk, k - 1, numeric, plain, now);
      BlockLogs(e, disk.files, x, numeric, plain, now);
      BlocksLog(disk, k - 1, numeric, plain, now);
      assert (disk.log + before) + events == disk.log + (before + events);
    } else {
      assert disk.log + [] == disk.log;
    }
  }

  /** With every dataset in order, the blocks change nothing. */
  lemma {:induction false} BlocksIdle(disk: Disk, k: nat, numeric: (string, string) -> int,
                                      plain: (string, string) -> int, now: string)
    requires k <= |Order| && Prepare(disk.files, plain).Ok?
    requires forall m :: 0 <= m < k ==> !NeedsSort(disk.files, Order[m], plain)
    ensures BlocksUpTo(disk, k, numeric, plain, now) == Effect(Ok(false), disk)
  {
    hide Block, Checked;
    if k > 0 {
      BlocksIdle(disk, k - 1, numeric, plain, now);
      BlockSkips(Effect(Ok(false), disk), disk.files, Order[k - 1], numeric, plain, now);
    }
  }

  /** Once a block throws, the later blocks change nothing. */
  lemma {:induction false} BlocksSettle(disk: Disk, m: nat, n: nat, numeric: (string, string) -> int,
                                        plain: (string, string) -> int, now: string)
    requires m <= n <= |Order| && Prepare(disk.files, plain).Ok?
    requires BlocksUpTo(disk, m, numeric, plain, now).result.Throws?
    ensures BlocksUpTo(disk, n, numeric, plain, now) == BlocksUpTo(disk, m, numeric, plain, now)
    decreases n
  {
    hide Block, Checked;
    if n > m {
      BlocksSettle(disk, m, n - 1, numeric, plain, now);
      BlockSkips(BlocksUpTo(disk, n - 1, numeric, plain, now), disk.files, Order[n - 1], numeric, plain, now);
    }
  }

  // ---------------------------------------------------------------- organizeAllData

  /** `organizeAllData()` throws exactly when a file does not load, a check
      throws, or the sort of a dataset out of order throws; the loads and
      checks come before any change. Otherwise it returns whether some
      dataset was out of order. */
  lemma OrganizeOutcome(disk: Disk, numeric: (string, string) -> int, plain: (string, string) -> int, now: string)
    ensures var r := Organize(disk, numeric, plain, now);
      && (r.result.Throws? <==> (exists d :: Checked(disk.files, d, plain).Throws?)
                                || (exists d :: SortFails(disk.files, d, numeric, plain)))
      && (Prepare(disk.files, plain).Throws? ==> r.disk == disk)
      && (r.result.Ok? ==> (r.result.value <==> exists d :: NeedsSort(disk.files, d, plain)))
      && disk.files.Keys <= r.disk.files.Keys
  {
    hide Checked, SortedOf, BlocksUpTo;
    var files := disk.files;
    if Prepare(files, plain).Ok? {
      BlocksOutcome(disk, |Order|, numeric, plain, now);
      forall d | SortFails(files, d, numeric, plain) || NeedsSort(files, d, plain)
        ensures 0 <= Rank(d) < |Order| && Order[Rank(d)] == d
      {
      }
      assert forall d :: Checked(files, d, plain).Ok? by {
        forall d ensures Checked(files, d, plain).Ok? {
          assert d == AreasData || d == FormatsData || d == GlossaryData;
        }
      }
    } else {
      assert Checked(files, AreasData, plain).Throws? || Checked(files, FormatsData, plain).Throws?
             || Checked(files, GlossaryData, plain).Throws?;
    }
  }

  /** After `organizeAllData()` returns, the file of each dataset that was
      out of order holds its sorted document and its backup the original
      contents; the file of each dataset in order is as it was. */
  lemma OrganizeFiles(disk: Disk, numeric: (string, string) -> int, plain: (string, string) -> int, now: string,
                      d: Dataset)
    requires Organize(disk, numeric, plain, now).result.Ok?
    ensures var files := Organize(disk, numeric, plain, now).disk.files;
      && PathOf(d) in disk.files && PathOf(d) in files
      && (NeedsSort(disk.files, d, plain) ==>
            && SortedOf(disk.files, d, numeric).Ok?
            && files[PathOf(d)] == Data(JArr(SortedOf(disk.files, d, numeric).value))
            && BackupPath(PathOf(d), now) in files
            && files[BackupPath(PathOf(d), now)] == disk.files[PathOf(d)])
      && (!NeedsSort(disk.files, d, plain) ==> files[PathOf(d)] == disk.files[PathOf(d)])
  {
    hide Checked, SortedOf, BlocksUpTo;
    BlocksData(disk, |Order|, numeric, plain, now, d);
    if NeedsSort(disk.files, d, plain) {
      BlocksBackup(disk, |Order|, numeric, plain, now, d);
    }
  }

  /** `organizeAllData()` leaves every path that is neither a data file nor
      a backup of one as it was, whether it throws or not. */
  lemma OrganizeOthers(disk: Disk, numeric: (string, string) -> int, plain: (string, string) -> int, now: string,
                       p: string)
    requires Unrelated(p, now)
    ensures var files := Organize(disk, numeric, plain, now).disk.files;
      && (p in files <==> p in disk.files)
      && (p in disk.files ==> files[p] == disk.files[p])
  {
    hide Checked, SortedOf, BlocksUpTo;
    if Prepare(disk.files, plain).Ok? {
      BlocksOthers(disk, |Order|, numeric, plain, now, p);
    }
  }

  /** After `organizeAllData()` returns, the log holds, after what was
      there, a copy then a write for each dataset out of order, in the
      order areas, formats, glossary. */
  lemma OrganizeLog(disk: Disk, numeric: (string, string) -> int, plain: (string, string) -> int, now: string)
    requires Organize(disk, numeric, plain, now).result.Ok?
    ensures Organize(disk, numeric, plain, now).disk.log == disk.log + Planned(disk.files, |Order|, numeric, plain, now)
  {
    hide Checked, SortedOf, BlocksUpTo;
    BlocksLog(disk, |Order|, numeric, plain, now);
  }

  /** With every dataset already in order, `organizeAllData()` changes
      nothing and returns false. */
  lemma OrganizeIdle(disk: Disk, numeric: (string, string) -> int, plain: (string, string) -> int, now: string)
    requires forall d :: Checked(disk.files, d, plain) == Ok(true)
    ensures Organize(disk, numeric, plain, now) == Effect(Ok(false), disk)
  {
    hide Checked, BlocksUpTo;
    assert Checked(disk.files, AreasData, plain).Ok? && Checked(disk.files, FormatsData, plain).Ok?
           && Checked(disk.files, GlossaryData, plain).Ok?;
    BlocksIdle(disk, |Order|, numeric, plain, now);
  }

  /** The check's comparator accepts every pair the sort's comparator
      accepts. */
  ghost predicate Agrees(numeric: (string, string) -> int, plain: (string, string) -> int)
  {
    forall a, b :: numeric(a, b) <= 0 ==> plain(a, b) <= 0
  }

  /** When the check's comparator agrees with the sort's, a second run of
      `organizeAllData()` finds every dataset in order and changes
      nothing. */
  lemma OrganizeSettles(disk: Disk, numeric: (string, string) -> int, plain: (string, string) -> int,
                        now: string, later: string)
    requires Organize(disk, numeric, plain, now).result.Ok? && Asymmetric(numeric) && Agrees(numeric, plain)
    ensures var after := Organize(disk, numeric, plain, now).disk;
      Organize(after, numeric, plain, later) == Effect(Ok(false), after)
  {
    var after := Organize(disk, numeric, plain, now).disk;
    OrganizeOutcome(disk, numeric, plain, now);
    forall d ensures Checked(after.files, d, plain) == Ok(true) {
      OrganizeFiles(disk, numeric, plain, now, d);
      assert Checked(disk.files, d, plain).Ok?;
      if NeedsSort(disk.files, d, plain) {
        CheckAfterSort(SorterOf(d), Input(disk.files, d).value, numeric, plain);
        assert Input(after.files, d) == Ok(JArr(SortedOf(disk.files, d, numeric).value));
        assert Checked(after.files, d, plain) == Ok(true);
      } else {
        assert Input(after.files, d) == Input(disk.files, d);
        assert Checked(after.files, d, plain) == Checked(disk.files, d, plain);
        assert Checked(disk.files, d, plain).value;
      }
    }
    OrganizeIdle(after, numeric, plain, later);
  }

  // ---------------------------------------------------------------- the code

  /** One `if (!xAlreadySorted)` block. */
  method OrganizeDataset(store: FileStore, d: Dataset, data: Json, numeric: (string, string) -> int, now: string)
    returns (r: Outcome<()>)
    modifies store
    ensures Effect(r, store.State()) == OrganizeOne(old(store.State()), d, data, numeric, now)
  {
    var backup := store.CreateBackup(PathOf(d), now);
    if backup.Throws? {
      return Throws(backup.error);
    }
    var sorted := Sort(SorterOf(d), data, numeric);
    if sorted.Throws? {
      return Throws(sorted.error);
    }
    store.Save(PathOf(d), Data(JArr(sorted.value)));
    r := Ok(());
  }

  /** The block of the dataset at position `k`, run after the blocks before
      it returned normally with `anyChanges` as `changed`. */
  method OrganizeBlock(store: FileStore, ghost start: Disk, k: nat, data: Json, alreadySorted: bool, changed: bool,
                       numeric: (string, string) -> int, plain: (string, string) -> int, now: string)
    returns (r: Outcome<bool>)
    requires k < |Order| && Prepare(start.files, plain).Ok?
    requires Effect(Ok(changed), store.State()) == BlocksUpTo(start, k, numeric, plain, now)
    requires Input(start.files, Order[k]) == Ok(data) && Checked(start.files, Order[k], plain) == Ok(alreadySorted)
    modifies store
    ensures Effect(r, store.State()) == BlocksUpTo(start, k + 1, numeric, plain, now)
  {
    hide Checked;
    assert BlocksUpTo(start, k + 1, numeric, plain, now)
           == Block(Effect(Ok(changed), store.State()), start.files, Order[k], numeric, plain, now);
    r := Ok(changed);
    if !alreadySorted {
      var one := OrganizeDataset(store, Order[k], data, numeric, now);
      if one.Throws? {
        return Throws(one.error);
      }
      r := Ok(true);
    }
  }

  method OrganizeAllData(store: FileStore, numeric: (string, string) -> int, plain: (string, string) -> int,
                         now: string) returns (r: Outcome<bool>)
    modifies store
    ensures Effect(r, store.State()) == Organize(old(store.State()), numeric, plain, now)
  {
    hide Block, OrganizeOne, SortedOf;
    ghost var start := store.State();
    var areas := store.Load(AreasFile);
    if areas.Throws? {
      return Throws(areas.error);
    }
    var formats := store.Load(FormatsFile);
    if formats.Throws? {
      return Throws(formats.error);
    }
    var glossary := store.Load(GlossaryFile);
    if glossary.Throws? {
      return Throws(glossary.error);
    }
    var areasSorted := IsSorted(AreaSorter, areas.value, plain);
    if areasSorted.Throws? {
      return Throws(areasSorted.error);
    }
    var formatsSorted := IsSorted(FormatSorter, formats.value, plain);
    if formatsSorted.Throws? {
      return Throws(formatsSorted.error);
    }
    var glossarySorted := IsSorted(GlossarySorter, glossary.value, plain);
    if glossarySorted.Throws? {
      return Throws(glossarySorted.error);
    }
    assert Prepare(start.files, plain).Ok?;
    var anyChanges := false;
    var step := OrganizeBlock(store, start, 0, areas.value, areasSorted.value, anyChanges, numeric, plain, now);
    if step.Throws? {
      BlocksSettle(start, 1, |Order|, numeric, plain, now);
      return step;
    }
    anyChanges := step.value;
    step := OrganizeBlock(store, start, 1, formats.value, formatsSorted.value, anyChanges, numeric, plain, now);
    if step.Throws? {
      BlocksSettle(start, 2, |Order|, numeric, plain, now);
      return step;
    }
    anyChanges := step.value;
    step := OrganizeBlock(store, start, 2, glossary.value, glossarySorted.value, anyChanges, numeric, plain, now);
    if step.Throws? {
      return step;
    }
    anyChanges := step.value;
    r := Ok(anyChanges);
  }
}
