/** The catalog loader (`formatLoader.ts`). The module map that the bundler
    builds from the format files is the input `modules`, in its iteration
    order; a module without a record is `None`. `localeCompare` is the
    comparator `cmp` and `toLowerCase` the function `lower`. */
module FormatLoader {
  import opened Wrappers
  import opened Seqs
  import opened Sorting
  import opened Catalog
  import opened RankedSearch
  import opened SimpleSearch

  /** The records kept by the loop: present, with a non-empty extension. */
  function Loaded(modules: seq<Option<FileFormat>>): seq<FileFormat>
  {
    if modules == [] then []
    else
      var m := modules[|modules| - 1];
      Loaded(modules[..|modules| - 1]) + (if m.Some? && m.value.extension != "" then [m.value] else [])
  }

  function ByExtension(cmp: (string, string) -> int): (FileFormat, FileFormat) -> int
  {
    (a: FileFormat, b: FileFormat) => cmp(a.extension, b.extension)
  }

  /** What `loadAllFormats()` returns. */
  function AllFormats(cmp: (string, string) -> int, modules: seq<Option<FileFormat>>): seq<FileFormat>
  {
    SortBy(Loaded(modules), ByExtension(cmp))
  }

  method LoadAllFormats(cmp: (string, string) -> int, modules: seq<Option<FileFormat>>) returns (formats: seq<FileFormat>)
    ensures formats == AllFormats(cmp, modules)
  {
    formats := [];
    for i := 0 to |modules|
      invariant formats == Loaded(modules[..i])
    {
      assert modules[..i + 1][..i] == modules[..i];
      var data := modules[i];
      if data.Some? && data.value.extension != "" {
        formats := formats + [data.value];
      }
    }
    assert modules[..|modules|] == modules;
    formats := SortBy(formats, ByExtension(cmp));
  }

  /** The loop keeps a record as often as the map holds it with a non-empty
      extension. */
  lemma {:induction false} LoadedCount(modules: seq<Option<FileFormat>>, f: FileFormat)
    ensures multiset(Loaded(modules))[f] == if f.extension != "" then multiset(modules)[Some(f)] else 0
  {
    if modules != [] {
      LoadedCount(modules[..|modules| - 1], f);
      assert modules == modules[..|modules| - 1] + [modules[|modules| - 1]];
    }
  }

  /** Exactly the records with an extension, each as often as it occurs,
      ordered by extension. */
  lemma AllFormatsSpec(cmp: (string, string) -> int, modules: seq<Option<FileFormat>>)
    ensures var r := AllFormats(cmp, modules);
      && (forall f :: multiset(r)[f] == if f.extension != "" then multiset(modules)[Some(f)] else 0)
      && (forall f :: f in r <==> Some(f) in modules && f.extension != "")
      && (Asymmetric(cmp) ==> Sorted(r, ByExtension(cmp)))
  {
    var r := AllFormats(cmp, modules);
    forall f: FileFormat ensures multiset(r)[f] == if f.extension != "" then multiset(modules)[Some(f)] else 0 {
      LoadedCount(modules, f);
    }
    forall f: FileFormat ensures f in r <==> Some(f) in modules && f.extension != "" {
      LoadedCount(modules, f);
      assert f in r <==> multiset(r)[f] > 0;
      assert Some(f) in modules <==> multiset(modules)[Some(f)] > 0;
    }
    if Asymmetric(cmp) {
      var kept := Loaded(modules);
      forall a, b | a in kept && b in kept && ByExtension(cmp)(a, b) > 0 ensures ByExtension(cmp)(b, a) <= 0 {
        assert cmp(a.extension, b.extension) > 0;
      }
      SortBySorted(kept, ByExtension(cmp));
    }
  }

  /** `.replace(/^\./, '')`: at most one leading dot goes. */
  function StripDot(s: string): (r: string)
    ensures s == r || s == "." + r
  {
    if |s| > 0 && s[0] == '.' then s[1..] else s
  }

  /** `formats.find(...)` from position `k` on. */
  function FindFrom(lower: string -> string, formats: seq<FileFormat>, target: string, k: nat): Option<FileFormat>
    requires k <= |formats|
    decreases |formats| - k
  {
    if k == |formats| then None
    else if lower(formats[k].extension) == target then Some(formats[k])
    else FindFrom(lower, formats, target, k + 1)
  }

  /** `loadFormatByExtension(extension)`. */
  function FormatByExtension(lower: string -> string, cmp: (string, string) -> int, modules: seq<Option<FileFormat>>,
                             extension: string): Option<FileFormat>
  {
    FindFrom(lower, AllFormats(cmp, modules), StripDot(lower(extension)), 0)
  }

  lemma {:induction false} FindFromSpec(lower: string -> string, formats: seq<FileFormat>, target: string, k: nat)
    requires k <= |formats|
    ensures var r := FindFrom(lower, formats, target, k);
      && (r.None? <==> forall i :: k <= i < |formats| ==> lower(formats[i].extension) != target)
      && (r.Some? ==> exists i :: k <= i < |formats| && formats[i] == r.value
                       && lower(formats[i].extension) == target
                       && forall j :: k <= j < i ==> lower(formats[j].extension) != target)
    decreases |formats| - k
  {
    if k < |formats| && lower(formats[k].extension) != target {
      FindFromSpec(lower, formats, target, k + 1);
    }
  }

  /** The first loaded format whose lowercased extension is the lowercased
      query without its leading dot; `None` when there is none. */
  lemma FormatByExtensionSpec(lower: string -> string, cmp: (string, string) -> int, modules: seq<Option<FileFormat>>,
                              extension: string)
    ensures var formats := AllFormats(cmp, modules);
      var target := StripDot(lower(extension));
      var r := FormatByExtension(lower, cmp, modules, extension);
      && (r.None? <==> forall i :: 0 <= i < |formats| ==> lower(formats[i].extension) != target)
      && (r.Some? ==> exists i :: 0 <= i < |formats| && formats[i] == r.value
                       && lower(formats[i].extension) == target
                       && forall j :: 0 <= j < i ==> lower(formats[j].extension) != target)
  {
    FindFromSpec(lower, AllFormats(cmp, modules), StripDot(lower(extension)), 0);
  }

  /** `getAreasFromFormats()`: the loaded formats, their area names once
      each, sorted. */
  method AreasFromFormats(cmp: (string, string) -> int, modules: seq<Option<FileFormat>>) returns (areas: seq<string>)
    ensures areas == UniqueAreasSorted(cmp, AllFormats(cmp, modules))
  {
    var formats := LoadAllFormats(cmp, modules);
    var seen := UniqueAreas(formats);
    areas := SortBy(seen, cmp);
  }

  /** The names are distinct and sorted, and they are the area names of
      the loaded records; records without areas add nothing. */
  lemma AreasFromFormatsSpec(cmp: (string, string) -> int, modules: seq<Option<FileFormat>>)
    ensures var r := UniqueAreasSorted(cmp, AllFormats(cmp, modules));
      && Distinct(r)
      && (forall a :: a in r <==> exists f :: Some(f) in modules && f.extension != "" && a in f.area)
      && (Asymmetric(cmp) ==> Sorted(r, cmp))
  {
    var formats := AllFormats(cmp, modules);
    UniqueAreasSortedSpec(cmp, formats);
    AllFormatsSpec(cmp, modules);
  }
}
