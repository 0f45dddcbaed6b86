/** The three sorters. `sortAreas` and `isAreasSorted` key on `name`,
    `sortFormats` and `isFormatsSorted` on `extension`, `sortGlossary` and
    `isGlossarySorted` on `term`; otherwise the three files are the same
    code. `localeCompare` with the pt-BR collation is not modelled: the sort
    takes it as the comparator `numeric` (`numeric: true`) and the check as
    the comparator `plain` (the default options), two separate parameters. */
module Sorters {
  import opened Wrappers
  import opened JsonValues
  import opened Sorting

  datatype Sorter = AreaSorter | FormatSorter | GlossarySorter
  {
    /** The property the records are ordered by. */
    function Key(): string
    {
      match this
      case AreaSorter => "name"
      case FormatSorter => "extension"
      case GlossarySorter => "term"
    }

    /** The message of the error thrown for a non-array. */
    function NotArrayMessage(): string
    {
      match this
      case AreaSorter => "Areas deve ser um array"
      case FormatSorter => "Formats deve ser um array"
      case GlossarySorter => "Glossary deve ser um array"
    }

    /** The variables on which `localeCompare` is called in the sort's
        comparator and in the check's loop. */
    function FirstName(): string
    {
      match this
      case AreaSorter => "nameA"
      case FormatSorter => "extA"
      case GlossarySorter => "termA"
    }

    function PrevName(): string
    {
      match this
      case AreaSorter => "prevName"
      case FormatSorter => "prevExt"
      case GlossarySorter => "prevTerm"
    }
  }

  /** `rec[key] || ''`. */
  function Fallback(rec: Json, key: string): (r: Json)
    ensures r == JStr("") <==> !Present(Get(rec, key))
  {
    var v := Get(rec, key);
    if Present(v) then v.value else JStr("")
  }

  /** A record the comparator can handle: not `null`, and its fallback value
      is a string, so that `localeCompare` exists on it. */
  predicate Comparable(rec: Json, key: string)
  {
    !rec.JNull? && Fallback(rec, key).JStr?
  }

  predicate AllComparable(items: seq<Json>, key: string)
  {
    forall x :: x in items ==> Comparable(x, key)
  }

  /** The string a comparable record is compared by. */
  function SortKey(rec: Json, key: string): (r: string)
    ensures Comparable(rec, key) ==> (r == "" <==> !Present(Get(rec, key)))
  {
    var v := Fallback(rec, key);
    if v.JStr? then v.s else ""
  }

  /** The sort's comparator on records. */
  function ByKey(key: string, cmp: (string, string) -> int): (Json, Json) -> int
  {
    (a: Json, b: Json) => cmp(SortKey(a, key), SortKey(b, key))
  }

  /** `''` comes before every non-empty string. */
  ghost predicate EmptyFirst(cmp: (string, string) -> int)
  {
    forall k :: k != "" ==> cmp(k, "") > 0
  }

  /** `sortX(v)`: throws for a non-array, otherwise sorts a copy. A `null`
      record, or a truthy key that is not a string, makes the comparator
      throw as soon as it is compared, which happens to every element of an
      array of two or more. */
  function Sort(s: Sorter, v: Json, numeric: (string, string) -> int): (r: Outcome<seq<Json>>)
    ensures !v.JArr? ==> r == Throws(Raised(s.NotArrayMessage()))
    ensures v.JArr? ==> (r.Throws? <==> |v.items| >= 2 && !AllComparable(v.items, s.Key()))
    ensures r.Ok? ==> |r.value| == |v.items| && multiset(r.value) == multiset(v.items)
  {
    var key := s.Key();
    if !v.JArr? then Throws(Raised(s.NotArrayMessage()))
    else if |v.items| >= 2 && !AllComparable(v.items, key) then
      if JNull in v.items then Throws(TypeError("Cannot read properties of null (reading '" + key + "')"))
      else Throws(TypeError(s.FirstName() + ".localeCompare is not a function"))
    else Ok(SortBy(v.items, ByKey(key, numeric)))
  }

  /** Every element of a sort's result comes from its input. */
  lemma SortMembers(s: Sorter, v: Json, numeric: (string, string) -> int, x: Json)
    requires Sort(s, v, numeric).Ok?
    ensures x in Sort(s, v, numeric).value <==> x in v.items
  {
    var r := Sort(s, v, numeric).value;
    assert x in r <==> x in multiset(r);
  }

  /** The records of a successful sort of two or more are all comparable,
      and so are those of its result. */
  lemma SortComparable(s: Sorter, v: Json, numeric: (string, string) -> int)
    requires Sort(s, v, numeric).Ok? && |v.items| >= 2
    ensures AllComparable(v.items, s.Key()) && AllComparable(Sort(s, v, numeric).value, s.Key())
  {
    forall x | x in Sort(s, v, numeric).value ensures Comparable(x, s.Key()) {
      SortMembers(s, v, numeric, x);
    }
  }

  /** The result is in order under the sort's comparator. */
  lemma SortOrdered(s: Sorter, v: Json, numeric: (string, string) -> int)
    requires Sort(s, v, numeric).Ok? && Asymmetric(numeric)
    ensures var r := Sort(s, v, numeric).value;
      forall i :: 0 < i < |r| ==> numeric(SortKey(r[i - 1], s.Key()), SortKey(r[i], s.Key())) <= 0
  {
    var cmp := ByKey(s.Key(), numeric);
    ByKeyAsymmetric(s.Key(), numeric, v.items);
    SortBySorted(v.items, cmp);
  }

  /** Records whose keys compare equal keep their input order, for a
      comparator whose "at most" relation is transitive. */
  lemma SortStable(s: Sorter, v: Json, numeric: (string, string) -> int, e: Json)
    requires Sort(s, v, numeric).Ok? && Transitive(numeric)
    ensures ClassOf(Sort(s, v, numeric).value, e, ByKey(s.Key(), numeric))
            == ClassOf(v.items, e, ByKey(s.Key(), numeric))
  {
    var cmp := ByKey(s.Key(), numeric);
    forall a, b, c | cmp(a, b) <= 0 && cmp(b, c) <= 0 ensures cmp(a, c) <= 0 {
      assert numeric(SortKey(a, s.Key()), SortKey(b, s.Key())) <= 0;
      assert numeric(SortKey(b, s.Key()), SortKey(c, s.Key())) <= 0;
    }
    SortByStable(v.items, e, cmp);
  }

  lemma ByKeyAsymmetric(key: string, cmp: (string, string) -> int, xs: seq<Json>)
    requires Asymmetric(cmp)
    ensures AsymmetricOn(ByKey(key, cmp), xs)
  {
    forall a, b | a in xs && b in xs && ByKey(key, cmp)(a, b) > 0 ensures ByKey(key, cmp)(b, a) <= 0 {
      assert ByKey(key, cmp)(a, b) == cmp(SortKey(a, key), SortKey(b, key));
    }
  }

  /** Records without a truthy key sort before every record with one. */
  lemma SortEmptyFirst(s: Sorter, v: Json, numeric: (string, string) -> int, i: nat, j: nat)
    requires Sort(s, v, numeric).Ok? && Asymmetric(numeric) && EmptyFirst(numeric)
    requires i < j < |Sort(s, v, numeric).value|
    requires !Present(Get(Sort(s, v, numeric).value[j], s.Key()))
    ensures !Present(Get(Sort(s, v, numeric).value[i], s.Key()))
  {
    var r := Sort(s, v, numeric).value;
    SortComparable(s, v, numeric);
    SortOrdered(s, v, numeric);
    if Present(Get(r[i], s.Key())) {
      assert r[i] in r && r[j] in r;
      NonEmptyStays(r, s.Key(), numeric, i, j);
    }
  }

  lemma {:induction false} NonEmptyStays(r: seq<Json>, key: string, cmp: (string, string) -> int, i: nat, j: nat)
    requires AllComparable(r, key) && EmptyFirst(cmp)
    requires forall k :: 0 < k < |r| ==> cmp(SortKey(r[k - 1], key), SortKey(r[k], key)) <= 0
    requires i < j < |r| && SortKey(r[i], key) != ""
    ensures SortKey(r[j], key) != ""
    decreases j
  {
    if j > i + 1 {
      NonEmptyStays(r, key, cmp, i, j - 1);
    }
    assert cmp(SortKey(r[j - 1], key), SortKey(r[j], key)) <= 0;
  }

  /** Sorting a sorted result again changes nothing. */
  lemma SortIdempotent(s: Sorter, v: Json, numeric: (string, string) -> int)
    requires Sort(s, v, numeric).Ok? && Asymmetric(numeric)
    ensures Sort(s, JArr(Sort(s, v, numeric).value), numeric) == Sort(s, v, numeric)
  {
    var r := Sort(s, v, numeric).value;
    if |v.items| >= 2 {
      SortComparable(s, v, numeric);
    }
    var cmp := ByKey(s.Key(), numeric);
    ByKeyAsymmetric(s.Key(), numeric, v.items);
    SortBySorted(v.items, cmp);
    SortedFixpoint(r, cmp);
  }

  // ---------------------------------------------------------------- isXSorted

  /** One turn of the check's loop on the pair `prev`, `curr`: reading from
      `null` throws, so does a non-string `prev` value (it has no
      `localeCompare`); `curr` is converted to a string. `Ok(false)` is the
      early return. */
  function CheckPair(s: Sorter, prev: Json, curr: Json, plain: (string, string) -> int): Outcome<bool>
  {
    var key := s.Key();
    if prev.JNull? || curr.JNull? then Throws(TypeError("Cannot read properties of null (reading '" + key + "')"))
    else
      var a := Fallback(prev, key);
      if !a.JStr? then Throws(TypeError(s.PrevName() + ".localeCompare is not a function"))
      else Ok(plain(a.s, ToJsString(Fallback(curr, key))) <= 0)
  }

  /** The outcome after the turns `i = 1 .. n - 1`; `Ok(true)` means the loop
      is still running. */
  function ScanUpTo(s: Sorter, items: seq<Json>, n: nat, plain: (string, string) -> int): Outcome<bool>
    requires 1 <= n <= |items|
  {
    if n == 1 then Ok(true)
    else
      var before := ScanUpTo(s, items, n - 1, plain);
      if before == Ok(true) then CheckPair(s, items[n - 2], items[n - 1], plain) else before
  }

  /** What `isXSorted(v)` returns or throws. */
  function IsSortedResult(s: Sorter, v: Json, plain: (string, string) -> int): (r: Outcome<bool>)
    ensures !v.JArr? || |v.items| <= 1 ==> r == Ok(true)
  {
    if !v.JArr? || |v.items| <= 1 then Ok(true) else ScanUpTo(s, v.items, |v.items|, plain)
  }

  /** Once the loop has returned or thrown, later turns do not happen. */
  lemma {:induction false} ScanSettles(s: Sorter, items: seq<Json>, m: nat, n: nat, plain: (string, string) -> int)
    requires 1 <= m <= n <= |items| && ScanUpTo(s, items, m, plain) != Ok(true)
    ensures ScanUpTo(s, items, n, plain) == ScanUpTo(s, items, m, plain)
    decreases n
  {
    if n > m {
      ScanSettles(s, items, m, n - 1, plain);
    }
  }

  /** On comparable records the loop returns whether every adjacent pair up
      to `n` is in order under the check's comparator. */
  lemma {:induction false} ScanUpToIff(s: Sorter, items: seq<Json>, n: nat, plain: (string, string) -> int)
    requires 1 <= n <= |items| && AllComparable(items, s.Key())
    ensures ScanUpTo(s, items, n, plain)
            == Ok(forall k :: 0 < k < n ==> plain(SortKey(items[k - 1], s.Key()), SortKey(items[k], s.Key())) <= 0)
  {
    if n > 1 {
      ScanUpToIff(s, items, n - 1, plain);
      assert items[n - 2] in items && items[n - 1] in items;
      CheckPairComparable(s, items[n - 2], items[n - 1], plain);
      AdjacentStep(items, s.Key(), plain, n);
      hide CheckPair, SortKey;
    }
  }

  /** Adjacent pairs up to `n` are in order when those up to `n - 1` are
      and the last one is. */
  lemma AdjacentStep(items: seq<Json>, key: string, plain: (string, string) -> int, n: nat)
    requires 1 < n <= |items|
    ensures (forall k :: 0 < k < n ==> plain(SortKey(items[k - 1], key), SortKey(items[k], key)) <= 0)
            == ((forall k :: 0 < k < n - 1 ==> plain(SortKey(items[k - 1], key), SortKey(items[k], key)) <= 0)
                && plain(SortKey(items[n - 2], key), SortKey(items[n - 1], key)) <= 0)
  {
    hide SortKey;
  }

  /** Two comparable records are compared by their sort keys. */
  lemma CheckPairComparable(s: Sorter, prev: Json, curr: Json, plain: (string, string) -> int)
    requires Comparable(prev, s.Key()) && Comparable(curr, s.Key())
    ensures CheckPair(s, prev, curr, plain) == Ok(plain(SortKey(prev, s.Key()), SortKey(curr, s.Key())) <= 0)
  {
  }

  /** `isXSorted` is false exactly when some adjacent pair is inverted under
      the check's comparator, for an array of comparable records. */
  lemma IsSortedIff(s: Sorter, v: Json, plain: (string, string) -> int)
    requires v.JArr? && AllComparable(v.items, s.Key())
    ensures IsSortedResult(s, v, plain)
            == Ok(forall k :: 0 < k < |v.items| ==> plain(SortKey(v.items[k - 1], s.Key()), SortKey(v.items[k], s.Key())) <= 0)
  {
    if |v.items| > 1 {
      ScanUpToIff(s, v.items, |v.items|, plain);
    }
  }

  /** `isXSorted(sortX(v))` holds when the check's comparator accepts every
      pair of keys the sort's comparator accepts. */
  lemma CheckAfterSort(s: Sorter, v: Json, numeric: (string, string) -> int, plain: (string, string) -> int)
    requires Sort(s, v, numeric).Ok? && Asymmetric(numeric)
    requires forall a, b :: a in v.items && b in v.items && numeric(SortKey(a, s.Key()), SortKey(b, s.Key())) <= 0
                            ==> plain(SortKey(a, s.Key()), SortKey(b, s.Key())) <= 0
    ensures IsSortedResult(s, JArr(Sort(s, v, numeric).value), plain) == Ok(true)
  {
    var r := Sort(s, v, numeric).value;
    if |r| > 1 {
      SortComparable(s, v, numeric);
      SortOrdered(s, v, numeric);
      forall k | 0 < k < |r| ensures plain(SortKey(r[k - 1], s.Key()), SortKey(r[k], s.Key())) <= 0 {
        SortMembers(s, v, numeric, r[k - 1]);
        SortMembers(s, v, numeric, r[k]);
      }
      IsSortedIff(s, JArr(r), plain);
    }
  }

  /** `localeCompare` with `numeric: true` puts "v2" before "v10"; without
      it "v10" comes first, character by character. */
  function NumericOnPair(a: string, b: string): int
  {
    if a == "v2" && b == "v10" then -1 else if a == "v10" && b == "v2" then 1 else 0
  }

  function PlainOnPair(a: string, b: string): int
  {
    -NumericOnPair(a, b)
  }

  function Named(name: string): Json
  {
    JObj(["name"], map["name" := JStr(name)])
  }

  /** Both comparators of the example are asymmetric. */
  lemma PairComparatorsAsymmetric()
    ensures Asymmetric(NumericOnPair) && Asymmetric(PlainOnPair)
  {
    forall a, b | NumericOnPair(a, b) > 0 ensures NumericOnPair(b, a) <= 0 { }
    forall a, b | PlainOnPair(a, b) > 0 ensures PlainOnPair(b, a) <= 0 { }
  }

  /** With the two comparators disagreeing on a pair, the check rejects what
      the sort produced. */
  lemma CheckAfterSortCanFail()
    ensures Sort(AreaSorter, JArr([Named("v10"), Named("v2")]), NumericOnPair) == Ok([Named("v2"), Named("v10")])
    ensures IsSortedResult(AreaSorter, JArr([Named("v2"), Named("v10")]), PlainOnPair) == Ok(false)
  {
    NumericSortSwaps();
    PlainCheckRejects();
  }

  lemma NumericSortSwaps()
    ensures Sort(AreaSorter, JArr([Named("v10"), Named("v2")]), NumericOnPair) == Ok([Named("v2"), Named("v10")])
  {
    var v10, v2 := Named("v10"), Named("v2");
    NamedKey("v10");
    NamedKey("v2");
    var items := [v10, v2];
    var cmp := ByKey("name", NumericOnPair);
    hide Named, SortKey, Comparable;
    assert AllComparable(items, "name");
    assert cmp(v10, v2) == NumericOnPair("v10", "v2") == 1;
    assert Sort(AreaSorter, JArr(items), NumericOnPair) == Ok(SortBy(items, cmp));
    SortTwo(v10, v2, cmp);
  }

  /** A record with only a string `name` is comparable by that name. */
  lemma NamedKey(name: string)
    ensures Comparable(Named(name), "name") && SortKey(Named(name), "name") == name
  {
    assert Get(Named(name), "name") == Some(JStr(name));
  }

  lemma PlainCheckRejects()
    ensures IsSortedResult(AreaSorter, JArr([Named("v2"), Named("v10")]), PlainOnPair) == Ok(false)
  {
    var v10, v2 := Named("v10"), Named("v2");
    assert Get(v10, "name") == Some(JStr("v10")) && Get(v2, "name") == Some(JStr("v2"));
    assert Fallback(v2, "name") == JStr("v2") && Fallback(v10, "name") == JStr("v10");
    assert PlainOnPair("v2", "v10") == 1;
    assert ScanUpTo(AreaSorter, [v2, v10], 2, PlainOnPair) == Ok(false);
  }

  /** The `for` loop of `isXSorted`, with its early return. */
  method IsSorted(s: Sorter, v: Json, plain: (string, string) -> int) returns (r: Outcome<bool>)
    ensures r == IsSortedResult(s, v, plain)
  {
    if !v.JArr? || |v.items| <= 1 {
      return Ok(true);
    }
    var items := v.items;
    var i := 1;
    while i < |items|
      invariant 1 <= i <= |items|
      invariant ScanUpTo(s, items, i, plain) == Ok(true)
    {
      var step := CheckPair(s, items[i - 1], items[i], plain);
      if step != Ok(true) {
        ScanSettles(s, items, i + 1, |items|, plain);
        return step;
      }
      i := i + 1;
    }
    r := Ok(true);
  }
}
