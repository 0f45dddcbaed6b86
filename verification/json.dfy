/** The parsed contents of a data file as the validators and sorters see
    them, with the JavaScript operations they apply to it: property access,
    truthiness, `Object.keys`, `String(v)` and the kebab-case test. */
module JsonValues {
  import opened Wrappers
  import opened Text
  import opened Seqs
  import opened Sorting

  /** A value produced by `JSON.parse`. Numbers are integers here. An
      object lists its own keys in order and maps each key to its value;
      `JSON.parse` keeps the last of repeated keys, so a key maps to one
      value. */
  datatype Json =
    | JNull
    | JBool(b: bool)
    | JNum(n: int)
    | JStr(s: string)
    | JArr(items: seq<Json>)
    | JObj(keys: seq<string>, fields: map<string, Json>)

  /** `v[key]` for a non-null `v`: only objects have the data fields looked
      up here; on arrays, strings, numbers and booleans it is `undefined`. */
  function Get(v: Json, key: string): (r: Option<Json>)
    ensures r.Some? <==> v.JObj? && key in v.fields
  {
    if v.JObj? && key in v.fields then Some(v.fields[key]) else None
  }

  /** "0", "1", …, the own keys of an array or a string of length `n`. */
  function IndexNames(n: nat): (r: seq<string>)
    ensures |r| == n
  {
    seq(n, i requires 0 <= i => NatToString(i))
  }

  lemma IndexNamesDistinct(n: nat)
    ensures Distinct(IndexNames(n))
  {
    var r := IndexNames(n);
    forall i, j | 0 <= i < j < |r| ensures r[i] != r[j] {
      if r[i] == r[j] { NatToStringInjective(i, j); }
    }
  }

  predicate IsDigit(c: char)
  {
    '0' <= c <= '9'
  }

  /** The number a string of decimal digits denotes. */
  function DecimalValue(s: string): nat
  {
    if s == [] then 0
    else
      var c := s[|s| - 1];
      DecimalValue(s[..|s| - 1]) * 10 + (if IsDigit(c) then c as int - '0' as int else 0)
  }

  /** An array index (section 6.1.7 of ECMA-262): the canonical decimal form
      of an integer below 2^32 - 1, so no sign and no leading zero. */
  predicate IsArrayIndex(k: string)
  {
    && |k| > 0
    && (forall i :: 0 <= i < |k| ==> IsDigit(k[i]))
    && (k[0] != '0' || |k| == 1)
    && DecimalValue(k) < 0xFFFF_FFFF
  }

  predicate IsNamedKey(k: string)
  {
    !IsArrayIndex(k)
  }

  /** Array indices compared as numbers. */
  function IndexOrder(a: string, b: string): int
  {
    DecimalValue(a) - DecimalValue(b)
  }

  /** The own keys of a parsed object in the order `Object.keys` lists them
      (OrdinaryOwnPropertyKeys, section 10.1.11.1 of ECMA-262): the array
      indices in ascending numeric order, then the other keys in the order
      they were created. `JSON.parse` creates a key where it first appears;
      a repeated key only replaces the value. */
  function OwnKeys(keys: seq<string>): seq<string>
  {
    IndexKeys(keys) + NamedKeys(keys)
  }

  /** The keys that are array indices, sorted by their numeric value. */
  function IndexKeys(keys: seq<string>): seq<string>
  {
    SortBy(Filter(FirstSeen(keys), IsArrayIndex), IndexOrder)
  }

  /** The other keys, in the order they were created. */
  function NamedKeys(keys: seq<string>): seq<string>
  {
    Filter(FirstSeen(keys), IsNamedKey)
  }

  /** `Object.keys(v)` for a non-null `v`: an object's own keys, the indices
      of an array or a string, nothing for a number or a boolean. */
  function ObjectKeys(v: Json): seq<string>
  {
    match v
    case JObj(keys, _) => OwnKeys(keys)
    case JArr(items) => IndexNames(|items|)
    case JStr(s) => IndexNames(|s|)
    case _ => []
  }

  /** A sequence in which no value occurs twice is free of repetitions. */
  lemma CountsDistinct<T>(s: seq<T>)
    requires forall x :: multiset(s)[x] <= 1
    ensures Distinct(s)
  {
    forall i, j | 0 <= i < j < |s| ensures s[i] != s[j] {
      var x := s[i];
      assert s == s[..i] + [x] + s[i + 1..j] + [s[j]] + s[j + 1..];
      assert multiset(s)[x] >= 1 + multiset([s[j]])[x];
    }
  }

  /** The own keys are the keys of the text, each listed once. */
  lemma OwnKeysSpec(keys: seq<string>)
    ensures forall k :: k in OwnKeys(keys) <==> k in keys
    ensures Distinct(OwnKeys(keys))
  {
    var created := FirstSeen(keys);
    var indices := Filter(created, IsArrayIndex);
    var sorted := IndexKeys(keys);
    var named := NamedKeys(keys);
    assert sorted == SortBy(indices, IndexOrder);
    assert multiset(sorted) == multiset(indices);
    assert OwnKeys(keys) == sorted + named;
    FirstSeenSpec(keys);
    hide IsArrayIndex, DecimalValue, IndexKeys, NamedKeys, OwnKeys, SortBy, FirstSeen;
    forall x ensures multiset(sorted + named)[x] == multiset(created)[x] {
      FilterCount(created, IsArrayIndex, x);
      FilterCount(created, IsNamedKey, x);
    }
    forall x ensures multiset(sorted + named)[x] <= 1 {
      DistinctCount(created, x);
    }
    CountsDistinct(sorted + named);
    forall k ensures k in sorted + named <==> k in keys {
      assert k in sorted <==> k in multiset(indices);
    }
  }

  /** The array indices sorted by `IndexOrder` are array indices in
      strictly ascending numeric order. */
  lemma IndexKeysAscending(indices: seq<string>)
    requires Distinct(indices) && forall k :: k in indices ==> IsArrayIndex(k)
    ensures var sorted := SortBy(indices, IndexOrder);
      && (forall i :: 0 <= i < |sorted| ==> IsArrayIndex(sorted[i]))
      && (forall i :: 0 < i < |sorted| ==> DecimalValue(sorted[i - 1]) < DecimalValue(sorted[i]))
  {
    var sorted := SortBy(indices, IndexOrder);
    forall i | 0 <= i < |sorted| ensures IsArrayIndex(sorted[i]) {
      assert sorted[i] in multiset(indices);
    }
    SortBySorted(indices, IndexOrder);
    DistinctPermutation(indices, sorted);
    forall i | 0 < i < |sorted| ensures DecimalValue(sorted[i - 1]) < DecimalValue(sorted[i]) {
      assert IndexOrder(sorted[i - 1], sorted[i]) <= 0;
      if DecimalValue(sorted[i - 1]) == DecimalValue(sorted[i]) {
        CanonicalInjective(sorted[i - 1], sorted[i]);
      }
    }
  }

  /** The array indices come first, in strictly ascending numeric order. */
  lemma IndexKeysSpec(keys: seq<string>)
    ensures forall i :: 0 <= i < |IndexKeys(keys)| ==> IsArrayIndex(IndexKeys(keys)[i])
    ensures forall i :: 0 < i < |IndexKeys(keys)| ==> DecimalValue(IndexKeys(keys)[i - 1]) < DecimalValue(IndexKeys(keys)[i])
  {
    var created := FirstSeen(keys);
    FirstSeenSpec(keys);
    DistinctFilter(created, IsArrayIndex);
    var indices := Filter(created, IsArrayIndex);
    assert IndexKeys(keys) == SortBy(indices, IndexOrder);
    IndexKeysAscending(indices);
  }

  /** `Object.keys` on a parsed object: first the keys that are array
      indices, in strictly ascending numeric order, then the other keys in
      the order they first appear in the text. */
  lemma ObjectKeysOrder(keys: seq<string>, fields: map<string, Json>)
    ensures var r := ObjectKeys(JObj(keys, fields));
      var m := |IndexKeys(keys)|;
      && m <= |r|
      && (forall i :: 0 <= i < |r| ==> (IsArrayIndex(r[i]) <==> i < m))
      && (forall i :: 0 < i < m ==> DecimalValue(r[i - 1]) < DecimalValue(r[i]))
      && r[m..] == Filter(FirstSeen(keys), IsNamedKey)
  {
    hide *;
    ObjectKeysOfObject(keys, fields);
    IndexKeysSpec(keys);
    NamedKeysSpec(keys);
    IndicesThenNames(IndexKeys(keys), NamedKeys(keys));
    AscendingPrefix(IndexKeys(keys), NamedKeys(keys));
  }

  /** The keys of an object: indices, then the other keys. */
  lemma ObjectKeysOfObject(keys: seq<string>, fields: map<string, Json>)
    ensures ObjectKeys(JObj(keys, fields)) == IndexKeys(keys) + NamedKeys(keys)
    ensures NamedKeys(keys) == Filter(FirstSeen(keys), IsNamedKey)
  {
  }

  lemma NamedKeysSpec(keys: seq<string>)
    ensures forall k :: k in NamedKeys(keys) ==> IsNamedKey(k)
  {
  }

  /** Appending keeps the ascending first part ascending. */
  lemma AscendingPrefix(sorted: seq<string>, named: seq<string>)
    requires forall i :: 0 < i < |sorted| ==> DecimalValue(sorted[i - 1]) < DecimalValue(sorted[i])
    ensures forall i :: 0 < i < |sorted| ==> DecimalValue((sorted + named)[i - 1]) < DecimalValue((sorted + named)[i])
  {
    hide DecimalValue;
    var r := sorted + named;
    forall i | 0 < i < |sorted| ensures DecimalValue(r[i - 1]) < DecimalValue(r[i]) {
      assert r[i - 1] == sorted[i - 1] && r[i] == sorted[i];
    }
  }

  /** Array indices followed by other keys: the indices are exactly the
      first part. */
  lemma IndicesThenNames(sorted: seq<string>, named: seq<string>)
    requires forall i :: 0 <= i < |sorted| ==> IsArrayIndex(sorted[i])
    requires forall k :: k in named ==> IsNamedKey(k)
    ensures forall i :: 0 <= i < |sorted + named| ==> (IsArrayIndex((sorted + named)[i]) <==> i < |sorted|)
    ensures (sorted + named)[|sorted|..] == named
  {
    var r := sorted + named;
    forall i | 0 <= i < |r| ensures IsArrayIndex(r[i]) <==> i < |sorted| {
      if i >= |sorted| {
        assert r[i] == named[i - |sorted|] && r[i] in named;
      }
    }
  }

  /** Filtering keeps a sequence free of repetitions. */
  lemma DistinctFilter<T(!new)>(xs: seq<T>, p: T -> bool)
    requires Distinct(xs)
    ensures Distinct(Filter(xs, p))
  {
    forall x ensures multiset(Filter(xs, p))[x] <= 1 {
      FilterCount(xs, p, x);
      DistinctCount(xs, x);
    }
    CountsDistinct(Filter(xs, p));
  }

  /** 10 to the power `n`. */
  function Pow10(n: nat): (r: nat)
    ensures r >= 1
  {
    if n == 0 then 1 else 10 * Pow10(n - 1)
  }

  /** A string of `n` digits denotes a number below 10^n, and at least
      10^(n-1) when it does not start with a zero. */
  lemma {:induction false} DecimalBounds(s: string)
    requires forall i :: 0 <= i < |s| ==> IsDigit(s[i])
    ensures DecimalValue(s) < Pow10(|s|)
    ensures |s| > 0 && s[0] != '0' ==> DecimalValue(s) >= Pow10(|s| - 1)
  {
    if s != [] {
      var init := s[..|s| - 1];
      DecimalBounds(init);
      if |s| > 1 {
        assert init[0] == s[0];
      }
    }
  }

  /** Two digit strings of the same length denoting the same number are
      equal. */
  lemma {:induction false} DecimalInjective(a: string, b: string)
    requires |a| == |b|
    requires forall i :: 0 <= i < |a| ==> IsDigit(a[i])
    requires forall i :: 0 <= i < |b| ==> IsDigit(b[i])
    requires DecimalValue(a) == DecimalValue(b)
    ensures a == b
  {
    if a != [] {
      var a', b' := a[..|a| - 1], b[..|b| - 1];
      var x, y := a[|a| - 1] as int - '0' as int, b[|b| - 1] as int - '0' as int;
      assert DecimalValue(a) == DecimalValue(a') * 10 + x;
      assert DecimalValue(b) == DecimalValue(b') * 10 + y;
      hide DecimalValue;
      LastDigit(DecimalValue(a'), DecimalValue(b'), x, y);
      DecimalInjective(a', b');
      assert a == a' + [a[|a| - 1]] && b == b' + [b[|b| - 1]];
    }
  }

  /** The last decimal digit and the rest of a number are determined by it. */
  lemma LastDigit(p: nat, q: nat, x: int, y: int)
    requires 0 <= x < 10 && 0 <= y < 10 && p * 10 + x == q * 10 + y
    ensures x == y && p == q
  {
  }

  /** Distinct array indices denote distinct numbers. */
  lemma CanonicalInjective(a: string, b: string)
    requires IsArrayIndex(a) && IsArrayIndex(b) && DecimalValue(a) == DecimalValue(b)
    ensures a == b
  {
    DecimalBounds(a);
    DecimalBounds(b);
    DecimalInjective(a, b);
  }

  /** A key that is an array index goes before the named keys, whatever the
      order of the text: `{"id": …, "name": …, "2": …, "1": …}` lists
      `1`, `2`, `id`, `name`. */
  lemma ObjectKeysExample(keys: seq<string>, fields: map<string, Json>)
    requires keys == ["id", "name", "2", "1"]
    ensures ObjectKeys(JObj(keys, fields)) == ["1", "2", "id", "name"]
  {
    hide *;
    ExampleCreated(keys);
    ExampleIndices(keys);
    ExampleNames(keys);
    ObjectKeysOfObject(keys, fields);
    assert ["1", "2"] + ["id", "name"] == ["1", "2", "id", "name"];
  }

  lemma ExampleCreated(keys: seq<string>)
    requires keys == ["id", "name", "2", "1"]
    ensures FirstSeen(keys) == keys
    ensures keys == [] + ["id"] + ["name"] + ["2"] + ["1"]
  {
    hide FirstSeen;
    assert Distinct(keys);
    FirstSeenOfDistinct(keys);
  }

  lemma ExampleIndices(keys: seq<string>)
    requires keys == [] + ["id"] + ["name"] + ["2"] + ["1"] && FirstSeen(keys) == keys
    ensures IndexKeys(keys) == ["1", "2"]
  {
    assert IndexKeys(keys) == SortBy(Filter(FirstSeen(keys), IsArrayIndex), IndexOrder);
    ExampleIndexFilter(keys);
    SingleDigit('1');
    SingleDigit('2');
    hide FirstSeen, Filter, SortBy, IndexKeys, IsArrayIndex, DecimalValue;
    SortTwo("2", "1", IndexOrder);
  }

  lemma ExampleIndexFilter(keys: seq<string>)
    requires keys == [] + ["id"] + ["name"] + ["2"] + ["1"]
    ensures Filter(keys, IsArrayIndex) == ["2", "1"]
  {
    hide Filter;
    SingleDigit('1');
    SingleDigit('2');
    assert !IsArrayIndex("id") && !IsArrayIndex("name");
    hide IsArrayIndex, DecimalValue;
    var k1 := [] + ["id"];
    var k2 := k1 + ["name"];
    var k3 := k2 + ["2"];
    FilterEmpty(IsArrayIndex);
    FilterSnoc([], "id", IsArrayIndex);
    FilterSnoc(k1, "name", IsArrayIndex);
    FilterSnoc(k2, "2", IsArrayIndex);
    FilterSnoc(k3, "1", IsArrayIndex);
  }

  lemma ExampleNames(keys: seq<string>)
    requires keys == [] + ["id"] + ["name"] + ["2"] + ["1"] && FirstSeen(keys) == keys
    ensures NamedKeys(keys) == ["id", "name"]
  {
    hide FirstSeen, Filter;
    SingleDigit('1');
    SingleDigit('2');
    assert IsNamedKey("id") && IsNamedKey("name") && !IsNamedKey("1") && !IsNamedKey("2");
    hide IsArrayIndex, IsNamedKey, DecimalValue;
    var k1 := [] + ["id"];
    var k2 := k1 + ["name"];
    var k3 := k2 + ["2"];
    FilterEmpty(IsNamedKey);
    FilterSnoc([], "id", IsNamedKey);
    FilterSnoc(k1, "name", IsNamedKey);
    FilterSnoc(k2, "2", IsNamedKey);
    FilterSnoc(k3, "1", IsNamedKey);
  }

  /** A single digit is an array index denoting its own value. */
  lemma SingleDigit(c: char)
    requires IsDigit(c)
    ensures IsArrayIndex([c]) && DecimalValue([c]) == c as int - '0' as int
  {
    assert [c][..0] == [];
  }

  lemma FilterEmpty<T(!new)>(p: T -> bool)
    ensures Filter([], p) == []
  {
  }

  lemma FilterSnoc<T(!new)>(xs: seq<T>, x: T, p: T -> bool)
    ensures Filter(xs + [x], p) == Filter(xs, p) + (if p(x) then [x] else [])
  {
    assert (xs + [x])[..|xs|] == xs;
  }

  /** `Object.keys` lists each key once. */
  lemma ObjectKeysDistinct(v: Json)
    ensures Distinct(ObjectKeys(v))
  {
    match v
    case JObj(keys, _) => OwnKeysSpec(keys);
    case JArr(items) => IndexNamesDistinct(|items|);
    case JStr(s) => IndexNamesDistinct(|s|);
    case _ =>
  }

  /** The elements of an array, or nothing. */
  function ArrayElements(v: Json): seq<Json>
  {
    if v.JArr? then v.items else []
  }

  /** None of the first `n` elements is `null`. */
  predicate NullFree(items: seq<Json>, n: nat)
    requires n <= |items|
  {
    n == 0 || (NullFree(items, n - 1) && !items[n - 1].JNull?)
  }

  lemma {:induction false} NullFreeIff(items: seq<Json>, n: nat)
    requires n <= |items|
    ensures NullFree(items, n) <==> forall k :: 0 <= k < n ==> !items[k].JNull?
  {
    if n > 0 {
      NullFreeIff(items, n - 1);
    }
  }

  /** A `null` element among the first `n` rules out `NullFree`. */
  lemma {:induction false} NullBreaks(items: seq<Json>, i: nat, n: nat)
    requires i < n <= |items| && items[i].JNull?
    ensures !NullFree(items, n)
  {
    if i < n - 1 {
      NullBreaks(items, i, n - 1);
    }
  }

  /** How a JavaScript `Set` compares values (SameValueZero): primitives by
      value, objects and arrays by identity. Every object `JSON.parse`
      builds is a fresh one, so an object or array is identified by the
      record it was read from. */
  datatype SetKey = Prim(value: Json) | Ref(owner: nat)

  /** The set key of value `v`, read from record `owner`. */
  function KeyOf(v: Json, owner: nat): (r: SetKey)
    ensures r.Prim? <==> !IsObjectLike(v)
  {
    if IsObjectLike(v) then Ref(owner) else Prim(v)
  }

  /** JavaScript truthiness of a defined value. */
  predicate Truthy(v: Json)
  {
    match v
    case JNull => false
    case JBool(b) => b
    case JNum(n) => n != 0
    case JStr(s) => s != ""
    case _ => true
  }

  /** Truthiness of a property read, where `None` is `undefined`. */
  predicate Present(o: Option<Json>)
  {
    o.Some? && Truthy(o.value)
  }

  /** The elements of `rec[field]` when it is a truthy array, or nothing to
      iterate. */
  function ArrayItems(rec: Json, field: string): seq<Json>
  {
    var v := Get(rec, field);
    if Present(v) && v.value.JArr? then v.value.items else []
  }

  /** `typeof v === 'object' && v !== null`: arrays count as objects. */
  predicate IsObjectLike(v: Json)
  {
    v.JArr? || v.JObj?
  }

  /** `String(v)`, which is also what a template literal `${v}` produces. */
  function ToJsString(v: Json): string
  {
    match v
    case JNull => "null"
    case JBool(b) => if b then "true" else "false"
    case JNum(n) => IntToString(n)
    case JStr(s) => s
    case JObj(_, _) => "[object Object]"
    case JArr(items) =>
      // Array.prototype.join writes null and undefined elements as "".
      Join(seq(|items|, i requires 0 <= i < |items| =>
        if items[i].JNull? then "" else ToJsString(items[i])), ",")
  }

  predicate IsLowerAlnum(c: char)
  {
    'a' <= c <= 'z' || '0' <= c <= '9'
  }

  /** The regular expression `^[a-z0-9]+(-[a-z0-9]+)*$`: lower-case letters and
      digits in non-empty runs joined by single hyphens. */
  predicate IsKebab(s: string)
  {
    && |s| > 0
    && IsLowerAlnum(s[0])
    && IsLowerAlnum(s[|s| - 1])
    && forall i :: 0 <= i < |s| ==>
         IsLowerAlnum(s[i]) || (s[i] == '-' && 0 < i < |s| - 1 && IsLowerAlnum(s[i + 1]))
  }

  /** The hyphen-joined segments form of the same language: a kebab-case
      string is a segment, or a segment, a hyphen and a kebab-case rest. */
  lemma KebabSplit(seg: string, rest: string)
    requires |seg| > 0 && forall i :: 0 <= i < |seg| ==> IsLowerAlnum(seg[i])
    ensures IsKebab(seg)
    ensures IsKebab(rest) ==> IsKebab(seg + "-" + rest)
  {
    if IsKebab(rest) {
      var s := seg + "-" + rest;
      forall i | 0 <= i < |s|
        ensures IsLowerAlnum(s[i]) || (s[i] == '-' && 0 < i < |s| - 1 && IsLowerAlnum(s[i + 1]))
      {
        if i < |seg| {
          assert s[i] == seg[i];
        } else if i == |seg| {
          assert s[i + 1] == rest[0];
        } else {
          assert s[i] == rest[i - |seg| - 1];
          if i + 1 < |s| { assert s[i + 1] == rest[i - |seg|]; }
        }
      }
    }
  }
}
