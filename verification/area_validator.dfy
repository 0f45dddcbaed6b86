/** `validateAreas(areas)`: the `id` and `name` checks on each area record,
    the duplicate bookkeeping and the final result. */
module AreaValidator {
  import opened Wrappers
  import opened Seqs
  import opened JsonValues
  import opened Issues
  import opened Dedup
  import opened RecordChecks

  const Allowed: seq<string> := ["id", "name"]

  /** What record `i` adds to the `seen` set of `field`: its value, when
      truthy. */
  function FieldKey(rec: Json, field: string, i: nat): Option<SetKey>
  {
    var v := Get(rec, field);
    if Present(v) then Some(KeyOf(v.value, i)) else None
  }

  function FieldKeys(recs: seq<Json>, field: string): (r: seq<Option<SetKey>>)
    ensures |r| == |recs|
    ensures forall k :: 0 <= k < |recs| ==> r[k] == FieldKey(recs[k], field, k)
  {
    seq(|recs|, k requires 0 <= k < |recs| => FieldKey(recs[k], field, k))
  }

  /** The `id` block: a missing id is an error; a present one that is not
      kebab-case once converted to a string is a warning, and an error when
      already seen. */
  function IdFindings(i: nat, rec: Json, seenIds: set<SetKey>): Findings
  {
    var id := Get(rec, "id");
    if !Present(id) then Error(MissingField(AreasData, i, "id"))
    else
      (if IsKebab(ToJsString(id.value)) then NoFindings else Warning(NotKebab(AreasData, i, "ID", id.value)))
        .Add(if KeyOf(id.value, i) in seenIds then Error(DuplicateValue(AreasData, i, "ID", id.value)) else NoFindings)
  }

  /** The `name` block: a missing name is an error, a repeated one too. */
  function NameFindings(i: nat, rec: Json, seenNames: set<SetKey>): Findings
  {
    var name := Get(rec, "name");
    if !Present(name) then Error(MissingField(AreasData, i, "name"))
    else if KeyOf(name.value, i) in seenNames then Error(DuplicateValue(AreasData, i, "Nome", name.value))
    else NoFindings
  }

  /** A truthy `id` or `name` that is not a string is an error. */
  function TypeFindings(i: nat, rec: Json): Findings
  {
    var id := Get(rec, "id");
    var name := Get(rec, "name");
    (if Present(id) && !id.value.JStr? then Error(NotString(AreasData, i, "id")) else NoFindings)
      .Add(if Present(name) && !name.value.JStr? then Error(NotString(AreasData, i, "name")) else NoFindings)
  }

  /** The checks on the two fields, in push order. */
  function FieldFindings(i: nat, rec: Json, seenIds: set<SetKey>, seenNames: set<SetKey>): Findings
  {
    IdFindings(i, rec, seenIds).Add(NameFindings(i, rec, seenNames)).Add(TypeFindings(i, rec))
  }

  /** Everything the `forEach` callback pushes for record `i`, in push order,
      given the ids and names seen before it. */
  function RecordFindings(i: nat, rec: Json, seenIds: set<SetKey>, seenNames: set<SetKey>): Findings
  {
    var keys := ObjectKeys(rec);
    FieldFindings(i, rec, seenIds, seenNames).Add(UnexpectedKeys(AreasData, i, keys, |keys|, Allowed))
  }

  /** The variables of the record loop: the findings pushed so far and the
      `seenIds`, `seenNames`, `duplicateIds` and `duplicateNames` sets. */
  datatype AreaLoop = AreaLoop(
    found: Findings, seenIds: set<SetKey>, seenNames: set<SetKey>,
    duplicateIds: set<SetKey>, duplicateNames: set<SetKey>)

  /** One turn of the record loop. */
  function VisitStep(st: AreaLoop, i: nat, rec: Json): AreaLoop
  {
    var id := FieldKey(rec, "id", i);
    var name := FieldKey(rec, "name", i);
    AreaLoop(st.found.Add(RecordFindings(i, rec, st.seenIds, st.seenNames)),
             if id.Some? && id.value !in st.seenIds then st.seenIds + {id.value} else st.seenIds,
             if name.Some? && name.value !in st.seenNames then st.seenNames + {name.value} else st.seenNames,
             if id.Some? && id.value in st.seenIds then st.duplicateIds + {id.value} else st.duplicateIds,
             if name.Some? && name.value in st.seenNames then st.duplicateNames + {name.value} else st.duplicateNames)
  }

  /** The loop variables after the first `n` records. */
  function AreasUpTo(recs: seq<Json>, n: nat): AreaLoop
    requires n <= |recs|
  {
    if n == 0 then AreaLoop(NoFindings, {}, {}, {}, {})
    else VisitStep(AreasUpTo(recs, n - 1), n - 1, recs[n - 1])
  }

  /** What `validateAreas` returns or throws. */
  function ValidateAreasSpec(areas: Json): (r: Outcome<ValidationResult>)
    ensures r.Throws? <==> areas.JArr? && exists k :: 0 <= k < |areas.items| && areas.items[k].JNull?
    ensures r.Ok? && !areas.JArr? ==> r.value == NotArrayResult(AreasData)
    ensures r.Ok? ==> (r.value.valid <==> r.value.errors == [])
    ensures r.Ok? && areas.JArr? ==>
              r.value.stats.Some? && r.value.stats.value.AreaStats? && r.value.stats.value.total == |areas.items|
  {
    NullFreeIff(ArrayElements(areas), |ArrayElements(areas)|);
    if !areas.JArr? then Ok(NotArrayResult(AreasData))
    else if !NullFree(areas.items, |areas.items|) then
      Throws(TypeError("Cannot read properties of null (reading 'id')"))
    else
      var st := AreasUpTo(areas.items, |areas.items|);
      Ok(Finish(st.found, AreaStats(|areas.items|, |st.duplicateIds|, |st.duplicateNames|)))
  }

  // ---------------------------------------------------------------- what one record reports

  /** The issues the checks on the two fields push. */
  lemma FieldShape(i: nat, rec: Json, seenIds: set<SetKey>, seenNames: set<SetKey>, x: Issue)
    ensures x in FieldFindings(i, rec, seenIds, seenNames).errors ==>
      About(x, AreasData, i) && (x.MissingField? || x.DuplicateValue? || x.NotString?)
    ensures x in FieldFindings(i, rec, seenIds, seenNames).warnings ==> About(x, AreasData, i) && x.NotKebab?
  {
  }

  /** Everything record `i` reports is about record `i`, and errors and
      warnings each hold only their own kinds of issue. */
  lemma RecordShape(i: nat, rec: Json, seenIds: set<SetKey>, seenNames: set<SetKey>, x: Issue)
    ensures x in RecordFindings(i, rec, seenIds, seenNames).errors ==>
      About(x, AreasData, i) && !WarningKind(x)
      && (x.MissingField? || x.DuplicateValue? || x.NotString?)
    ensures x in RecordFindings(i, rec, seenIds, seenNames).warnings ==>
      About(x, AreasData, i) && WarningKind(x) && (x.NotKebab? || x.UnexpectedField?)
  {
    hide FieldFindings;
    FieldShape(i, rec, seenIds, seenNames, x);
    hide ObjectKeys;
    var keys := ObjectKeys(rec);
    UnexpectedKeysShape(AreasData, i, keys, |keys|, Allowed);
  }

  /** A missing or falsy `id` or `name` is an error, and no other field is
      reported missing. */
  lemma MissingInRecord(i: nat, rec: Json, seenIds: set<SetKey>, seenNames: set<SetKey>, f: string)
    ensures MissingField(AreasData, i, f) in RecordFindings(i, rec, seenIds, seenNames).errors
            <==> (f == "id" || f == "name") && !Present(Get(rec, f))
  {
    hide ObjectKeys;
    var keys := ObjectKeys(rec);
    UnexpectedKeysShape(AreasData, i, keys, |keys|, Allowed);
  }

  /** A present `id` whose string form is not kebab-case is a warning. */
  lemma KebabInRecord(i: nat, rec: Json, seenIds: set<SetKey>, seenNames: set<SetKey>, v: Json)
    ensures NotKebab(AreasData, i, "ID", v) in RecordFindings(i, rec, seenIds, seenNames).warnings
            <==> Present(Get(rec, "id")) && v == Get(rec, "id").value && !IsKebab(ToJsString(v))
  {
    hide ObjectKeys;
    var keys := ObjectKeys(rec);
    UnexpectedKeysShape(AreasData, i, keys, |keys|, Allowed);
  }

  /** A present `id` already seen is a duplicate error. */
  lemma DuplicateIdInRecord(i: nat, rec: Json, seenIds: set<SetKey>, seenNames: set<SetKey>, v: Json)
    ensures DuplicateValue(AreasData, i, "ID", v) in RecordFindings(i, rec, seenIds, seenNames).errors
            <==> FieldKey(rec, "id", i).Some? && v == Get(rec, "id").value && FieldKey(rec, "id", i).value in seenIds
  {
    hide ObjectKeys;
    var keys := ObjectKeys(rec);
    UnexpectedKeysShape(AreasData, i, keys, |keys|, Allowed);
  }

  /** A present `name` already seen is a duplicate error. */
  lemma DuplicateNameInRecord(i: nat, rec: Json, seenIds: set<SetKey>, seenNames: set<SetKey>, v: Json)
    ensures DuplicateValue(AreasData, i, "Nome", v) in RecordFindings(i, rec, seenIds, seenNames).errors
            <==> FieldKey(rec, "name", i).Some? && v == Get(rec, "name").value && FieldKey(rec, "name", i).value in seenNames
  {
    hide ObjectKeys;
    var keys := ObjectKeys(rec);
    UnexpectedKeysShape(AreasData, i, keys, |keys|, Allowed);
  }

  /** A truthy `id` or `name` that is not a string is an error. */
  lemma NotStringInRecord(i: nat, rec: Json, seenIds: set<SetKey>, seenNames: set<SetKey>, f: string)
    ensures NotString(AreasData, i, f) in RecordFindings(i, rec, seenIds, seenNames).errors
            <==> (f == "id" || f == "name") && Present(Get(rec, f)) && !Get(rec, f).value.JStr?
  {
    hide ObjectKeys;
    var keys := ObjectKeys(rec);
    UnexpectedKeysShape(AreasData, i, keys, |keys|, Allowed);
  }

  /** Every key other than `id` and `name` is a warning. */
  lemma UnexpectedInRecord(i: nat, rec: Json, seenIds: set<SetKey>, seenNames: set<SetKey>, k: string)
    ensures UnexpectedField(AreasData, i, k) in RecordFindings(i, rec, seenIds, seenNames).warnings
            <==> k in ObjectKeys(rec) && k != "id" && k != "name"
  {
    hide ObjectKeys;
    var keys := ObjectKeys(rec);
    UnexpectedKeyIff(AreasData, i, keys, |keys|, Allowed, k);
    AmongAll(k, keys);
  }

  // ---------------------------------------------------------------- the record loop

  /** One turn of the loop, spelled out. */
  lemma AreasUpToStep(recs: seq<Json>, n: nat)
    requires 0 < n <= |recs|
    ensures var prev := AreasUpTo(recs, n - 1);
      var id := FieldKey(recs[n - 1], "id", n - 1);
      var name := FieldKey(recs[n - 1], "name", n - 1);
      var st := AreasUpTo(recs, n);
      && st.found == prev.found.Add(RecordFindings(n - 1, recs[n - 1], prev.seenIds, prev.seenNames))
      && st.seenIds == (if id.Some? then prev.seenIds + {id.value} else prev.seenIds)
      && st.seenNames == (if name.Some? then prev.seenNames + {name.value} else prev.seenNames)
      && st.duplicateIds == (if id.Some? && id.value in prev.seenIds then prev.duplicateIds + {id.value} else prev.duplicateIds)
      && st.duplicateNames == (if name.Some? && name.value in prev.seenNames then prev.duplicateNames + {name.value} else prev.duplicateNames)
  {
    hide RecordFindings;
  }

  /** The loop's four sets are the `seen` and `duplicate` sets of the ids
      and of the names visited. */
  lemma {:induction false} AreasUpToSets(recs: seq<Json>, n: nat)
    requires n <= |recs|
    ensures AreasUpTo(recs, n).seenIds == Seen(FieldKeys(recs, "id"), n)
    ensures AreasUpTo(recs, n).seenNames == Seen(FieldKeys(recs, "name"), n)
    ensures AreasUpTo(recs, n).duplicateIds == Repeated(FieldKeys(recs, "id"), n)
    ensures AreasUpTo(recs, n).duplicateNames == Repeated(FieldKeys(recs, "name"), n)
  {
    hide RecordFindings;
    if n > 0 {
      AreasUpToStep(recs, n);
      AreasUpToSets(recs, n - 1);
      assert FieldKeys(recs, "id")[n - 1] == FieldKey(recs[n - 1], "id", n - 1);
      assert FieldKeys(recs, "name")[n - 1] == FieldKey(recs[n - 1], "name", n - 1);
    }
  }

  /** What the loop has pushed about record `j` is what record `j` reports,
      given the ids and names seen before it: errors. */
  lemma {:induction false} AreasUpToErrorsAt(recs: seq<Json>, n: nat, j: nat, x: Issue)
    requires n <= |recs| && About(x, AreasData, j)
    ensures x in AreasUpTo(recs, n).found.errors <==>
      j < n && x in RecordFindings(j, recs[j], AreasUpTo(recs, j).seenIds, AreasUpTo(recs, j).seenNames).errors
  {
    hide RecordFindings;
    if n > 0 {
      var prev := AreasUpTo(recs, n - 1);
      var one := RecordFindings(n - 1, recs[n - 1], prev.seenIds, prev.seenNames);
      AreasUpToStep(recs, n);
      assert AreasUpTo(recs, n).found.errors == prev.found.errors + one.errors;
      AreasUpToErrorsAt(recs, n - 1, j, x);
      RecordShape(n - 1, recs[n - 1], prev.seenIds, prev.seenNames, x);
    }
  }

  /** The same for warnings. */
  lemma {:induction false} AreasUpToWarningsAt(recs: seq<Json>, n: nat, j: nat, x: Issue)
    requires n <= |recs| && About(x, AreasData, j)
    ensures x in AreasUpTo(recs, n).found.warnings <==>
      j < n && x in RecordFindings(j, recs[j], AreasUpTo(recs, j).seenIds, AreasUpTo(recs, j).seenNames).warnings
  {
    hide RecordFindings;
    if n > 0 {
      var prev := AreasUpTo(recs, n - 1);
      var one := RecordFindings(n - 1, recs[n - 1], prev.seenIds, prev.seenNames);
      AreasUpToStep(recs, n);
      assert AreasUpTo(recs, n).found.warnings == prev.found.warnings + one.warnings;
      AreasUpToWarningsAt(recs, n - 1, j, x);
      RecordShape(n - 1, recs[n - 1], prev.seenIds, prev.seenNames, x);
    }
  }

  /** Over the whole loop: every issue is about a visited record, and errors
      and warnings hold only their own kinds. */
  lemma {:induction false} AreasUpToShape(recs: seq<Json>, n: nat, x: Issue)
    requires n <= |recs|
    ensures x in AreasUpTo(recs, n).found.errors ==>
      !x.NotAnArray? && x.dataset == AreasData && x.index < n && !WarningKind(x)
    ensures x in AreasUpTo(recs, n).found.warnings ==>
      !x.NotAnArray? && x.dataset == AreasData && x.index < n && WarningKind(x)
  {
    hide RecordFindings;
    if n > 0 {
      var prev := AreasUpTo(recs, n - 1);
      AreasUpToStep(recs, n);
      AreasUpToShape(recs, n - 1, x);
      RecordShape(n - 1, recs[n - 1], prev.seenIds, prev.seenNames, x);
    }
  }

  // ---------------------------------------------------------------- the result

  /** Every issue of a completed run is about one of the records, and a
      kebab-case miss or an unexpected key is never an error. */
  lemma ValidateAreasShape(areas: Json, x: Issue)
    requires ValidateAreasSpec(areas).Ok? && areas.JArr?
    ensures var r := ValidateAreasSpec(areas).value;
      && (x in r.errors ==> !x.NotAnArray? && x.dataset == AreasData && x.index < |areas.items| && !WarningKind(x))
      && (x in r.warnings ==> !x.NotAnArray? && x.dataset == AreasData && x.index < |areas.items| && WarningKind(x))
  {
    hide RecordFindings;
    AreasUpToShape(areas.items, |areas.items|, x);
  }

  /** A record without a truthy `id` or `name` gets an error naming it. */
  lemma ValidateAreasMissing(areas: Json, j: nat, f: string)
    requires ValidateAreasSpec(areas).Ok? && areas.JArr?
    ensures MissingField(AreasData, j, f) in ValidateAreasSpec(areas).value.errors
            <==> j < |areas.items| && (f == "id" || f == "name") && !Present(Get(areas.items[j], f))
  {
    hide RecordFindings;
    var recs := areas.items;
    AreasUpToErrorsAt(recs, |recs|, j, MissingField(AreasData, j, f));
    if j < |recs| {
      MissingInRecord(j, recs[j], AreasUpTo(recs, j).seenIds, AreasUpTo(recs, j).seenNames, f);
    }
  }

  /** A present id that is not kebab-case is a warning (and, by
      `ValidateAreasShape`, never an error). */
  lemma ValidateAreasKebab(areas: Json, j: nat, v: Json)
    requires ValidateAreasSpec(areas).Ok? && areas.JArr?
    ensures NotKebab(AreasData, j, "ID", v) in ValidateAreasSpec(areas).value.warnings
            <==> j < |areas.items| && Present(Get(areas.items[j], "id")) && v == Get(areas.items[j], "id").value
                 && !IsKebab(ToJsString(v))
  {
    hide RecordFindings;
    var recs := areas.items;
    AreasUpToWarningsAt(recs, |recs|, j, NotKebab(AreasData, j, "ID", v));
    if j < |recs| {
      KebabInRecord(j, recs[j], AreasUpTo(recs, j).seenIds, AreasUpTo(recs, j).seenNames, v);
    }
  }

  /** The first record with a given id is silent; each later one gets a
      duplicate error. */
  lemma ValidateAreasDuplicateId(areas: Json, j: nat, v: Json)
    requires ValidateAreasSpec(areas).Ok? && areas.JArr?
    ensures DuplicateValue(AreasData, j, "ID", v) in ValidateAreasSpec(areas).value.errors
            <==> j < |areas.items| && FieldKey(areas.items[j], "id", j).Some? && v == Get(areas.items[j], "id").value
                 && exists m :: 0 <= m < j && FieldKey(areas.items[m], "id", m) == FieldKey(areas.items[j], "id", j)
  {
    hide RecordFindings;
    var recs := areas.items;
    AreasUpToErrorsAt(recs, |recs|, j, DuplicateValue(AreasData, j, "ID", v));
    if j < |recs| {
      DuplicateIdInRecord(j, recs[j], AreasUpTo(recs, j).seenIds, AreasUpTo(recs, j).seenNames, v);
      AreasUpToSets(recs, j);
      var key := FieldKey(recs[j], "id", j);
      if key.Some? {
        var keys := FieldKeys(recs, "id");
        SeenIff(keys, j, key.value);
        if exists m :: 0 <= m < j && FieldKey(recs[m], "id", m) == key {
          var m :| 0 <= m < j && FieldKey(recs[m], "id", m) == key;
          assert keys[m] == Some(key.value);
        }
      }
    }
  }

  /** The first record with a given name is silent; each later one gets a
      duplicate error. */
  lemma ValidateAreasDuplicateName(areas: Json, j: nat, v: Json)
    requires ValidateAreasSpec(areas).Ok? && areas.JArr?
    ensures DuplicateValue(AreasData, j, "Nome", v) in ValidateAreasSpec(areas).value.errors
            <==> j < |areas.items| && FieldKey(areas.items[j], "name", j).Some? && v == Get(areas.items[j], "name").value
                 && exists m :: 0 <= m < j && FieldKey(areas.items[m], "name", m) == FieldKey(areas.items[j], "name", j)
  {
    hide RecordFindings;
    var recs := areas.items;
    AreasUpToErrorsAt(recs, |recs|, j, DuplicateValue(AreasData, j, "Nome", v));
    if j < |recs| {
      DuplicateNameInRecord(j, recs[j], AreasUpTo(recs, j).seenIds, AreasUpTo(recs, j).seenNames, v);
      AreasUpToSets(recs, j);
      var key := FieldKey(recs[j], "name", j);
      if key.Some? {
        var keys := FieldKeys(recs, "name");
        SeenIff(keys, j, key.value);
        if exists m :: 0 <= m < j && FieldKey(recs[m], "name", m) == key {
          var m :| 0 <= m < j && FieldKey(recs[m], "name", m) == key;
          assert keys[m] == Some(key.value);
        }
      }
    }
  }

  /** `duplicateIds` and `duplicateNames` count the distinct values two or
      more records share. */
  lemma ValidateAreasDuplicateCounts(areas: Json)
    requires ValidateAreasSpec(areas).Ok? && areas.JArr?
    ensures ValidateAreasSpec(areas).value.stats
            == Some(AreaStats(|areas.items|, |Shared(FieldKeys(areas.items, "id"))|, |Shared(FieldKeys(areas.items, "name"))|))
  {
    hide RecordFindings;
    AreasUpToSets(areas.items, |areas.items|);
    RepeatedIsShared(FieldKeys(areas.items, "id"));
    RepeatedIsShared(FieldKeys(areas.items, "name"));
  }

  /** A truthy `id` or `name` that is not a string is an error. */
  lemma ValidateAreasNotString(areas: Json, j: nat, f: string)
    requires ValidateAreasSpec(areas).Ok? && areas.JArr?
    ensures NotString(AreasData, j, f) in ValidateAreasSpec(areas).value.errors
            <==> j < |areas.items| && (f == "id" || f == "name") && Present(Get(areas.items[j], f))
                 && !Get(areas.items[j], f).value.JStr?
  {
    hide RecordFindings;
    var recs := areas.items;
    AreasUpToErrorsAt(recs, |recs|, j, NotString(AreasData, j, f));
    if j < |recs| {
      NotStringInRecord(j, recs[j], AreasUpTo(recs, j).seenIds, AreasUpTo(recs, j).seenNames, f);
    }
  }

  /** Every key other than `id` and `name`, such as `description` or `icon`,
      gives a warning naming it. */
  lemma ValidateAreasUnexpected(areas: Json, j: nat, k: string)
    requires ValidateAreasSpec(areas).Ok? && areas.JArr?
    ensures UnexpectedField(AreasData, j, k) in ValidateAreasSpec(areas).value.warnings
            <==> j < |areas.items| && k in ObjectKeys(areas.items[j]) && k != "id" && k != "name"
  {
    hide RecordFindings;
    var recs := areas.items;
    AreasUpToWarningsAt(recs, |recs|, j, UnexpectedField(AreasData, j, k));
    if j < |recs| {
      UnexpectedInRecord(j, recs[j], AreasUpTo(recs, j).seenIds, AreasUpTo(recs, j).seenNames, k);
    }
  }

  // ---------------------------------------------------------------- the code

  /** The body of the `forEach` callback for record `i`. */
  method CheckArea(i: nat, rec: Json, seenIds: set<SetKey>, seenNames: set<SetKey>) returns (r: Findings)
    ensures r == RecordFindings(i, rec, seenIds, seenNames)
  {
    r := FieldFindings(i, rec, seenIds, seenNames);
    var extra := CheckKeys(AreasData, i, rec, Allowed);
    r := r.Add(extra);
  }

  /** The callback with the loop variables it updates. */
  method VisitArea(st: AreaLoop, i: nat, rec: Json) returns (r: AreaLoop)
    ensures r == VisitStep(st, i, rec)
  {
    var one := CheckArea(i, rec, st.seenIds, st.seenNames);
    var seenIds, seenNames, duplicateIds, duplicateNames := st.seenIds, st.seenNames, st.duplicateIds, st.duplicateNames;
    var id := FieldKey(rec, "id", i);
    if id.Some? {
      if id.value in seenIds {
        duplicateIds := duplicateIds + {id.value};
      } else {
        seenIds := seenIds + {id.value};
      }
    }
    var name := FieldKey(rec, "name", i);
    if name.Some? {
      if name.value in seenNames {
        duplicateNames := duplicateNames + {name.value};
      } else {
        seenNames := seenNames + {name.value};
      }
    }
    r := AreaLoop(st.found.Add(one), seenIds, seenNames, duplicateIds, duplicateNames);
  }

  /** The `forEach` over the records; `None` when a `null` record makes the
      callback throw. */
  method VisitAreas(recs: seq<Json>) returns (r: Option<AreaLoop>)
    ensures r.None? <==> !NullFree(recs, |recs|)
    ensures r.Some? ==> r.value == AreasUpTo(recs, |recs|)
  {
    hide VisitStep;
    var st := AreaLoop(NoFindings, {}, {}, {}, {});
    var i := 0;
    while i < |recs|
      invariant 0 <= i <= |recs|
      invariant NullFree(recs, i)
      invariant st == AreasUpTo(recs, i)
    {
      if recs[i].JNull? {
        NullBreaks(recs, i, |recs|);
        return None;
      }
      st := VisitArea(st, i, recs[i]);
      i := i + 1;
    }
    r := Some(st);
  }

  method ValidateAreas(areas: Json) returns (r: Outcome<ValidationResult>)
    ensures r == ValidateAreasSpec(areas)
  {
    if !areas.JArr? {
      return Ok(NotArrayResult(AreasData));
    }
    var st := VisitAreas(areas.items);
    if st.None? {
      return Throws(TypeError("Cannot read properties of null (reading 'id')"));
    }
    r := Ok(Finish(st.value.found, AreaStats(|areas.items|, |st.value.duplicateIds|, |st.value.duplicateNames|)));
  }
}
