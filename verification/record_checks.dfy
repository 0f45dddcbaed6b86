/** The per-record checks that several validators share, each a `forEach`
    loop in the source: required fields, unexpected keys, fields that must
    be arrays, soft area references, `pipeline_examples` and `references`.
    Each loop is a method proved equal to a function over the prefix it has
    visited; what kinds of issue each function reports is stated by a
    separate lemma, so that the functions stay cheap to unfold. */
module RecordChecks {
  import opened Wrappers
  import opened Seqs
  import opened JsonValues
  import opened Issues

  // ---------------------------------------------------------------- required fields

  /** `requiredFields.forEach(field => { if (!rec[field]) errors.push(…) })`,
      over the first `n` fields. */
  function MissingFields(d: Dataset, i: nat, rec: Json, fields: seq<string>, n: nat): (r: Findings)
    requires n <= |fields|
    ensures r.warnings == []
    ensures |r.errors| <= n
  {
    if n == 0 then NoFindings
    else
      var f := fields[n - 1];
      MissingFields(d, i, rec, fields, n - 1)
        .Add(if Present(Get(rec, f)) then NoFindings else Error(MissingField(d, i, f)))
  }

  lemma {:induction false} MissingFieldsShape(d: Dataset, i: nat, rec: Json, fields: seq<string>, n: nat)
    requires n <= |fields|
    ensures forall x :: x in MissingFields(d, i, rec, fields, n).errors ==>
      x.MissingField? && About(x, d, i) && Among(x.field, fields, n)
  {
    if n > 0 {
      MissingFieldsShape(d, i, rec, fields, n - 1);
    }
  }

  /** A listed field is reported exactly when it is absent or falsy. */
  lemma {:induction false} MissingFieldIff(d: Dataset, i: nat, rec: Json, fields: seq<string>, n: nat, f: string)
    requires n <= |fields|
    ensures MissingField(d, i, f) in MissingFields(d, i, rec, fields, n).errors
            <==> Among(f, fields, n) && !Present(Get(rec, f))
  {
    if n > 0 {
      MissingFieldIff(d, i, rec, fields, n - 1, f);
      AmongStep(f, fields, n);
    }
  }

  /** With no field listed twice, no missing field is reported twice. */
  lemma {:induction false} MissingFieldsDistinct(d: Dataset, i: nat, rec: Json, fields: seq<string>, n: nat)
    requires n <= |fields| && Distinct(fields)
    ensures Distinct(MissingFields(d, i, rec, fields, n).errors)
  {
    if n > 0 {
      MissingFieldsDistinct(d, i, rec, fields, n - 1);
      var g := fields[n - 1];
      var prev := MissingFields(d, i, rec, fields, n - 1).errors;
      if !Present(Get(rec, g)) {
        MissingFieldsShape(d, i, rec, fields, n - 1);
        AmongDistinct(fields, n);
        assert MissingField(d, i, g) !in prev;
        assert MissingFields(d, i, rec, fields, n).errors == prev + [MissingField(d, i, g)];
        DistinctSnoc(prev, MissingField(d, i, g));
      } else {
        assert MissingFields(d, i, rec, fields, n).errors == prev + [];
      }
    }
  }

  /** With no field listed twice, each missing field is reported exactly
      once. */
  lemma MissingFieldOnce(d: Dataset, i: nat, rec: Json, fields: seq<string>, n: nat, f: string)
    requires n <= |fields| && Distinct(fields)
    ensures multiset(MissingFields(d, i, rec, fields, n).errors)[MissingField(d, i, f)]
            == if Among(f, fields, n) && !Present(Get(rec, f)) then 1 else 0
  {
    MissingFieldsDistinct(d, i, rec, fields, n);
    MissingFieldIff(d, i, rec, fields, n, f);
    DistinctCount(MissingFields(d, i, rec, fields, n).errors, MissingField(d, i, f));
  }

  method CheckRequired(d: Dataset, i: nat, rec: Json, fields: seq<string>) returns (r: Findings)
    ensures r == MissingFields(d, i, rec, fields, |fields|)
  {
    var errors: seq<Issue> := [];
    var k := 0;
    while k < |fields|
      invariant 0 <= k <= |fields|
      invariant Findings(errors, []) == MissingFields(d, i, rec, fields, k)
    {
      var field := fields[k];
      if !Present(Get(rec, field)) {
        errors := errors + [MissingField(d, i, field)];
      }
      k := k + 1;
    }
    r := Findings(errors, []);
  }

  // ---------------------------------------------------------------- unexpected keys

  /** `Object.keys(rec).forEach(key => { if (!allowed.includes(key)) warnings.push(…) })`,
      over the first `n` keys. */
  function UnexpectedKeys(d: Dataset, i: nat, keys: seq<string>, n: nat, allowed: seq<string>): (r: Findings)
    requires n <= |keys|
    ensures r.errors == []
    ensures |r.warnings| <= n
  {
    if n == 0 then NoFindings
    else
      var key := keys[n - 1];
      UnexpectedKeys(d, i, keys, n - 1, allowed)
        .Add(if key in allowed then NoFindings else Warning(UnexpectedField(d, i, key)))
  }

  lemma {:induction false} UnexpectedKeysShape(d: Dataset, i: nat, keys: seq<string>, n: nat, allowed: seq<string>)
    requires n <= |keys|
    ensures forall x :: x in UnexpectedKeys(d, i, keys, n, allowed).warnings ==>
      x.UnexpectedField? && About(x, d, i) && Among(x.field, keys, n) && x.field !in allowed
  {
    if n > 0 {
      UnexpectedKeysShape(d, i, keys, n - 1, allowed);
    }
  }

  /** A key is reported exactly when it is one of the keys and not allowed. */
  lemma {:induction false} UnexpectedKeyIff(d: Dataset, i: nat, keys: seq<string>, n: nat, allowed: seq<string>, key: string)
    requires n <= |keys|
    ensures UnexpectedField(d, i, key) in UnexpectedKeys(d, i, keys, n, allowed).warnings
            <==> Among(key, keys, n) && key !in allowed
  {
    if n > 0 {
      UnexpectedKeyIff(d, i, keys, n - 1, allowed, key);
      AmongStep(key, keys, n);
    }
  }

  /** With no key listed twice, no key is reported twice. */
  lemma {:induction false} UnexpectedKeysDistinct(d: Dataset, i: nat, keys: seq<string>, n: nat, allowed: seq<string>)
    requires n <= |keys| && Distinct(keys)
    ensures Distinct(UnexpectedKeys(d, i, keys, n, allowed).warnings)
  {
    if n > 0 {
      UnexpectedKeysDistinct(d, i, keys, n - 1, allowed);
      var k := keys[n - 1];
      var prev := UnexpectedKeys(d, i, keys, n - 1, allowed).warnings;
      if k !in allowed {
        UnexpectedKeysShape(d, i, keys, n - 1, allowed);
        AmongDistinct(keys, n);
        assert UnexpectedField(d, i, k) !in prev;
        assert UnexpectedKeys(d, i, keys, n, allowed).warnings == prev + [UnexpectedField(d, i, k)];
        DistinctSnoc(prev, UnexpectedField(d, i, k));
      } else {
        assert UnexpectedKeys(d, i, keys, n, allowed).warnings == prev + [];
      }
    }
  }

  /** With no key listed twice, as `Object.keys` lists them, each key
      outside the allowed list is reported exactly once. */
  lemma UnexpectedKeyOnce(d: Dataset, i: nat, keys: seq<string>, n: nat, allowed: seq<string>, key: string)
    requires n <= |keys| && Distinct(keys)
    ensures multiset(UnexpectedKeys(d, i, keys, n, allowed).warnings)[UnexpectedField(d, i, key)]
            == if Among(key, keys, n) && key !in allowed then 1 else 0
  {
    UnexpectedKeysDistinct(d, i, keys, n, allowed);
    UnexpectedKeyIff(d, i, keys, n, allowed, key);
    DistinctCount(UnexpectedKeys(d, i, keys, n, allowed).warnings, UnexpectedField(d, i, key));
  }

  method CheckKeys(d: Dataset, i: nat, rec: Json, allowed: seq<string>) returns (r: Findings)
    ensures r == UnexpectedKeys(d, i, ObjectKeys(rec), |ObjectKeys(rec)|, allowed)
  {
    hide ObjectKeys;
    var keys := ObjectKeys(rec);
    var warnings: seq<Issue> := [];
    var k := 0;
    while k < |keys|
      invariant 0 <= k <= |keys|
      invariant Findings([], warnings) == UnexpectedKeys(d, i, keys, k, allowed)
    {
      if keys[k] !in allowed {
        warnings := warnings + [UnexpectedField(d, i, keys[k])];
      }
      k := k + 1;
    }
    r := Findings([], warnings);
  }

  // ---------------------------------------------------------------- array fields

  /** `[…].forEach(field => { if (rec[field] && !Array.isArray(rec[field])) errors.push(…) })`,
      over the first `n` fields. */
  function NonArrayFields(d: Dataset, i: nat, rec: Json, fields: seq<string>, n: nat): (r: Findings)
    requires n <= |fields|
    ensures r.warnings == []
    ensures |r.errors| <= n
  {
    if n == 0 then NoFindings
    else
      var f := fields[n - 1];
      var v := Get(rec, f);
      NonArrayFields(d, i, rec, fields, n - 1)
        .Add(if Present(v) && !v.value.JArr? then Error(NotArrayField(d, i, f)) else NoFindings)
  }

  lemma {:induction false} NonArrayFieldsShape(d: Dataset, i: nat, rec: Json, fields: seq<string>, n: nat)
    requires n <= |fields|
    ensures forall x :: x in NonArrayFields(d, i, rec, fields, n).errors ==>
      x.NotArrayField? && About(x, d, i) && Among(x.field, fields, n)
  {
    if n > 0 {
      NonArrayFieldsShape(d, i, rec, fields, n - 1);
    }
  }

  /** A listed field is reported exactly when it is truthy and not an array. */
  lemma {:induction false} NonArrayFieldIff(d: Dataset, i: nat, rec: Json, fields: seq<string>, n: nat, f: string)
    requires n <= |fields|
    ensures NotArrayField(d, i, f) in NonArrayFields(d, i, rec, fields, n).errors
            <==> Among(f, fields, n) && Present(Get(rec, f)) && !Get(rec, f).value.JArr?
  {
    if n > 0 {
      NonArrayFieldIff(d, i, rec, fields, n - 1, f);
    }
  }

  method CheckArrayFields(d: Dataset, i: nat, rec: Json, fields: seq<string>) returns (r: Findings)
    ensures r == NonArrayFields(d, i, rec, fields, |fields|)
  {
    var errors: seq<Issue> := [];
    var k := 0;
    while k < |fields|
      invariant 0 <= k <= |fields|
      invariant Findings(errors, []) == NonArrayFields(d, i, rec, fields, k)
    {
      var v := Get(rec, fields[k]);
      if Present(v) && !v.value.JArr? {
        errors := errors + [NotArrayField(d, i, fields[k])];
      }
      k := k + 1;
    }
    r := Findings(errors, []);
  }

  // ---------------------------------------------------------------- soft area references

  /** The string values of `field` among the first `n` area records: the
      members of `new Set(validAreas.map(a => a[field]))` that a string can
      match. */
  function KnownStrings(areas: seq<Json>, field: string, n: nat): set<string>
    requires n <= |areas|
  {
    if n == 0 then {}
    else
      var v := Get(areas[n - 1], field);
      KnownStrings(areas, field, n - 1) + (if v.Some? && v.value.JStr? then {v.value.s} else {})
  }

  lemma {:induction false} KnownStringsIff(areas: seq<Json>, field: string, n: nat, s: string)
    requires n <= |areas|
    ensures s in KnownStrings(areas, field, n) <==> exists k :: 0 <= k < n && Get(areas[k], field) == Some(JStr(s))
  {
    if n > 0 {
      KnownStringsIff(areas, field, n - 1, s);
    }
  }

  /** `new Set(validAreas.map(a => a[field]))`: `map` exists only on arrays,
      and reading a field of a null element throws. The set is kept only
      for the string matches it can give, together with whether it is
      non-empty. */
  function KnownAreas(validAreas: Json, field: string): (r: Outcome<(bool, set<string>)>)
    ensures r.Ok? <==> validAreas.JArr? && forall k :: 0 <= k < |validAreas.items| ==> !validAreas.items[k].JNull?
    ensures r.Ok? ==> r.value.0 == (|validAreas.items| > 0)
  {
    if !validAreas.JArr? then Throws(TypeError("validAreas.map is not a function"))
    else
      NullFreeIff(validAreas.items, |validAreas.items|);
      if !NullFree(validAreas.items, |validAreas.items|) then
        Throws(TypeError("Cannot read properties of null (reading '" + field + "')"))
      else Ok((|validAreas.items| > 0, KnownStrings(validAreas.items, field, |validAreas.items|)))
  }

  method CollectKnownAreas(validAreas: Json, field: string) returns (r: Outcome<(bool, set<string>)>)
    ensures r == KnownAreas(validAreas, field)
  {
    if !validAreas.JArr? {
      return Throws(TypeError("validAreas.map is not a function"));
    }
    var areas := validAreas.items;
    var known: set<string> := {};
    var k := 0;
    while k < |areas|
      invariant 0 <= k <= |areas|
      invariant NullFree(areas, k)
      invariant known == KnownStrings(areas, field, k)
    {
      if areas[k].JNull? {
        NullBreaks(areas, k, |areas|);
        return Throws(TypeError("Cannot read properties of null (reading '" + field + "')"));
      }
      var v := Get(areas[k], field);
      if v.Some? && v.value.JStr? {
        known := known + {v.value.s};
      }
      k := k + 1;
    }
    r := Ok((|areas| > 0, known));
  }

  /** The area list check of a record over its first `n` entries: a
      non-string entry is an error; a string entry missing from `known` is a
      warning, and only when `active` (the valid-areas set is non-empty). */
  function AreaRefs(d: Dataset, i: nat, entries: seq<Json>, n: nat, active: bool, known: set<string>): (r: Findings)
    requires n <= |entries|
    ensures |r.errors| + |r.warnings| <= n
    ensures !active ==> r.warnings == []
  {
    if n == 0 then NoFindings
    else
      var e := entries[n - 1];
      AreaRefs(d, i, entries, n - 1, active, known)
        .Add(if !e.JStr? then Error(AreaEntryNotString(d, i, n - 1))
             else if active && e.s !in known then Warning(UnknownArea(d, i, e))
             else NoFindings)
  }

  lemma {:induction false} AreaRefsShape(d: Dataset, i: nat, entries: seq<Json>, n: nat, active: bool, known: set<string>)
    requires n <= |entries|
    ensures forall x :: x in AreaRefs(d, i, entries, n, active, known).errors ==>
      x.AreaEntryNotString? && About(x, d, i) && x.item < n
  {
    if n > 0 {
      AreaRefsShape(d, i, entries, n - 1, active, known);
      var prev := AreaRefs(d, i, entries, n - 1, active, known).errors;
      var added := if !entries[n - 1].JStr? then [AreaEntryNotString(d, i, n - 1)] else [];
      assert AreaRefs(d, i, entries, n, active, known).errors == prev + added;
    }
  }

  lemma {:induction false} AreaRefsWarningShape(d: Dataset, i: nat, entries: seq<Json>, n: nat, active: bool, known: set<string>)
    requires n <= |entries|
    ensures forall x :: x in AreaRefs(d, i, entries, n, active, known).warnings ==>
      x.UnknownArea? && About(x, d, i) && Among(x.value, entries, n)
  {
    if n > 0 {
      AreaRefsWarningShape(d, i, entries, n - 1, active, known);
    }
  }

  /** A string entry is reported as unknown exactly when checking is active
      and no valid area carries it. */
  lemma {:induction false} UnknownAreaIff(d: Dataset, i: nat, entries: seq<Json>, n: nat, active: bool, known: set<string>, s: string)
    requires n <= |entries|
    ensures UnknownArea(d, i, JStr(s)) in AreaRefs(d, i, entries, n, active, known).warnings
            <==> active && s !in known && Among(JStr(s), entries, n)
  {
    if n > 0 {
      UnknownAreaIff(d, i, entries, n - 1, active, known, s);
    }
  }

  /** A non-string entry at position `j` is an error, and only then. */
  lemma {:induction false} AreaEntryNotStringIff(d: Dataset, i: nat, entries: seq<Json>, n: nat, active: bool, known: set<string>, j: nat)
    requires n <= |entries|
    ensures AreaEntryNotString(d, i, j) in AreaRefs(d, i, entries, n, active, known).errors
            <==> j < n && !entries[j].JStr?
  {
    if n > 0 {
      AreaEntryNotStringIff(d, i, entries, n - 1, active, known, j);
      AreaRefsShape(d, i, entries, n - 1, active, known);
    }
  }

  method CheckAreaRefs(d: Dataset, i: nat, entries: seq<Json>, active: bool, known: set<string>) returns (r: Findings)
    ensures r == AreaRefs(d, i, entries, |entries|, active, known)
  {
    var errors: seq<Issue>, warnings: seq<Issue> := [], [];
    var j := 0;
    while j < |entries|
      invariant 0 <= j <= |entries|
      invariant Findings(errors, warnings) == AreaRefs(d, i, entries, j, active, known)
    {
      var e := entries[j];
      if !e.JStr? {
        errors := errors + [AreaEntryNotString(d, i, j)];
      } else if active && e.s !in known {
        warnings := warnings + [UnknownArea(d, i, e)];
      }
      j := j + 1;
    }
    r := Findings(errors, warnings);
  }

  // ---------------------------------------------------------------- pipeline examples

  /** One element of `pipeline_examples`: it must be an object with a truthy
      `pipeline` and a truthy `explanation`. */
  function PipelineFindings(d: Dataset, i: nat, j: nat, p: Json): (r: Findings)
    ensures r.warnings == []
    ensures r.errors == [] <==> IsObjectLike(p) && Present(Get(p, "pipeline")) && Present(Get(p, "explanation"))
  {
    if !IsObjectLike(p) then Error(PipelineNotObject(d, i, j))
    else
      (if Present(Get(p, "pipeline")) then NoFindings else Error(PipelineMissing(d, i, j, "pipeline")))
        .Add(if Present(Get(p, "explanation")) then NoFindings else Error(PipelineMissing(d, i, j, "explanation")))
  }

  lemma PipelineFindingsShape(d: Dataset, i: nat, j: nat, p: Json)
    ensures forall x :: x in PipelineFindings(d, i, j, p).errors ==>
      (x.PipelineNotObject? || x.PipelineMissing?) && About(x, d, i) && x.item == j
  {
  }

  /** The `pipeline_examples` loop over the first `n` elements. */
  function Pipelines(d: Dataset, i: nat, items: seq<Json>, n: nat): (r: Findings)
    requires n <= |items|
    ensures r.warnings == []
  {
    if n == 0 then NoFindings
    else Pipelines(d, i, items, n - 1).Add(PipelineFindings(d, i, n - 1, items[n - 1]))
  }

  lemma {:induction false} PipelinesShape(d: Dataset, i: nat, items: seq<Json>, n: nat)
    requires n <= |items|
    ensures forall x :: x in Pipelines(d, i, items, n).errors ==>
      (x.PipelineNotObject? || x.PipelineMissing?) && About(x, d, i) && x.item < n
  {
    hide PipelineFindings;
    if n > 0 {
      PipelinesShape(d, i, items, n - 1);
      PipelineFindingsShape(d, i, n - 1, items[n - 1]);
    }
  }

  /** The list holds no error exactly when every element is a well-formed
      pipeline example. */
  lemma {:induction false} PipelinesEmptyIff(d: Dataset, i: nat, items: seq<Json>, n: nat)
    requires n <= |items|
    ensures Pipelines(d, i, items, n).errors == [] <==>
      forall j :: 0 <= j < n ==> PipelineFindings(d, i, j, items[j]).errors == []
  {
    if n > 0 {
      PipelinesEmptyIff(d, i, items, n - 1);
    }
  }

  method CheckPipelines(d: Dataset, i: nat, items: seq<Json>) returns (r: Findings)
    ensures r == Pipelines(d, i, items, |items|)
  {
    var errors: seq<Issue> := [];
    var j := 0;
    while j < |items|
      invariant 0 <= j <= |items|
      invariant Findings(errors, []) == Pipelines(d, i, items, j)
    {
      var p := items[j];
      if !IsObjectLike(p) {
        errors := errors + [PipelineNotObject(d, i, j)];
      } else {
        if !Present(Get(p, "pipeline")) {
          errors := errors + [PipelineMissing(d, i, j, "pipeline")];
        }
        if !Present(Get(p, "explanation")) {
          errors := errors + [PipelineMissing(d, i, j, "explanation")];
        }
      }
      j := j + 1;
    }
    r := Findings(errors, []);
  }

  // ---------------------------------------------------------------- references

  /** The four reference types a format reference may declare. */
  predicate ValidReferenceType(v: Json)
  {
    v in [JStr("documentation"), JStr("paper"), JStr("tool"), JStr("standard")]
  }

  /** One element of `references`. It must be an object with a truthy `title`
      and `url`; a url that `new URL(…)` rejects (`urlOk` false on its string
      form) is a warning. With `withType` (formats) a truthy `type` among the
      four reference types is also required. */
  function ReferenceFindings(d: Dataset, i: nat, j: nat, ref: Json, withType: bool, urlOk: string -> bool): (r: Findings)
    ensures |r.warnings| <= 1
  {
    if !IsObjectLike(ref) then Error(ReferenceNotObject(d, i, j))
    else
      var title := Get(ref, "title");
      var url := Get(ref, "url");
      var refType := Get(ref, "type");
      (if Present(title) then NoFindings else Error(ReferenceMissing(d, i, j, "title")))
        .Add(if !Present(url) then Error(ReferenceMissing(d, i, j, "url"))
             else if urlOk(ToJsString(url.value)) then NoFindings
             else Warning(ReferenceBadUrl(d, i, j, url.value)))
        .Add(if !withType then NoFindings
             else if !Present(refType) then Error(ReferenceMissing(d, i, j, "type"))
             else if ValidReferenceType(refType.value) then NoFindings
             else Error(ReferenceBadType(d, i, j, refType.value)))
  }

  /** What one reference reports, issue by issue: a non-object is reported
      as such; otherwise each absent field among title, url and (with
      `withType`) type is reported missing, a url that does not parse is a
      warning, and a type outside the four is reported. */
  lemma ReferenceFindingsIff(d: Dataset, i: nat, j: nat, ref: Json, withType: bool, urlOk: string -> bool,
                             f: string, v: Json)
    ensures var r := ReferenceFindings(d, i, j, ref, withType, urlOk);
      && (ReferenceNotObject(d, i, j) in r.errors <==> !IsObjectLike(ref))
      && (ReferenceMissing(d, i, j, f) in r.errors <==>
            IsObjectLike(ref) && (f == "title" || f == "url" || (withType && f == "type")) && !Present(Get(ref, f)))
      && (ReferenceBadUrl(d, i, j, v) in r.warnings <==>
            IsObjectLike(ref) && Present(Get(ref, "url")) && v == Get(ref, "url").value && !urlOk(ToJsString(v)))
      && (ReferenceBadType(d, i, j, v) in r.errors <==>
            IsObjectLike(ref) && withType && Present(Get(ref, "type")) && v == Get(ref, "type").value
            && !ValidReferenceType(v))
  {
  }

  /** Every issue of one reference is about that reference. */
  lemma ReferenceFindingsShape(d: Dataset, i: nat, j: nat, ref: Json, withType: bool, urlOk: string -> bool, x: Issue)
    ensures x in ReferenceFindings(d, i, j, ref, withType, urlOk).errors ==>
      (x.ReferenceNotObject? || x.ReferenceMissing? || x.ReferenceBadType?) && About(x, d, i) && x.item == j
    ensures x in ReferenceFindings(d, i, j, ref, withType, urlOk).warnings ==>
      x.ReferenceBadUrl? && About(x, d, i) && x.item == j
  {
  }

  /** The `references` loop over the first `n` elements. */
  function References(d: Dataset, i: nat, refs: seq<Json>, n: nat, withType: bool, urlOk: string -> bool): (r: Findings)
    requires n <= |refs|
    ensures |r.warnings| <= n
  {
    if n == 0 then NoFindings
    else References(d, i, refs, n - 1, withType, urlOk).Add(ReferenceFindings(d, i, n - 1, refs[n - 1], withType, urlOk))
  }

  /** What the list reports about its element `j` is what the element check
      reports. */
  lemma {:induction false} ReferencesAt(d: Dataset, i: nat, refs: seq<Json>, n: nat, withType: bool, urlOk: string -> bool, j: nat, x: Issue)
    requires j < n <= |refs| && ItemIssue(x) && x.item == j
    ensures x in References(d, i, refs, n, withType, urlOk).errors <==> x in ReferenceFindings(d, i, j, refs[j], withType, urlOk).errors
    ensures x in References(d, i, refs, n, withType, urlOk).warnings <==> x in ReferenceFindings(d, i, j, refs[j], withType, urlOk).warnings
  {
    hide ReferenceFindings;
    ReferenceFindingsShape(d, i, n - 1, refs[n - 1], withType, urlOk, x);
    if j < n - 1 {
      ReferencesAt(d, i, refs, n - 1, withType, urlOk, j, x);
    } else {
      ReferencesShape(d, i, refs, n - 1, withType, urlOk);
    }
  }

  /** Every issue the list holds is about one of its elements. */
  lemma {:induction false} ReferencesShape(d: Dataset, i: nat, refs: seq<Json>, n: nat, withType: bool, urlOk: string -> bool)
    requires n <= |refs|
    ensures forall x :: x in References(d, i, refs, n, withType, urlOk).errors ==>
      (x.ReferenceNotObject? || x.ReferenceMissing? || x.ReferenceBadType?) && About(x, d, i) && x.item < n
    ensures forall x :: x in References(d, i, refs, n, withType, urlOk).warnings ==>
      x.ReferenceBadUrl? && About(x, d, i) && x.item < n
  {
    if n > 0 {
      ReferencesShape(d, i, refs, n - 1, withType, urlOk);
      forall x | x in ReferenceFindings(d, i, n - 1, refs[n - 1], withType, urlOk).errors
                 || x in ReferenceFindings(d, i, n - 1, refs[n - 1], withType, urlOk).warnings {
        ReferenceFindingsShape(d, i, n - 1, refs[n - 1], withType, urlOk, x);
      }
    }
  }

  method CheckReferences(d: Dataset, i: nat, refs: seq<Json>, withType: bool, urlOk: string -> bool) returns (r: Findings)
    ensures r == References(d, i, refs, |refs|, withType, urlOk)
  {
    var errors: seq<Issue>, warnings: seq<Issue> := [], [];
    var j := 0;
    while j < |refs|
      invariant 0 <= j <= |refs|
      invariant Findings(errors, warnings) == References(d, i, refs, j, withType, urlOk)
    {
      var one := ReferenceFindings(d, i, j, refs[j], withType, urlOk);
      errors, warnings := errors + one.errors, warnings + one.warnings;
      j := j + 1;
    }
    r := Findings(errors, warnings);
  }
}
