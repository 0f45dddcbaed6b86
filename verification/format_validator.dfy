/** `validateFormats(formats, validAreas)`: the checks on each format record,
    the duplicate-extension bookkeeping and the final result. */
module FormatValidator {
  import opened Wrappers
  import opened Text
  import opened Seqs
  import opened JsonValues
  import opened Issues
  import opened Dedup
  import opened RecordChecks

  const Required: seq<string> := ["extension", "name", "area", "description", "example_filenames",
    "example_file_content", "example_file_explanation", "pipeline_examples",
    "tools", "references", "encoding_type"]

  /** The fields that must be arrays whenever they are truthy. */
  const ArrayFields: seq<string> := ["example_filenames", "example_file_explanation",
    "pipeline_examples", "tools", "references"]

  const Allowed: seq<string> := Required + ["used_in_repositories", "notes"]

  /** The value the duplicate check tracks: a truthy string extension. */
  function ExtensionKey(rec: Json): (r: Option<string>)
    ensures r.Some? <==> Present(Get(rec, "extension")) && Get(rec, "extension").value.JStr?
    ensures r.Some? ==> Get(rec, "extension") == Some(JStr(r.value))
  {
    var e := Get(rec, "extension");
    if Present(e) && e.value.JStr? then Some(e.value.s) else None
  }

  function ExtensionKeys(recs: seq<Json>): (r: seq<Option<string>>)
    ensures |r| == |recs|
    ensures forall k :: 0 <= k < |recs| ==> r[k] == ExtensionKey(recs[k])
  {
    seq(|recs|, k requires 0 <= k < |recs| => ExtensionKey(recs[k]))
  }

  /** The `extension` checks: a truthy non-string is an error; a string is a
      duplicate error when already seen, and a warning when it starts with
      a dot. */
  function ExtensionFindings(i: nat, rec: Json, seen: set<string>): (r: Findings)
    ensures |r.errors| <= 1 && |r.warnings| <= 1
  {
    var e := Get(rec, "extension");
    if !Present(e) then NoFindings
    else if !e.value.JStr? then Error(NotString(FormatsData, i, "extension"))
    else
      (if e.value.s in seen then Error(DuplicateExtension(FormatsData, i, e.value)) else NoFindings)
        .Add(if StartsWith(e.value.s, ".") then Warning(LeadingDot(FormatsData, i, e.value)) else NoFindings)
  }

  /** `name`, when truthy, must be a string. */
  function NameFindings(i: nat, rec: Json): (r: Findings)
    ensures r.warnings == [] && |r.errors| <= 1
  {
    var v := Get(rec, "name");
    if Present(v) && !v.value.JStr? then Error(NotString(FormatsData, i, "name")) else NoFindings
  }

  /** `area`, when truthy, must be an array of strings naming valid areas. */
  function AreaFindings(i: nat, rec: Json, active: bool, known: set<string>): (r: Findings)
    ensures !active ==> r.warnings == []
  {
    var a := Get(rec, "area");
    if !Present(a) then NoFindings
    else if !a.value.JArr? then Error(NotArrayField(FormatsData, i, "area"))
    else AreaRefs(FormatsData, i, a.value.items, |a.value.items|, active, known)
  }

  /** `used_in_repositories` and `notes`, when truthy, must be an array and a
      string. */
  function OptionalFindings(i: nat, rec: Json): (r: Findings)
    ensures r.warnings == [] && |r.errors| <= 2
  {
    var repos := Get(rec, "used_in_repositories");
    var notes := Get(rec, "notes");
    (if Present(repos) && !repos.value.JArr? then Error(NotArrayWhenPresent(FormatsData, i, "used_in_repositories")) else NoFindings)
      .Add(if Present(notes) && !notes.value.JStr? then Error(NotStringWhenPresent(FormatsData, i, "notes")) else NoFindings)
  }

  /** The checks on the record's own fields, in push order. */
  function FieldFindings(i: nat, rec: Json, active: bool, known: set<string>, seen: set<string>): (r: Findings)
  {
    var required := MissingFields(FormatsData, i, rec, Required, |Required|);
    var extension := ExtensionFindings(i, rec, seen);
    var name := NameFindings(i, rec);
    var area := AreaFindings(i, rec, active, known);
    required.Add(extension).Add(name).Add(area)
  }

  /** The checks on the record's nested lists and optional fields, then the
      unexpected keys, in push order. */
  function ListFindings(i: nat, rec: Json, urlOk: string -> bool): (r: Findings)
  {
    var arrays := NonArrayFields(FormatsData, i, rec, ArrayFields, |ArrayFields|);
    var examples := ArrayItems(rec, "pipeline_examples");
    var pipelines := Pipelines(FormatsData, i, examples, |examples|);
    var refList := ArrayItems(rec, "references");
    var refs := References(FormatsData, i, refList, |refList|, true, urlOk);
    var optional := OptionalFindings(i, rec);
    var extra := UnexpectedKeys(FormatsData, i, ObjectKeys(rec), |ObjectKeys(rec)|, Allowed);
    arrays.Add(pipelines).Add(refs).Add(optional).Add(extra)
  }

  /** Everything the `forEach` callback pushes for record `i`, in push order,
      given the extensions seen before it. */
  function FormatFindings(i: nat, rec: Json, active: bool, known: set<string>, seen: set<string>, urlOk: string -> bool): (r: Findings)
  {
    var fields := FieldFindings(i, rec, active, known, seen);
    var lists := ListFindings(i, rec, urlOk);
    fields.Add(lists)
  }

  /** The variables of the record loop: the findings pushed so far and the
      `seenExtensions` and `duplicateExtensions` sets. */
  datatype FormatLoop = FormatLoop(found: Findings, seen: set<string>, duplicates: set<string>)

  /** One turn of the record loop: push what record `i` reports, then file
      its extension under `seen` or `duplicates`. */
  function VisitStep(st: FormatLoop, i: nat, rec: Json, active: bool, known: set<string>, urlOk: string -> bool): FormatLoop
  {
    var key := ExtensionKey(rec);
    FormatLoop(st.found.Add(FormatFindings(i, rec, active, known, st.seen, urlOk)),
               if key.Some? && key.value !in st.seen then st.seen + {key.value} else st.seen,
               if key.Some? && key.value in st.seen then st.duplicates + {key.value} else st.duplicates)
  }

  /** The loop variables after the first `n` records. */
  function FormatsUpTo(recs: seq<Json>, n: nat, active: bool, known: set<string>, urlOk: string -> bool): FormatLoop
    requires n <= |recs|
  {
    if n == 0 then FormatLoop(NoFindings, {}, {})
    else VisitStep(FormatsUpTo(recs, n - 1, active, known, urlOk), n - 1, recs[n - 1], active, known, urlOk)
  }

  /** What `validateFormats` returns or throws. */
  function ValidateFormatsSpec(formats: Json, validAreas: Json, urlOk: string -> bool): (r: Outcome<ValidationResult>)
    ensures r.Throws? <==> KnownAreas(validAreas, "name").Throws?
                           || (formats.JArr? && exists k :: 0 <= k < |formats.items| && formats.items[k].JNull?)
    ensures r.Ok? && !formats.JArr? ==> r.value == NotArrayResult(FormatsData)
    ensures r.Ok? ==> (r.value.valid <==> r.value.errors == [])
    ensures r.Ok? && formats.JArr? ==>
              r.value.stats.Some? && r.value.stats.value.FormatStats? && r.value.stats.value.total == |formats.items|
  {
    NullFreeIff(ArrayElements(formats), |ArrayElements(formats)|);
    match KnownAreas(validAreas, "name")
    case Throws(e) => Throws(e)
    case Ok(areas) =>
      if !formats.JArr? then Ok(NotArrayResult(FormatsData))
      else if !NullFree(formats.items, |formats.items|) then
        Throws(TypeError("Cannot read properties of null (reading 'extension')"))
      else
        var st := FormatsUpTo(formats.items, |formats.items|, areas.0, areas.1, urlOk);
        Ok(Finish(st.found, FormatStats(|formats.items|, |st.duplicates|)))
  }

  // ---------------------------------------------------------------- what one record reports

  /** The issues pushed by the `extension` check. */
  lemma ExtensionFindingsShape(i: nat, rec: Json, seen: set<string>, x: Issue)
    ensures x in ExtensionFindings(i, rec, seen).errors ==> x.NotString? || x.DuplicateExtension?
    ensures x in ExtensionFindings(i, rec, seen).warnings ==> x.LeadingDot?
  {
  }

  /** The issues pushed by the `area` check. */
  lemma AreaFindingsShape(i: nat, rec: Json, active: bool, known: set<string>, x: Issue)
    ensures x in AreaFindings(i, rec, active, known).errors ==>
      About(x, FormatsData, i) && (x.NotArrayField? || x.AreaEntryNotString?)
    ensures x in AreaFindings(i, rec, active, known).warnings ==> About(x, FormatsData, i) && active && x.UnknownArea?
  {
    var a := Get(rec, "area");
    if Present(a) && a.value.JArr? {
      AreaRefsShape(FormatsData, i, a.value.items, |a.value.items|, active, known);
      AreaRefsWarningShape(FormatsData, i, a.value.items, |a.value.items|, active, known);
    }
  }

  /** The issues pushed by the checks on a record's own fields. */
  lemma FieldFindingsShape(i: nat, rec: Json, active: bool, known: set<string>, seen: set<string>, x: Issue)
    ensures x in FieldFindings(i, rec, active, known, seen).errors ==>
      About(x, FormatsData, i)
      && (x.MissingField? || x.NotString? || x.DuplicateExtension? || x.NotArrayField? || x.AreaEntryNotString?)
    ensures x in FieldFindings(i, rec, active, known, seen).warnings ==>
      About(x, FormatsData, i) && (x.LeadingDot? || (active && x.UnknownArea?))
  {
    hide AreaFindings;
    MissingFieldsShape(FormatsData, i, rec, Required, |Required|);
    AreaFindingsShape(i, rec, active, known, x);
  }

  /** The issues pushed by the checks on a record's lists, optional fields
      and keys. */
  lemma ListFindingsShape(i: nat, rec: Json, urlOk: string -> bool, x: Issue)
    ensures x in ListFindings(i, rec, urlOk).errors ==>
      About(x, FormatsData, i)
      && (x.NotArrayField? || x.PipelineNotObject? || x.PipelineMissing? || x.ReferenceNotObject?
          || x.ReferenceMissing? || x.ReferenceBadType? || x.NotArrayWhenPresent? || x.NotStringWhenPresent?)
    ensures x in ListFindings(i, rec, urlOk).warnings ==>
      About(x, FormatsData, i) && (x.ReferenceBadUrl? || x.UnexpectedField?)
  {
    hide *;
    var examples := ArrayItems(rec, "pipeline_examples");
    var refList := ArrayItems(rec, "references");
    ListParts(i, rec, urlOk);
    NonArrayFieldsShape(FormatsData, i, rec, ArrayFields, |ArrayFields|);
    PipelinesShape(FormatsData, i, examples, |examples|);
    ReferencesShape(FormatsData, i, refList, |refList|, true, urlOk);
    OptionalFindingsShape(i, rec, x);
    UnexpectedKeysShape(FormatsData, i, ObjectKeys(rec), |ObjectKeys(rec)|, Allowed);
  }

  /** The findings on a record's lists, part by part. */
  lemma ListParts(i: nat, rec: Json, urlOk: string -> bool)
    ensures var examples := ArrayItems(rec, "pipeline_examples");
      var refList := ArrayItems(rec, "references");
      var arrays := NonArrayFields(FormatsData, i, rec, ArrayFields, |ArrayFields|);
      var pipelines := Pipelines(FormatsData, i, examples, |examples|);
      var refs := References(FormatsData, i, refList, |refList|, true, urlOk);
      var optional := OptionalFindings(i, rec);
      var extra := UnexpectedKeys(FormatsData, i, ObjectKeys(rec), |ObjectKeys(rec)|, Allowed);
      && ListFindings(i, rec, urlOk).errors
         == arrays.errors + pipelines.errors + refs.errors + optional.errors + extra.errors
      && ListFindings(i, rec, urlOk).warnings
         == arrays.warnings + pipelines.warnings + refs.warnings + optional.warnings + extra.warnings
  {
    hide NonArrayFields, Pipelines, References, UnexpectedKeys, OptionalFindings, ObjectKeys;
  }

  lemma OptionalFindingsShape(i: nat, rec: Json, x: Issue)
    ensures x in OptionalFindings(i, rec).errors ==>
      About(x, FormatsData, i) && (x.NotArrayWhenPresent? || x.NotStringWhenPresent?)
  {
  }

  /** Everything record `i` reports is about record `i`; errors and warnings
      each hold only their own kinds of issue, and no area is reported
      unknown while the valid-area set is empty. */
  lemma FormatFindingsShape(i: nat, rec: Json, active: bool, known: set<string>, seen: set<string>, urlOk: string -> bool, x: Issue)
    ensures x in FormatFindings(i, rec, active, known, seen, urlOk).errors ==> About(x, FormatsData, i) && !WarningKind(x)
    ensures x in FormatFindings(i, rec, active, known, seen, urlOk).warnings ==>
      About(x, FormatsData, i) && WarningKind(x) && (x.UnknownArea? ==> active)
  {
    hide FieldFindings, ListFindings;
    FieldFindingsShape(i, rec, active, known, seen, x);
    ListFindingsShape(i, rec, urlOk, x);
  }

  /** The eleven required fields are eleven different names. */
  lemma RequiredDistinct()
    ensures Distinct(Required)
  {
  }

  /** Each required field that is absent or falsy is reported once, and no
      other field is. */
  lemma MissingInRecord(i: nat, rec: Json, active: bool, known: set<string>, seen: set<string>, urlOk: string -> bool, f: string)
    ensures MissingField(FormatsData, i, f) in FormatFindings(i, rec, active, known, seen, urlOk).errors
            <==> f in Required && !Present(Get(rec, f))
    ensures multiset(FormatFindings(i, rec, active, known, seen, urlOk).errors)[MissingField(FormatsData, i, f)]
            == if f in Required && !Present(Get(rec, f)) then 1 else 0
  {
    MissingMembership(i, rec, active, known, seen, urlOk, f);
    var x := MissingField(FormatsData, i, f);
    RequiredDistinct();
    MissingFieldOnce(FormatsData, i, rec, Required, |Required|, f);
    AmongAll(f, Required);
    FormatErrorsSplit(i, rec, active, known, seen, urlOk, x);
  }

  /** Membership half of `MissingInRecord`. */
  lemma MissingMembership(i: nat, rec: Json, active: bool, known: set<string>, seen: set<string>, urlOk: string -> bool, f: string)
    ensures MissingField(FormatsData, i, f) in FormatFindings(i, rec, active, known, seen, urlOk).errors
            <==> f in Required && !Present(Get(rec, f))
  {
    hide ListFindings;
    var x := MissingField(FormatsData, i, f);
    MissingFieldIff(FormatsData, i, rec, Required, |Required|, f);
    AmongAll(f, Required);
    ListFindingsShape(i, rec, urlOk, x);
    AreaFindingsShape(i, rec, active, known, x);
  }

  /** A missing-field error of record `i` can only come from the required-field
      check, so it occurs as often in the record's errors as there. */
  lemma FormatErrorsSplit(i: nat, rec: Json, active: bool, known: set<string>, seen: set<string>, urlOk: string -> bool, x: Issue)
    requires x.MissingField?
    ensures multiset(FormatFindings(i, rec, active, known, seen, urlOk).errors)[x]
            == multiset(MissingFields(FormatsData, i, rec, Required, |Required|).errors)[x]
  {
    hide *;
    var required := MissingFields(FormatsData, i, rec, Required, |Required|).errors;
    var extension := ExtensionFindings(i, rec, seen).errors;
    var name := NameFindings(i, rec).errors;
    var area := AreaFindings(i, rec, active, known).errors;
    var lists := ListFindings(i, rec, urlOk).errors;
    FormatErrorParts(i, rec, active, known, seen, urlOk);
    ListFindingsShape(i, rec, urlOk, x);
    AreaFindingsShape(i, rec, active, known, x);
    ExtensionFindingsShape(i, rec, seen, x);
    NameFindingsShape(i, rec, x);
    CountAppendAbsent(required + extension + name + area, lists, x);
    CountAppendAbsent(required + extension + name, area, x);
    CountAppendAbsent(required + extension, name, x);
    CountAppendAbsent(required, extension, x);
  }

  /** The errors of a record, part by part. */
  lemma FormatErrorParts(i: nat, rec: Json, active: bool, known: set<string>, seen: set<string>, urlOk: string -> bool)
    ensures FormatFindings(i, rec, active, known, seen, urlOk).errors
            == MissingFields(FormatsData, i, rec, Required, |Required|).errors + ExtensionFindings(i, rec, seen).errors
               + NameFindings(i, rec).errors + AreaFindings(i, rec, active, known).errors + ListFindings(i, rec, urlOk).errors
  {
    hide MissingFields, ExtensionFindings, NameFindings, AreaFindings, ListFindings;
  }

  lemma NameFindingsShape(i: nat, rec: Json, x: Issue)
    ensures x in NameFindings(i, rec).errors ==> x.NotString?
  {
  }

  /** A string extension is reported as a duplicate exactly when it was
      already seen. */
  lemma DuplicateInRecord(i: nat, rec: Json, active: bool, known: set<string>, seen: set<string>, urlOk: string -> bool, v: Json)
    ensures DuplicateExtension(FormatsData, i, v) in FormatFindings(i, rec, active, known, seen, urlOk).errors
            <==> ExtensionKey(rec).Some? && v == JStr(ExtensionKey(rec).value) && ExtensionKey(rec).value in seen
  {
    hide ListFindings;
    var x := DuplicateExtension(FormatsData, i, v);
    MissingFieldsShape(FormatsData, i, rec, Required, |Required|);
    ListFindingsShape(i, rec, urlOk, x);
    AreaFindingsShape(i, rec, active, known, x);
  }

  /** A string extension starting with a dot gives a warning. */
  lemma LeadingDotInRecord(i: nat, rec: Json, active: bool, known: set<string>, seen: set<string>, urlOk: string -> bool, v: Json)
    ensures LeadingDot(FormatsData, i, v) in FormatFindings(i, rec, active, known, seen, urlOk).warnings
            <==> ExtensionKey(rec).Some? && v == JStr(ExtensionKey(rec).value) && StartsWith(ExtensionKey(rec).value, ".")
  {
    hide ListFindings;
    var x := LeadingDot(FormatsData, i, v);
    ListFindingsShape(i, rec, urlOk, x);
    AreaFindingsShape(i, rec, active, known, x);
  }

  /** An area entry is reported unknown exactly when checking is active, the
      entry is a string of the record's `area` array and not a known name. */
  lemma UnknownAreaInRecord(i: nat, rec: Json, active: bool, known: set<string>, seen: set<string>, urlOk: string -> bool, s: string)
    ensures UnknownArea(FormatsData, i, JStr(s)) in FormatFindings(i, rec, active, known, seen, urlOk).warnings
            <==> active && s !in known && JStr(s) in ArrayItems(rec, "area")
  {
    hide ListFindings;
    var x := UnknownArea(FormatsData, i, JStr(s));
    ListFindingsShape(i, rec, urlOk, x);
    var a := Get(rec, "area");
    if Present(a) && a.value.JArr? {
      UnknownAreaIff(FormatsData, i, a.value.items, |a.value.items|, active, known, s);
      AmongAll(JStr(s), a.value.items);
    }
  }

  /** A key outside the thirteen allowed fields gives one warning naming it. */
  lemma UnexpectedInRecord(i: nat, rec: Json, active: bool, known: set<string>, seen: set<string>, urlOk: string -> bool, k: string)
    ensures UnexpectedField(FormatsData, i, k) in FormatFindings(i, rec, active, known, seen, urlOk).warnings
            <==> k in ObjectKeys(rec) && k !in Allowed
    ensures multiset(FormatFindings(i, rec, active, known, seen, urlOk).warnings)[UnexpectedField(FormatsData, i, k)]
            == if k in ObjectKeys(rec) && k !in Allowed then 1 else 0
  {
    UnexpectedMembership(i, rec, active, known, seen, urlOk, k);
    var keys := ObjectKeys(rec);
    ObjectKeysDistinct(rec);
    UnexpectedKeyOnce(FormatsData, i, keys, |keys|, Allowed, k);
    AmongAll(k, keys);
    FormatWarningsSplit(i, rec, active, known, seen, urlOk, UnexpectedField(FormatsData, i, k));
  }

  /** An unexpected-key warning of record `i` can only come from the key
      check, so it occurs as often in the record's warnings as there. */
  lemma FormatWarningsSplit(i: nat, rec: Json, active: bool, known: set<string>, seen: set<string>, urlOk: string -> bool, x: Issue)
    requires x.UnexpectedField?
    ensures multiset(FormatFindings(i, rec, active, known, seen, urlOk).warnings)[x]
            == multiset(UnexpectedKeys(FormatsData, i, ObjectKeys(rec), |ObjectKeys(rec)|, Allowed).warnings)[x]
  {
    hide *;
    var refList := ArrayItems(rec, "references");
    FormatWarningParts(i, rec, active, known, seen, urlOk, x);
    FieldFindingsShape(i, rec, active, known, seen, x);
    ReferencesShape(FormatsData, i, refList, |refList|, true, urlOk);
    assert multiset(FieldFindings(i, rec, active, known, seen).warnings)[x] == 0;
    assert x !in References(FormatsData, i, refList, |refList|, true, urlOk).warnings;
    assert multiset(References(FormatsData, i, refList, |refList|, true, urlOk).warnings)[x] == 0;
  }

  /** How often a record warns `x`: in its field checks, its references and
      its unexpected keys together. */
  lemma FormatWarningParts(i: nat, rec: Json, active: bool, known: set<string>, seen: set<string>, urlOk: string -> bool, x: Issue)
    ensures var refList := ArrayItems(rec, "references");
      multiset(FormatFindings(i, rec, active, known, seen, urlOk).warnings)[x]
      == multiset(FieldFindings(i, rec, active, known, seen).warnings)[x]
         + multiset(References(FormatsData, i, refList, |refList|, true, urlOk).warnings)[x]
         + multiset(UnexpectedKeys(FormatsData, i, ObjectKeys(rec), |ObjectKeys(rec)|, Allowed).warnings)[x]
  {
    hide FormatFindings, FieldFindings, ListFindings, NonArrayFields, Pipelines, References, OptionalFindings,
         UnexpectedKeys, ObjectKeys;
    FormatParts(i, rec, active, known, seen, urlOk);
    ListParts(i, rec, urlOk);
  }

  /** A record's findings: its own fields, then its lists. */
  lemma FormatParts(i: nat, rec: Json, active: bool, known: set<string>, seen: set<string>, urlOk: string -> bool)
    ensures FormatFindings(i, rec, active, known, seen, urlOk)
            == FieldFindings(i, rec, active, known, seen).Add(ListFindings(i, rec, urlOk))
  {
    hide FieldFindings, ListFindings;
  }

  /** Membership half of `UnexpectedInRecord`. */
  lemma UnexpectedMembership(i: nat, rec: Json, active: bool, known: set<string>, seen: set<string>, urlOk: string -> bool, k: string)
    ensures UnexpectedField(FormatsData, i, k) in FormatFindings(i, rec, active, known, seen, urlOk).warnings
            <==> k in ObjectKeys(rec) && k !in Allowed
  {
    var x := UnexpectedField(FormatsData, i, k);
    FieldFindingsShape(i, rec, active, known, seen, x);
    UnexpectedKeyIff(FormatsData, i, ObjectKeys(rec), |ObjectKeys(rec)|, Allowed, k);
    AmongAll(k, ObjectKeys(rec));
    var refList := ArrayItems(rec, "references");
    ReferencesShape(FormatsData, i, refList, |refList|, true, urlOk);
  }

  // ---------------------------------------------------------------- the record loop

  /** One turn of the loop, spelled out. */
  lemma FormatsUpToStep(recs: seq<Json>, n: nat, active: bool, known: set<string>, urlOk: string -> bool)
    requires 0 < n <= |recs|
    ensures var prev := FormatsUpTo(recs, n - 1, active, known, urlOk);
      var key := ExtensionKey(recs[n - 1]);
      && FormatsUpTo(recs, n, active, known, urlOk).found
         == prev.found.Add(FormatFindings(n - 1, recs[n - 1], active, known, prev.seen, urlOk))
      && FormatsUpTo(recs, n, active, known, urlOk).seen
         == (if key.Some? then prev.seen + {key.value} else prev.seen)
      && FormatsUpTo(recs, n, active, known, urlOk).duplicates
         == (if key.Some? && key.value in prev.seen then prev.duplicates + {key.value} else prev.duplicates)
  {
    hide FormatFindings;
  }

  /** The loop's two sets are the `seen` and `duplicate` sets of the
      extension keys visited. */
  lemma {:induction false} FormatsUpToSets(recs: seq<Json>, n: nat, active: bool, known: set<string>, urlOk: string -> bool)
    requires n <= |recs|
    ensures FormatsUpTo(recs, n, active, known, urlOk).seen == Seen(ExtensionKeys(recs), n)
    ensures FormatsUpTo(recs, n, active, known, urlOk).duplicates == Repeated(ExtensionKeys(recs), n)
  {
    hide FormatFindings, VisitStep;
    if n > 0 {
      FormatsUpToStep(recs, n, active, known, urlOk);
      FormatsUpToSets(recs, n - 1, active, known, urlOk);
      assert ExtensionKeys(recs)[n - 1] == ExtensionKey(recs[n - 1]);
    }
  }

  /** What the loop has pushed about record `j` is what record `j` reports,
      given the extensions seen before it: errors. */
  lemma {:induction false} FormatsUpToErrorsAt(recs: seq<Json>, n: nat, active: bool, known: set<string>, urlOk: string -> bool, j: nat, x: Issue)
    requires n <= |recs| && About(x, FormatsData, j)
    ensures x in FormatsUpTo(recs, n, active, known, urlOk).found.errors <==>
      j < n && x in FormatFindings(j, recs[j], active, known, FormatsUpTo(recs, j, active, known, urlOk).seen, urlOk).errors
  {
    hide FormatFindings, VisitStep;
    if n > 0 {
      var prev := FormatsUpTo(recs, n - 1, active, known, urlOk);
      var one := FormatFindings(n - 1, recs[n - 1], active, known, prev.seen, urlOk);
      FormatsUpToStep(recs, n, active, known, urlOk);
      assert FormatsUpTo(recs, n, active, known, urlOk).found.errors == prev.found.errors + one.errors;
      FormatsUpToErrorsAt(recs, n - 1, active, known, urlOk, j, x);
      FormatFindingsShape(n - 1, recs[n - 1], active, known, prev.seen, urlOk, x);
    }
  }

  /** The same for warnings. */
  lemma {:induction false} FormatsUpToWarningsAt(recs: seq<Json>, n: nat, active: bool, known: set<string>, urlOk: string -> bool, j: nat, x: Issue)
    requires n <= |recs| && About(x, FormatsData, j)
    ensures x in FormatsUpTo(recs, n, active, known, urlOk).found.warnings <==>
      j < n && x in FormatFindings(j, recs[j], active, known, FormatsUpTo(recs, j, active, known, urlOk).seen, urlOk).warnings
  {
    hide FormatFindings, VisitStep;
    if n > 0 {
      var prev := FormatsUpTo(recs, n - 1, active, known, urlOk);
      var one := FormatFindings(n - 1, recs[n - 1], active, known, prev.seen, urlOk);
      FormatsUpToStep(recs, n, active, known, urlOk);
      assert FormatsUpTo(recs, n, active, known, urlOk).found.warnings == prev.found.warnings + one.warnings;
      FormatsUpToWarningsAt(recs, n - 1, active, known, urlOk, j, x);
      FormatFindingsShape(n - 1, recs[n - 1], active, known, prev.seen, urlOk, x);
    }
  }

  /** The loop pushes an issue about record `j` as often as record `j`
      reports it: errors. */
  lemma {:induction false} FormatsUpToErrorCount(recs: seq<Json>, n: nat, active: bool, known: set<string>, urlOk: string -> bool, j: nat, x: Issue)
    requires n <= |recs| && About(x, FormatsData, j)
    ensures multiset(FormatsUpTo(recs, n, active, known, urlOk).found.errors)[x]
            == if j < n then multiset(FormatFindings(j, recs[j], active, known, FormatsUpTo(recs, j, active, known, urlOk).seen, urlOk).errors)[x] else 0
  {
    hide FormatFindings, VisitStep;
    if n > 0 {
      var prev := FormatsUpTo(recs, n - 1, active, known, urlOk);
      var one := FormatFindings(n - 1, recs[n - 1], active, known, prev.seen, urlOk);
      FormatsUpToStep(recs, n, active, known, urlOk);
      assert FormatsUpTo(recs, n, active, known, urlOk).found.errors == prev.found.errors + one.errors;
      FormatsUpToErrorCount(recs, n - 1, active, known, urlOk, j, x);
      if j != n - 1 {
        FormatFindingsShape(n - 1, recs[n - 1], active, known, prev.seen, urlOk, x);
        CountAppendAbsent(prev.found.errors, one.errors, x);
      } else {
        FormatsUpToShape(recs, n - 1, active, known, urlOk, x);
        CountPrependAbsent(prev.found.errors, one.errors, x);
      }
    }
  }

  /** The same for warnings. */
  lemma {:induction false} FormatsUpToWarningCount(recs: seq<Json>, n: nat, active: bool, known: set<string>, urlOk: string -> bool, j: nat, x: Issue)
    requires n <= |recs| && About(x, FormatsData, j)
    ensures multiset(FormatsUpTo(recs, n, active, known, urlOk).found.warnings)[x]
            == if j < n then multiset(FormatFindings(j, recs[j], active, known, FormatsUpTo(recs, j, active, known, urlOk).seen, urlOk).warnings)[x] else 0
  {
    hide FormatFindings, VisitStep;
    if n > 0 {
      var prev := FormatsUpTo(recs, n - 1, active, known, urlOk);
      var one := FormatFindings(n - 1, recs[n - 1], active, known, prev.seen, urlOk);
      FormatsUpToStep(recs, n, active, known, urlOk);
      assert FormatsUpTo(recs, n, active, known, urlOk).found.warnings == prev.found.warnings + one.warnings;
      FormatsUpToWarningCount(recs, n - 1, active, known, urlOk, j, x);
      if j != n - 1 {
        FormatFindingsShape(n - 1, recs[n - 1], active, known, prev.seen, urlOk, x);
        CountAppendAbsent(prev.found.warnings, one.warnings, x);
      } else {
        FormatsUpToShape(recs, n - 1, active, known, urlOk, x);
        CountPrependAbsent(prev.found.warnings, one.warnings, x);
      }
    }
  }

  /** Over the whole loop: every issue is about a visited record, errors and
      warnings hold only their own kinds, and no unknown-area warning is
      pushed while the valid-area set is empty. */
  lemma {:induction false} FormatsUpToShape(recs: seq<Json>, n: nat, active: bool, known: set<string>, urlOk: string -> bool, x: Issue)
    requires n <= |recs|
    ensures x in FormatsUpTo(recs, n, active, known, urlOk).found.errors ==>
      !x.NotAnArray? && x.dataset == FormatsData && x.index < n && !WarningKind(x)
    ensures x in FormatsUpTo(recs, n, active, known, urlOk).found.warnings ==>
      !x.NotAnArray? && x.dataset == FormatsData && x.index < n && WarningKind(x) && (x.UnknownArea? ==> active)
  {
    hide FormatFindings, VisitStep;
    if n > 0 {
      var st := FormatsUpTo(recs, n - 1, active, known, urlOk);
      FormatsUpToStep(recs, n, active, known, urlOk);
      FormatsUpToShape(recs, n - 1, active, known, urlOk, x);
      FormatFindingsShape(n - 1, recs[n - 1], active, known, st.seen, urlOk, x);
    }
  }

  // ---------------------------------------------------------------- the result

  /** Every issue of a completed run is about one of the records; errors and
      warnings each hold only their own kinds (so a leading dot, an unknown
      area, a doubtful url or an unexpected key is never an error), and no
      area is reported unknown when there are no valid areas. */
  lemma ValidateFormatsShape(formats: Json, validAreas: Json, urlOk: string -> bool, x: Issue)
    requires ValidateFormatsSpec(formats, validAreas, urlOk).Ok? && formats.JArr?
    ensures var r := ValidateFormatsSpec(formats, validAreas, urlOk).value;
      && (x in r.errors ==>
            !x.NotAnArray? && x.dataset == FormatsData && x.index < |formats.items| && !WarningKind(x))
      && (x in r.warnings ==>
            !x.NotAnArray? && x.dataset == FormatsData && x.index < |formats.items| && WarningKind(x)
            && (x.UnknownArea? ==> |validAreas.items| > 0))
  {
    hide FormatFindings;
    var areas := KnownAreas(validAreas, "name").value;
    FormatsUpToShape(formats.items, |formats.items|, areas.0, areas.1, urlOk, x);
  }

  /** Each required field that is absent or falsy in a record gives one
      error naming the record and the field, and nothing else does. */
  lemma ValidateFormatsMissing(formats: Json, validAreas: Json, urlOk: string -> bool, j: nat, f: string)
    requires ValidateFormatsSpec(formats, validAreas, urlOk).Ok? && formats.JArr?
    ensures MissingField(FormatsData, j, f) in ValidateFormatsSpec(formats, validAreas, urlOk).value.errors
            <==> j < |formats.items| && f in Required && !Present(Get(formats.items[j], f))
    ensures multiset(ValidateFormatsSpec(formats, validAreas, urlOk).value.errors)[MissingField(FormatsData, j, f)]
            == if j < |formats.items| && f in Required && !Present(Get(formats.items[j], f)) then 1 else 0
  {
    hide FormatFindings;
    var areas := KnownAreas(validAreas, "name").value;
    var recs := formats.items;
    FormatsUpToErrorsAt(recs, |recs|, areas.0, areas.1, urlOk, j, MissingField(FormatsData, j, f));
    FormatsUpToErrorCount(recs, |recs|, areas.0, areas.1, urlOk, j, MissingField(FormatsData, j, f));
    if j < |recs| {
      MissingInRecord(j, recs[j], areas.0, areas.1, FormatsUpTo(recs, j, areas.0, areas.1, urlOk).seen, urlOk, f);
    }
  }

  /** The first record with a given string extension is silent; each later
      one gets a duplicate error. */
  lemma ValidateFormatsDuplicate(formats: Json, validAreas: Json, urlOk: string -> bool, j: nat, v: Json)
    requires ValidateFormatsSpec(formats, validAreas, urlOk).Ok? && formats.JArr?
    ensures DuplicateExtension(FormatsData, j, v) in ValidateFormatsSpec(formats, validAreas, urlOk).value.errors
            <==> j < |formats.items| && ExtensionKey(formats.items[j]).Some?
                 && v == JStr(ExtensionKey(formats.items[j]).value)
                 && exists m :: 0 <= m < j && ExtensionKey(formats.items[m]) == ExtensionKey(formats.items[j])
  {
    hide FormatFindings;
    var areas := KnownAreas(validAreas, "name").value;
    var recs := formats.items;
    FormatsUpToErrorsAt(recs, |recs|, areas.0, areas.1, urlOk, j, DuplicateExtension(FormatsData, j, v));
    if j < |recs| {
      var seen := FormatsUpTo(recs, j, areas.0, areas.1, urlOk).seen;
      DuplicateInRecord(j, recs[j], areas.0, areas.1, seen, urlOk, v);
      FormatsUpToSets(recs, j, areas.0, areas.1, urlOk);
      var key := ExtensionKey(recs[j]);
      if key.Some? {
        var keys := ExtensionKeys(recs);
        SeenIff(keys, j, key.value);
        if exists m :: 0 <= m < j && ExtensionKey(recs[m]) == key {
          var m :| 0 <= m < j && ExtensionKey(recs[m]) == key;
          assert keys[m] == Some(key.value);
        }
      }
    }
  }

  /** `stats.duplicateExtensions` counts the distinct extensions two or more
      records share, not the repeated occurrences. */
  lemma ValidateFormatsDuplicateCount(formats: Json, validAreas: Json, urlOk: string -> bool)
    requires ValidateFormatsSpec(formats, validAreas, urlOk).Ok? && formats.JArr?
    ensures ValidateFormatsSpec(formats, validAreas, urlOk).value.stats
            == Some(FormatStats(|formats.items|, |Shared(ExtensionKeys(formats.items))|))
  {
    hide FormatFindings;
    var areas := KnownAreas(validAreas, "name").value;
    FormatsUpToSets(formats.items, |formats.items|, areas.0, areas.1, urlOk);
    RepeatedIsShared(ExtensionKeys(formats.items));
  }

  /** A string extension starting with a dot gives a warning. */
  lemma ValidateFormatsLeadingDot(formats: Json, validAreas: Json, urlOk: string -> bool, j: nat, v: Json)
    requires ValidateFormatsSpec(formats, validAreas, urlOk).Ok? && formats.JArr?
    ensures LeadingDot(FormatsData, j, v) in ValidateFormatsSpec(formats, validAreas, urlOk).value.warnings
            <==> j < |formats.items| && ExtensionKey(formats.items[j]).Some?
                 && v == JStr(ExtensionKey(formats.items[j]).value) && StartsWith(ExtensionKey(formats.items[j]).value, ".")
  {
    hide FormatFindings;
    var areas := KnownAreas(validAreas, "name").value;
    var recs := formats.items;
    FormatsUpToWarningsAt(recs, |recs|, areas.0, areas.1, urlOk, j, LeadingDot(FormatsData, j, v));
    if j < |recs| {
      LeadingDotInRecord(j, recs[j], areas.0, areas.1, FormatsUpTo(recs, j, areas.0, areas.1, urlOk).seen, urlOk, v);
    }
  }

  /** An area name in a record's `area` array gives a warning exactly when
      there are valid areas and none of them has that name. */
  lemma ValidateFormatsUnknownArea(formats: Json, validAreas: Json, urlOk: string -> bool, j: nat, s: string)
    requires ValidateFormatsSpec(formats, validAreas, urlOk).Ok? && formats.JArr?
    ensures UnknownArea(FormatsData, j, JStr(s)) in ValidateFormatsSpec(formats, validAreas, urlOk).value.warnings
            <==> j < |formats.items| && JStr(s) in ArrayItems(formats.items[j], "area") && |validAreas.items| > 0
                 && !exists k :: 0 <= k < |validAreas.items| && Get(validAreas.items[k], "name") == Some(JStr(s))
  {
    hide FormatFindings;
    var areas := KnownAreas(validAreas, "name").value;
    var recs := formats.items;
    FormatsUpToWarningsAt(recs, |recs|, areas.0, areas.1, urlOk, j, UnknownArea(FormatsData, j, JStr(s)));
    KnownStringsIff(validAreas.items, "name", |validAreas.items|, s);
    if j < |recs| {
      UnknownAreaInRecord(j, recs[j], areas.0, areas.1, FormatsUpTo(recs, j, areas.0, areas.1, urlOk).seen, urlOk, s);
    }
  }

  /** Each key of a record outside the thirteen allowed fields gives one
      warning naming it. */
  lemma ValidateFormatsUnexpected(formats: Json, validAreas: Json, urlOk: string -> bool, j: nat, k: string)
    requires ValidateFormatsSpec(formats, validAreas, urlOk).Ok? && formats.JArr?
    ensures UnexpectedField(FormatsData, j, k) in ValidateFormatsSpec(formats, validAreas, urlOk).value.warnings
            <==> j < |formats.items| && k in ObjectKeys(formats.items[j]) && k !in Allowed
    ensures multiset(ValidateFormatsSpec(formats, validAreas, urlOk).value.warnings)[UnexpectedField(FormatsData, j, k)]
            == if j < |formats.items| && k in ObjectKeys(formats.items[j]) && k !in Allowed then 1 else 0
  {
    hide FormatFindings;
    var areas := KnownAreas(validAreas, "name").value;
    var recs := formats.items;
    FormatsUpToWarningsAt(recs, |recs|, areas.0, areas.1, urlOk, j, UnexpectedField(FormatsData, j, k));
    FormatsUpToWarningCount(recs, |recs|, areas.0, areas.1, urlOk, j, UnexpectedField(FormatsData, j, k));
    if j < |recs| {
      UnexpectedInRecord(j, recs[j], areas.0, areas.1, FormatsUpTo(recs, j, areas.0, areas.1, urlOk).seen, urlOk, k);
    }
  }

  method CheckFields(i: nat, rec: Json, active: bool, known: set<string>, seen: set<string>) returns (r: Findings)
    ensures r == FieldFindings(i, rec, active, known, seen)
  {
    r := CheckRequired(FormatsData, i, rec, Required);
    r := r.Add(ExtensionFindings(i, rec, seen));
    r := r.Add(NameFindings(i, rec));
    var a := Get(rec, "area");
    if Present(a) && a.value.JArr? {
      var areaRefs := CheckAreaRefs(FormatsData, i, a.value.items, active, known);
      r := r.Add(areaRefs);
    } else {
      r := r.Add(AreaFindings(i, rec, active, known));
    }
  }

  method CheckLists(i: nat, rec: Json, urlOk: string -> bool) returns (r: Findings)
    ensures r == ListFindings(i, rec, urlOk)
  {
    r := CheckArrayFields(FormatsData, i, rec, ArrayFields);
    var pipelines := CheckPipelines(FormatsData, i, ArrayItems(rec, "pipeline_examples"));
    r := r.Add(pipelines);
    var refs := CheckReferences(FormatsData, i, ArrayItems(rec, "references"), true, urlOk);
    r := r.Add(refs);
    r := r.Add(OptionalFindings(i, rec));
    var extra := CheckKeys(FormatsData, i, rec, Allowed);
    r := r.Add(extra);
  }

  /** The body of the `forEach` callback for record `i`. */
  method CheckFormat(i: nat, rec: Json, active: bool, known: set<string>, seen: set<string>, urlOk: string -> bool)
    returns (r: Findings)
    ensures r == FormatFindings(i, rec, active, known, seen, urlOk)
  {
    var fields := CheckFields(i, rec, active, known, seen);
    var lists := CheckLists(i, rec, urlOk);
    r := fields.Add(lists);
  }

  /** The `forEach` callback for record `i`, with the loop variables it
      updates. */
  method VisitFormat(st: FormatLoop, i: nat, rec: Json, active: bool, known: set<string>, urlOk: string -> bool)
    returns (r: FormatLoop)
    ensures r == VisitStep(st, i, rec, active, known, urlOk)
  {
    var one := CheckFormat(i, rec, active, known, st.seen, urlOk);
    var seen, duplicates := st.seen, st.duplicates;
    var key := ExtensionKey(rec);
    if key.Some? {
      if key.value in seen {
        duplicates := duplicates + {key.value};
      } else {
        seen := seen + {key.value};
      }
    }
    r := FormatLoop(st.found.Add(one), seen, duplicates);
  }

  /** The `forEach` over the records; `None` when a `null` record makes the
      callback throw. */
  method VisitFormats(recs: seq<Json>, active: bool, known: set<string>, urlOk: string -> bool) returns (r: Option<FormatLoop>)
    ensures r.None? <==> !NullFree(recs, |recs|)
    ensures r.Some? ==> r.value == FormatsUpTo(recs, |recs|, active, known, urlOk)
  {
    hide VisitStep;
    var st := FormatLoop(NoFindings, {}, {});
    var i := 0;
    while i < |recs|
      invariant 0 <= i <= |recs|
      invariant NullFree(recs, i)
      invariant st == FormatsUpTo(recs, i, active, known, urlOk)
    {
      if recs[i].JNull? {
        NullBreaks(recs, i, |recs|);
        return None;
      }
      st := VisitFormat(st, i, recs[i], active, known, urlOk);
      i := i + 1;
    }
    r := Some(st);
  }

  method ValidateFormats(formats: Json, validAreas: Json, urlOk: string -> bool) returns (r: Outcome<ValidationResult>)
    ensures r == ValidateFormatsSpec(formats, validAreas, urlOk)
  {
    var areas := CollectKnownAreas(validAreas, "name");
    if areas.Throws? {
      return Throws(areas.error);
    }
    if !formats.JArr? {
      return Ok(NotArrayResult(FormatsData));
    }
    var st := VisitFormats(formats.items, areas.value.0, areas.value.1, urlOk);
    if st.None? {
      return Throws(TypeError("Cannot read properties of null (reading 'extension')"));
    }
    r := Ok(Finish(st.value.found, FormatStats(|formats.items|, |st.value.duplicates|)));
  }
}
