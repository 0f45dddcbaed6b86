/** `validateGlossary(glossary, validAreas)`: the checks on each glossary
    term, the duplicate bookkeeping for ids, terms and slugs, and the final
    result. */
module GlossaryValidator {
  import opened Wrappers
  import opened Seqs
  import opened JsonValues
  import opened Issues
  import opened Dedup
  import opened RecordChecks

  const Required: seq<string> := ["id", "term", "slug", "definition", "area_ids"]

  const Allowed: seq<string> := Required + ["aliases", "related_terms", "references"]

  /** The fields checked for duplicates. */
  predicate KeyField(field: string)
  {
    field == "id" || field == "term" || field == "slug"
  }

  /** The word the duplicate message of `field` uses. */
  function DuplicateNoun(field: string): string
  {
    if field == "id" then "ID" else if field == "term" then "termo" else "slug"
  }

  /** The `seenIds`, `seenTerms` and `seenSlugs` sets, or the three
      `duplicate…` sets. */
  datatype KeySets = KeySets(ids: set<string>, terms: set<string>, slugs: set<string>)
  {
    function For(field: string): set<string>
    {
      if field == "id" then ids else if field == "term" then terms else slugs
    }
  }

  const NoKeys := KeySets({}, {}, {})

  /** What a term adds to the `seen` set of `field`: its value, when a
      truthy string. */
  function StringKey(rec: Json, field: string): (r: Option<string>)
    ensures r.Some? ==> Get(rec, field) == Some(JStr(r.value)) && r.value != ""
  {
    var v := Get(rec, field);
    if Present(v) && v.value.JStr? then Some(v.value.s) else None
  }

  function StringKeys(recs: seq<Json>, field: string): (r: seq<Option<string>>)
    ensures |r| == |recs|
    ensures forall k :: 0 <= k < |recs| ==> r[k] == StringKey(recs[k], field)
  {
    seq(|recs|, k requires 0 <= k < |recs| => StringKey(recs[k], field))
  }

  /** The block of one key field: a truthy non-string is an error; a string
      gets the kebab-case warning (for `id` and `slug`) and then the
      duplicate error when already seen. */
  function KeyFindings(i: nat, rec: Json, field: string, seen: set<string>): Findings
  {
    var v := Get(rec, field);
    if !Present(v) then NoFindings
    else if !v.value.JStr? then Error(NotString(GlossaryData, i, field))
    else
      var noun := DuplicateNoun(field);
      (if field != "term" && !IsKebab(v.value.s) then Warning(NotKebab(GlossaryData, i, noun, v.value)) else NoFindings)
        .Add(if v.value.s in seen then Error(DuplicateValue(GlossaryData, i, noun, v.value)) else NoFindings)
  }

  /** The required fields, then the `id`, `term` and `slug` blocks. */
  function IdentityFindings(i: nat, rec: Json, seen: KeySets): Findings
  {
    MissingFields(GlossaryData, i, rec, Required, |Required|)
      .Add(KeyFindings(i, rec, "id", seen.ids))
      .Add(KeyFindings(i, rec, "term", seen.terms))
      .Add(KeyFindings(i, rec, "slug", seen.slugs))
  }

  /** `area_ids`, when truthy, must be an array of strings naming valid area
      ids. */
  function AreaIdFindings(i: nat, rec: Json, active: bool, known: set<string>): Findings
  {
    var a := Get(rec, "area_ids");
    if !Present(a) then NoFindings
    else if !a.value.JArr? then Error(NotArrayField(GlossaryData, i, "area_ids"))
    else AreaRefs(GlossaryData, i, a.value.items, |a.value.items|, active, known)
  }

  /** `definition` must be a string; `aliases` and `related_terms` arrays;
      `references` an array of references, whose type is not checked. */
  function ContentFindings(i: nat, rec: Json, active: bool, known: set<string>, urlOk: string -> bool): Findings
  {
    var definition := Get(rec, "definition");
    var aliases := Get(rec, "aliases");
    var related := Get(rec, "related_terms");
    var refs := Get(rec, "references");
    (if Present(definition) && !definition.value.JStr? then Error(NotString(GlossaryData, i, "definition")) else NoFindings)
      .Add(AreaIdFindings(i, rec, active, known))
      .Add(if Present(aliases) && !aliases.value.JArr? then Error(NotArrayWhenPresent(GlossaryData, i, "aliases")) else NoFindings)
      .Add(if Present(related) && !related.value.JArr? then Error(NotArrayWhenPresent(GlossaryData, i, "related_terms")) else NoFindings)
      .Add(ReferenceListFindings(i, refs, urlOk))
  }

  /** The optional `references` of a term: an array is checked element by
      element, without the reference type. */
  function ReferenceListFindings(i: nat, refs: Option<Json>, urlOk: string -> bool): Findings
  {
    if !Present(refs) then NoFindings
    else if !refs.value.JArr? then Error(NotArrayWhenPresent(GlossaryData, i, "references"))
    else References(GlossaryData, i, refs.value.items, |refs.value.items|, false, urlOk)
  }

  lemma ReferenceListShape(i: nat, refs: Option<Json>, urlOk: string -> bool, x: Issue)
    ensures x in ReferenceListFindings(i, refs, urlOk).errors ==>
      About(x, GlossaryData, i) && (x.NotArrayWhenPresent? || x.ReferenceNotObject? || x.ReferenceMissing? || x.ReferenceBadType?)
    ensures x in ReferenceListFindings(i, refs, urlOk).warnings ==> About(x, GlossaryData, i) && x.ReferenceBadUrl?
  {
    hide References;
    if Present(refs) && refs.value.JArr? {
      ReferencesShape(GlossaryData, i, refs.value.items, |refs.value.items|, false, urlOk);
    }
  }

  /** Everything the `forEach` callback pushes for term `i`, in push order,
      given the keys seen before it. */
  function TermFindings(i: nat, rec: Json, seen: KeySets, active: bool, known: set<string>, urlOk: string -> bool): Findings
  {
    var keys := ObjectKeys(rec);
    IdentityFindings(i, rec, seen)
      .Add(ContentFindings(i, rec, active, known, urlOk))
      .Add(UnexpectedKeys(GlossaryData, i, keys, |keys|, Allowed))
  }

  /** The variables of the term loop. */
  datatype GlossaryLoop = GlossaryLoop(found: Findings, seen: KeySets, duplicates: KeySets)

  /** How one string key updates a `seen` set and a `duplicate` set. */
  function SeenAfter(seen: set<string>, key: Option<string>): set<string>
  {
    if key.Some? && key.value !in seen then seen + {key.value} else seen
  }

  function DuplicatesAfter(seen: set<string>, duplicates: set<string>, key: Option<string>): set<string>
  {
    if key.Some? && key.value in seen then duplicates + {key.value} else duplicates
  }

  /** One turn of the term loop. */
  function VisitStep(st: GlossaryLoop, i: nat, rec: Json, active: bool, known: set<string>, urlOk: string -> bool): GlossaryLoop
  {
    var id, term, slug := StringKey(rec, "id"), StringKey(rec, "term"), StringKey(rec, "slug");
    GlossaryLoop(
      st.found.Add(TermFindings(i, rec, st.seen, active, known, urlOk)),
      KeySets(SeenAfter(st.seen.ids, id), SeenAfter(st.seen.terms, term), SeenAfter(st.seen.slugs, slug)),
      KeySets(DuplicatesAfter(st.seen.ids, st.duplicates.ids, id),
              DuplicatesAfter(st.seen.terms, st.duplicates.terms, term),
              DuplicatesAfter(st.seen.slugs, st.duplicates.slugs, slug)))
  }

  /** The loop variables after the first `n` terms. */
  function GlossaryUpTo(recs: seq<Json>, n: nat, active: bool, known: set<string>, urlOk: string -> bool): GlossaryLoop
    requires n <= |recs|
  {
    if n == 0 then GlossaryLoop(NoFindings, NoKeys, NoKeys)
    else VisitStep(GlossaryUpTo(recs, n - 1, active, known, urlOk), n - 1, recs[n - 1], active, known, urlOk)
  }

  /** What `validateGlossary` returns or throws. */
  function ValidateGlossarySpec(glossary: Json, validAreas: Json, urlOk: string -> bool): (r: Outcome<ValidationResult>)
    ensures r.Throws? <==> KnownAreas(validAreas, "id").Throws?
                           || (glossary.JArr? && exists k :: 0 <= k < |glossary.items| && glossary.items[k].JNull?)
    ensures r.Ok? && !glossary.JArr? ==> r.value == NotArrayResult(GlossaryData)
    ensures r.Ok? ==> (r.value.valid <==> r.value.errors == [])
    ensures r.Ok? && glossary.JArr? ==>
              r.value.stats.Some? && r.value.stats.value.GlossaryStats? && r.value.stats.value.total == |glossary.items|
  {
    NullFreeIff(ArrayElements(glossary), |ArrayElements(glossary)|);
    match KnownAreas(validAreas, "id")
    case Throws(e) => Throws(e)
    case Ok(areas) =>
      if !glossary.JArr? then Ok(NotArrayResult(GlossaryData))
      else if !NullFree(glossary.items, |glossary.items|) then
        Throws(TypeError("Cannot read properties of null (reading 'id')"))
      else
        var st := GlossaryUpTo(glossary.items, |glossary.items|, areas.0, areas.1, urlOk);
        var d := st.duplicates;
        Ok(Finish(st.found, GlossaryStats(|glossary.items|, |d.ids|, |d.terms|, |d.slugs|)))
  }

  // ---------------------------------------------------------------- what one term reports

  /** What the block of one key field pushes: errors naming that field or
      its duplicate noun, and kebab-case warnings only for `id` and `slug`. */
  lemma KeyShape(i: nat, rec: Json, field: string, seen: set<string>, x: Issue)
    ensures x in KeyFindings(i, rec, field, seen).errors ==>
      About(x, GlossaryData, i)
      && ((x.NotString? && x.field == field) || (x.DuplicateValue? && x.noun == DuplicateNoun(field)))
    ensures x in KeyFindings(i, rec, field, seen).warnings ==>
      About(x, GlossaryData, i) && x.NotKebab? && x.noun == DuplicateNoun(field) && field != "term"
  {
  }

  /** The block of a key field reports a duplicate exactly when the field is
      a truthy string already seen. */
  lemma KeyDuplicateIff(i: nat, rec: Json, field: string, seen: set<string>, v: Json)
    ensures DuplicateValue(GlossaryData, i, DuplicateNoun(field), v) in KeyFindings(i, rec, field, seen).errors
            <==> StringKey(rec, field).Some? && v == JStr(StringKey(rec, field).value) && StringKey(rec, field).value in seen
  {
  }

  /** The block of `id` or `slug` warns exactly when the field is a truthy
      string that is not kebab-case. */
  lemma KeyKebabIff(i: nat, rec: Json, field: string, seen: set<string>, v: Json)
    requires field != "term"
    ensures NotKebab(GlossaryData, i, DuplicateNoun(field), v) in KeyFindings(i, rec, field, seen).warnings
            <==> StringKey(rec, field).Some? && v == JStr(StringKey(rec, field).value) && !IsKebab(StringKey(rec, field).value)
  {
  }

  lemma IdentityShape(i: nat, rec: Json, seen: KeySets, x: Issue)
    ensures x in IdentityFindings(i, rec, seen).errors ==>
      About(x, GlossaryData, i) && (x.MissingField? || x.NotString? || x.DuplicateValue?)
    ensures x in IdentityFindings(i, rec, seen).warnings ==> About(x, GlossaryData, i) && x.NotKebab?
  {
    hide KeyFindings;
    MissingFieldsShape(GlossaryData, i, rec, Required, |Required|);
    KeyShape(i, rec, "id", seen.ids, x);
    KeyShape(i, rec, "term", seen.terms, x);
    KeyShape(i, rec, "slug", seen.slugs, x);
  }

  /** What the `area_ids` block pushes. */
  lemma AreaIdShape(i: nat, rec: Json, active: bool, known: set<string>, x: Issue)
    ensures x in AreaIdFindings(i, rec, active, known).errors ==>
      About(x, GlossaryData, i) && (x.NotArrayField? || x.AreaEntryNotString?)
    ensures x in AreaIdFindings(i, rec, active, known).warnings ==> About(x, GlossaryData, i) && active && x.UnknownArea?
  {
    var a := Get(rec, "area_ids");
    if Present(a) && a.value.JArr? {
      AreaRefsShape(GlossaryData, i, a.value.items, |a.value.items|, active, known);
      AreaRefsWarningShape(GlossaryData, i, a.value.items, |a.value.items|, active, known);
    }
  }

  lemma ContentShape(i: nat, rec: Json, active: bool, known: set<string>, urlOk: string -> bool, x: Issue)
    ensures x in ContentFindings(i, rec, active, known, urlOk).errors ==>
      About(x, GlossaryData, i)
      && (x.NotString? || x.NotArrayField? || x.AreaEntryNotString? || x.NotArrayWhenPresent?
          || x.ReferenceNotObject? || x.ReferenceMissing? || x.ReferenceBadType?)
    ensures x in ContentFindings(i, rec, active, known, urlOk).warnings ==>
      About(x, GlossaryData, i) && ((active && x.UnknownArea?) || x.ReferenceBadUrl?)
  {
    hide AreaIdFindings, ReferenceListFindings;
    AreaIdShape(i, rec, active, known, x);
    ReferenceListShape(i, Get(rec, "references"), urlOk, x);
  }

  /** Everything term `i` reports is about term `i`, errors and warnings
      each hold only their own kinds of issue, and no area id is reported
      unknown while the valid-area set is empty. */
  lemma TermShape(i: nat, rec: Json, seen: KeySets, active: bool, known: set<string>, urlOk: string -> bool, x: Issue)
    ensures x in TermFindings(i, rec, seen, active, known, urlOk).errors ==> About(x, GlossaryData, i) && !WarningKind(x)
    ensures x in TermFindings(i, rec, seen, active, known, urlOk).warnings ==>
      About(x, GlossaryData, i) && WarningKind(x) && (x.UnknownArea? ==> active)
  {
    hide IdentityFindings, ContentFindings;
    IdentityShape(i, rec, seen, x);
    ContentShape(i, rec, active, known, urlOk, x);
    hide ObjectKeys;
    var keys := ObjectKeys(rec);
    UnexpectedKeysShape(GlossaryData, i, keys, |keys|, Allowed);
  }

  /** The five required fields are five different names. */
  lemma RequiredDistinct()
    ensures Distinct(Required)
  {
  }

  /** Each absent or falsy required field is an error, reported once, and no
      other field is reported missing. */
  lemma MissingInTerm(i: nat, rec: Json, seen: KeySets, active: bool, known: set<string>, urlOk: string -> bool, f: string)
    ensures MissingField(GlossaryData, i, f) in TermFindings(i, rec, seen, active, known, urlOk).errors
            <==> f in Required && !Present(Get(rec, f))
    ensures multiset(TermFindings(i, rec, seen, active, known, urlOk).errors)[MissingField(GlossaryData, i, f)]
            == if f in Required && !Present(Get(rec, f)) then 1 else 0
  {
    MissingMembership(i, rec, seen, active, known, urlOk, f);
    RequiredDistinct();
    MissingFieldOnce(GlossaryData, i, rec, Required, |Required|, f);
    AmongAll(f, Required);
    TermErrorsSplit(i, rec, seen, active, known, urlOk, MissingField(GlossaryData, i, f));
  }

  /** Membership half of `MissingInTerm`. */
  lemma MissingMembership(i: nat, rec: Json, seen: KeySets, active: bool, known: set<string>, urlOk: string -> bool, f: string)
    ensures MissingField(GlossaryData, i, f) in TermFindings(i, rec, seen, active, known, urlOk).errors
            <==> f in Required && !Present(Get(rec, f))
  {
    var x := MissingField(GlossaryData, i, f);
    TermErrorsSplit(i, rec, seen, active, known, urlOk, x);
    MissingFieldIff(GlossaryData, i, rec, Required, |Required|, f);
    AmongAll(f, Required);
    hide TermFindings, MissingFields;
    assert x in TermFindings(i, rec, seen, active, known, urlOk).errors
           <==> x in MissingFields(GlossaryData, i, rec, Required, |Required|).errors;
  }

  /** A missing-field error of term `i` can only come from the required-field
      check, so it occurs as often in the term's errors as there. */
  lemma TermErrorsSplit(i: nat, rec: Json, seen: KeySets, active: bool, known: set<string>, urlOk: string -> bool, x: Issue)
    requires x.MissingField?
    ensures multiset(TermFindings(i, rec, seen, active, known, urlOk).errors)[x]
            == multiset(MissingFields(GlossaryData, i, rec, Required, |Required|).errors)[x]
  {
    var keys := ObjectKeys(rec);
    var required := MissingFields(GlossaryData, i, rec, Required, |Required|);
    var id := KeyFindings(i, rec, "id", seen.ids);
    var term := KeyFindings(i, rec, "term", seen.terms);
    var slug := KeyFindings(i, rec, "slug", seen.slugs);
    var content := ContentFindings(i, rec, active, known, urlOk);
    var extra := UnexpectedKeys(GlossaryData, i, keys, |keys|, Allowed);
    KeyShape(i, rec, "id", seen.ids, x);
    KeyShape(i, rec, "term", seen.terms, x);
    KeyShape(i, rec, "slug", seen.slugs, x);
    ContentShape(i, rec, active, known, urlOk, x);
    hide MissingFields, KeyFindings, ContentFindings, UnexpectedKeys, ObjectKeys;
    assert TermFindings(i, rec, seen, active, known, urlOk).errors
           == required.errors + id.errors + term.errors + slug.errors + content.errors + extra.errors;
    CountAppendAbsent(required.errors + id.errors + term.errors + slug.errors + content.errors, extra.errors, x);
    CountAppendAbsent(required.errors + id.errors + term.errors + slug.errors, content.errors, x);
    CountAppendAbsent(required.errors + id.errors + term.errors, slug.errors, x);
    CountAppendAbsent(required.errors + id.errors, term.errors, x);
    CountAppendAbsent(required.errors, id.errors, x);
  }

  /** A string `id` or `slug` that is not kebab-case gives a warning. */
  lemma KebabInTerm(i: nat, rec: Json, seen: KeySets, active: bool, known: set<string>, urlOk: string -> bool, field: string, v: Json)
    requires field == "id" || field == "slug"
    ensures NotKebab(GlossaryData, i, DuplicateNoun(field), v) in TermFindings(i, rec, seen, active, known, urlOk).warnings
            <==> StringKey(rec, field).Some? && v == JStr(StringKey(rec, field).value) && !IsKebab(StringKey(rec, field).value)
  {
    hide ContentFindings, KeyFindings;
    var x := NotKebab(GlossaryData, i, DuplicateNoun(field), v);
    MissingFieldsShape(GlossaryData, i, rec, Required, |Required|);
    KeyShape(i, rec, "id", seen.ids, x);
    KeyShape(i, rec, "term", seen.terms, x);
    KeyShape(i, rec, "slug", seen.slugs, x);
    KeyKebabIff(i, rec, field, seen.For(field), v);
    ContentShape(i, rec, active, known, urlOk, x);
    hide ObjectKeys;
    var keys := ObjectKeys(rec);
    UnexpectedKeysShape(GlossaryData, i, keys, |keys|, Allowed);
  }

  /** A string `id`, `term` or `slug` already seen is a duplicate error. */
  lemma DuplicateInTerm(i: nat, rec: Json, seen: KeySets, active: bool, known: set<string>, urlOk: string -> bool, field: string, v: Json)
    requires KeyField(field)
    ensures DuplicateValue(GlossaryData, i, DuplicateNoun(field), v) in TermFindings(i, rec, seen, active, known, urlOk).errors
            <==> StringKey(rec, field).Some? && v == JStr(StringKey(rec, field).value) && StringKey(rec, field).value in seen.For(field)
  {
    hide ContentFindings, KeyFindings;
    var x := DuplicateValue(GlossaryData, i, DuplicateNoun(field), v);
    MissingFieldsShape(GlossaryData, i, rec, Required, |Required|);
    KeyShape(i, rec, "id", seen.ids, x);
    KeyShape(i, rec, "term", seen.terms, x);
    KeyShape(i, rec, "slug", seen.slugs, x);
    KeyDuplicateIff(i, rec, field, seen.For(field), v);
    ContentShape(i, rec, active, known, urlOk, x);
  }

  /** An area id is reported unknown exactly when checking is active, the
      entry is a string of the term's `area_ids` array and not a known id. */
  lemma UnknownAreaInTerm(i: nat, rec: Json, seen: KeySets, active: bool, known: set<string>, urlOk: string -> bool, s: string)
    ensures UnknownArea(GlossaryData, i, JStr(s)) in TermFindings(i, rec, seen, active, known, urlOk).warnings
            <==> active && s !in known && JStr(s) in ArrayItems(rec, "area_ids")
  {
    hide IdentityFindings;
    IdentityShape(i, rec, seen, UnknownArea(GlossaryData, i, JStr(s)));
    hide ObjectKeys;
    var keys := ObjectKeys(rec);
    UnexpectedKeysShape(GlossaryData, i, keys, |keys|, Allowed);
    var a := Get(rec, "area_ids");
    if Present(a) && a.value.JArr? {
      UnknownAreaIff(GlossaryData, i, a.value.items, |a.value.items|, active, known, s);
      AmongAll(JStr(s), a.value.items);
    }
    var refs := Get(rec, "references");
    if Present(refs) && refs.value.JArr? {
      ReferencesShape(GlossaryData, i, refs.value.items, |refs.value.items|, false, urlOk);
    }
  }

  /** A key outside the eight allowed fields gives one warning naming it. */
  lemma UnexpectedInTerm(i: nat, rec: Json, seen: KeySets, active: bool, known: set<string>, urlOk: string -> bool, k: string)
    ensures UnexpectedField(GlossaryData, i, k) in TermFindings(i, rec, seen, active, known, urlOk).warnings
            <==> k in ObjectKeys(rec) && k !in Allowed
    ensures multiset(TermFindings(i, rec, seen, active, known, urlOk).warnings)[UnexpectedField(GlossaryData, i, k)]
            == if k in ObjectKeys(rec) && k !in Allowed then 1 else 0
  {
    var x := UnexpectedField(GlossaryData, i, k);
    var identity := IdentityFindings(i, rec, seen);
    var content := ContentFindings(i, rec, active, known, urlOk);
    IdentityShape(i, rec, seen, x);
    ContentShape(i, rec, active, known, urlOk, x);
    hide IdentityFindings, ContentFindings, ObjectKeys;
    var keys := ObjectKeys(rec);
    var extra := UnexpectedKeys(GlossaryData, i, keys, |keys|, Allowed);
    UnexpectedKeyIff(GlossaryData, i, keys, |keys|, Allowed, k);
    ObjectKeysDistinct(rec);
    UnexpectedKeyOnce(GlossaryData, i, keys, |keys|, Allowed, k);
    AmongAll(k, keys);
    hide UnexpectedKeys;
    assert TermFindings(i, rec, seen, active, known, urlOk).warnings == (identity.warnings + content.warnings) + extra.warnings;
    CountPrependAbsent(identity.warnings + content.warnings, extra.warnings, x);
  }

  // ---------------------------------------------------------------- the term loop

  /** One turn of the loop, spelled out: the findings. */
  lemma GlossaryUpToStep(recs: seq<Json>, n: nat, active: bool, known: set<string>, urlOk: string -> bool)
    requires 0 < n <= |recs|
    ensures var prev := GlossaryUpTo(recs, n - 1, active, known, urlOk);
      GlossaryUpTo(recs, n, active, known, urlOk).found
      == prev.found.Add(TermFindings(n - 1, recs[n - 1], prev.seen, active, known, urlOk))
  {
    hide TermFindings;
  }

  /** One turn of the loop, spelled out: the sets of one key field. */
  lemma GlossaryUpToSetsStep(recs: seq<Json>, n: nat, active: bool, known: set<string>, urlOk: string -> bool, field: string)
    requires 0 < n <= |recs| && KeyField(field)
    ensures var prev := GlossaryUpTo(recs, n - 1, active, known, urlOk);
      var st := GlossaryUpTo(recs, n, active, known, urlOk);
      var key := StringKey(recs[n - 1], field);
      && st.seen.For(field) == (if key.Some? then prev.seen.For(field) + {key.value} else prev.seen.For(field))
      && st.duplicates.For(field)
         == (if key.Some? && key.value in prev.seen.For(field) then prev.duplicates.For(field) + {key.value}
             else prev.duplicates.For(field))
  {
    hide TermFindings;
  }

  /** The loop's sets are the `seen` and `duplicate` sets of the string ids,
      terms and slugs visited. */
  lemma {:induction false} GlossaryUpToSets(recs: seq<Json>, n: nat, active: bool, known: set<string>, urlOk: string -> bool, field: string)
    requires n <= |recs| && KeyField(field)
    ensures GlossaryUpTo(recs, n, active, known, urlOk).seen.For(field) == Seen(StringKeys(recs, field), n)
    ensures GlossaryUpTo(recs, n, active, known, urlOk).duplicates.For(field) == Repeated(StringKeys(recs, field), n)
  {
    hide TermFindings, VisitStep;
    if n > 0 {
      GlossaryUpToSetsStep(recs, n, active, known, urlOk, field);
      GlossaryUpToSets(recs, n - 1, active, known, urlOk, field);
      assert StringKeys(recs, field)[n - 1] == StringKey(recs[n - 1], field);
    }
  }

  /** The loop pushes an issue about term `j` as often as term `j` reports
      it: errors. */
  lemma {:induction false} GlossaryUpToErrorCount(recs: seq<Json>, n: nat, active: bool, known: set<string>, urlOk: string -> bool, j: nat, x: Issue)
    requires n <= |recs| && About(x, GlossaryData, j)
    ensures multiset(GlossaryUpTo(recs, n, active, known, urlOk).found.errors)[x]
            == if j < n then multiset(TermFindings(j, recs[j], GlossaryUpTo(recs, j, active, known, urlOk).seen, active, known, urlOk).errors)[x] else 0
  {
    hide TermFindings, VisitStep;
    if n > 0 {
      var prev := GlossaryUpTo(recs, n - 1, active, known, urlOk);
      var one := TermFindings(n - 1, recs[n - 1], prev.seen, active, known, urlOk);
      GlossaryUpToStep(recs, n, active, known, urlOk);
      assert GlossaryUpTo(recs, n, active, known, urlOk).found.errors == prev.found.errors + one.errors;
      GlossaryUpToErrorCount(recs, n - 1, active, known, urlOk, j, x);
      if j != n - 1 {
        TermShape(n - 1, recs[n - 1], prev.seen, active, known, urlOk, x);
        CountAppendAbsent(prev.found.errors, one.errors, x);
      } else {
        GlossaryUpToShape(recs, n - 1, active, known, urlOk, x);
        CountPrependAbsent(prev.found.errors, one.errors, x);
      }
    }
  }

  /** The same for warnings. */
  lemma {:induction false} GlossaryUpToWarningCount(recs: seq<Json>, n: nat, active: bool, known: set<string>, urlOk: string -> bool, j: nat, x: Issue)
    requires n <= |recs| && About(x, GlossaryData, j)
    ensures multiset(GlossaryUpTo(recs, n, active, known, urlOk).found.warnings)[x]
            == if j < n then multiset(TermFindings(j, recs[j], GlossaryUpTo(recs, j, active, known, urlOk).seen, active, known, urlOk).warnings)[x] else 0
  {
    hide TermFindings, VisitStep;
    if n > 0 {
      var prev := GlossaryUpTo(recs, n - 1, active, known, urlOk);
      var one := TermFindings(n - 1, recs[n - 1], prev.seen, active, known, urlOk);
      GlossaryUpToStep(recs, n, active, known, urlOk);
      assert GlossaryUpTo(recs, n, active, known, urlOk).found.warnings == prev.found.warnings + one.warnings;
      GlossaryUpToWarningCount(recs, n - 1, active, known, urlOk, j, x);
      if j != n - 1 {
        TermShape(n - 1, recs[n - 1], prev.seen, active, known, urlOk, x);
        CountAppendAbsent(prev.found.warnings, one.warnings, x);
      } else {
        GlossaryUpToShape(recs, n - 1, active, known, urlOk, x);
        CountPrependAbsent(prev.found.warnings, one.warnings, x);
      }
    }
  }

  /** What the loop has pushed about term `j` is what term `j` reports,
      given the keys seen before it: errors. */
  lemma {:induction false} GlossaryUpToErrorsAt(recs: seq<Json>, n: nat, active: bool, known: set<string>, urlOk: string -> bool, j: nat, x: Issue)
    requires n <= |recs| && About(x, GlossaryData, j)
    ensures x in GlossaryUpTo(recs, n, active, known, urlOk).found.errors <==>
      j < n && x in TermFindings(j, recs[j], GlossaryUpTo(recs, j, active, known, urlOk).seen, active, known, urlOk).errors
  {
    hide TermFindings, VisitStep;
    if n > 0 {
      var prev := GlossaryUpTo(recs, n - 1, active, known, urlOk);
      var one := TermFindings(n - 1, recs[n - 1], prev.seen, active, known, urlOk);
      GlossaryUpToStep(recs, n, active, known, urlOk);
      assert GlossaryUpTo(recs, n, active, known, urlOk).found.errors == prev.found.errors + one.errors;
      GlossaryUpToErrorsAt(recs, n - 1, active, known, urlOk, j, x);
      TermShape(n - 1, recs[n - 1], prev.seen, active, known, urlOk, x);
    }
  }

  /** The same for warnings. */
  lemma {:induction false} GlossaryUpToWarningsAt(recs: seq<Json>, n: nat, active: bool, known: set<string>, urlOk: string -> bool, j: nat, x: Issue)
    requires n <= |recs| && About(x, GlossaryData, j)
    ensures x in GlossaryUpTo(recs, n, active, known, urlOk).found.warnings <==>
      j < n && x in TermFindings(j, recs[j], GlossaryUpTo(recs, j, active, known, urlOk).seen, active, known, urlOk).warnings
  {
    hide TermFindings, VisitStep;
    if n > 0 {
      var prev := GlossaryUpTo(recs, n - 1, active, known, urlOk);
      var one := TermFindings(n - 1, recs[n - 1], prev.seen, active, known, urlOk);
      GlossaryUpToStep(recs, n, active, known, urlOk);
      assert GlossaryUpTo(recs, n, active, known, urlOk).found.warnings == prev.found.warnings + one.warnings;
      GlossaryUpToWarningsAt(recs, n - 1, active, known, urlOk, j, x);
      TermShape(n - 1, recs[n - 1], prev.seen, active, known, urlOk, x);
    }
  }

  /** Over the whole loop: every issue is about a visited term, errors and
      warnings hold only their own kinds, and no unknown-area warning is
      pushed while the valid-area set is empty. */
  lemma {:induction false} GlossaryUpToShape(recs: seq<Json>, n: nat, active: bool, known: set<string>, urlOk: string -> bool, x: Issue)
    requires n <= |recs|
    ensures x in GlossaryUpTo(recs, n, active, known, urlOk).found.errors ==>
      !x.NotAnArray? && x.dataset == GlossaryData && x.index < n && !WarningKind(x)
    ensures x in GlossaryUpTo(recs, n, active, known, urlOk).found.warnings ==>
      !x.NotAnArray? && x.dataset == GlossaryData && x.index < n && WarningKind(x) && (x.UnknownArea? ==> active)
  {
    hide TermFindings, VisitStep;
    if n > 0 {
      var prev := GlossaryUpTo(recs, n - 1, active, known, urlOk);
      GlossaryUpToStep(recs, n, active, known, urlOk);
      GlossaryUpToShape(recs, n - 1, active, known, urlOk, x);
      TermShape(n - 1, recs[n - 1], prev.seen, active, known, urlOk, x);
    }
  }

  // ---------------------------------------------------------------- the result

  /** Every issue of a completed run is about one of the terms; errors and
      warnings each hold only their own kinds (so a kebab-case miss, an
      unknown area id, a doubtful url or an unexpected key is never an
      error), and no area id is reported unknown when there are no valid
      areas. */
  lemma ValidateGlossaryShape(glossary: Json, validAreas: Json, urlOk: string -> bool, x: Issue)
    requires ValidateGlossarySpec(glossary, validAreas, urlOk).Ok? && glossary.JArr?
    ensures var r := ValidateGlossarySpec(glossary, validAreas, urlOk).value;
      && (x in r.errors ==>
            !x.NotAnArray? && x.dataset == GlossaryData && x.index < |glossary.items| && !WarningKind(x))
      && (x in r.warnings ==>
            !x.NotAnArray? && x.dataset == GlossaryData && x.index < |glossary.items| && WarningKind(x)
            && (x.UnknownArea? ==> |validAreas.items| > 0))
  {
    hide TermFindings;
    var areas := KnownAreas(validAreas, "id").value;
    GlossaryUpToShape(glossary.items, |glossary.items|, areas.0, areas.1, urlOk, x);
  }

  /** Each required field that is absent or falsy in a term gives one
      error, and nothing else does. */
  lemma ValidateGlossaryMissing(glossary: Json, validAreas: Json, urlOk: string -> bool, j: nat, f: string)
    requires ValidateGlossarySpec(glossary, validAreas, urlOk).Ok? && glossary.JArr?
    ensures MissingField(GlossaryData, j, f) in ValidateGlossarySpec(glossary, validAreas, urlOk).value.errors
            <==> j < |glossary.items| && f in Required && !Present(Get(glossary.items[j], f))
    ensures multiset(ValidateGlossarySpec(glossary, validAreas, urlOk).value.errors)[MissingField(GlossaryData, j, f)]
            == if j < |glossary.items| && f in Required && !Present(Get(glossary.items[j], f)) then 1 else 0
  {
    hide TermFindings;
    var areas := KnownAreas(validAreas, "id").value;
    var recs := glossary.items;
    GlossaryUpToErrorsAt(recs, |recs|, areas.0, areas.1, urlOk, j, MissingField(GlossaryData, j, f));
    GlossaryUpToErrorCount(recs, |recs|, areas.0, areas.1, urlOk, j, MissingField(GlossaryData, j, f));
    if j < |recs| {
      MissingInTerm(j, recs[j], GlossaryUpTo(recs, j, areas.0, areas.1, urlOk).seen, areas.0, areas.1, urlOk, f);
    }
  }

  /** A string `id` or `slug` that is not kebab-case gives a warning. */
  lemma ValidateGlossaryKebab(glossary: Json, validAreas: Json, urlOk: string -> bool, j: nat, field: string, v: Json)
    requires ValidateGlossarySpec(glossary, validAreas, urlOk).Ok? && glossary.JArr?
    requires field == "id" || field == "slug"
    ensures NotKebab(GlossaryData, j, DuplicateNoun(field), v) in ValidateGlossarySpec(glossary, validAreas, urlOk).value.warnings
            <==> j < |glossary.items| && StringKey(glossary.items[j], field).Some?
                 && v == JStr(StringKey(glossary.items[j], field).value) && !IsKebab(StringKey(glossary.items[j], field).value)
  {
    hide TermFindings;
    var areas := KnownAreas(validAreas, "id").value;
    var recs := glossary.items;
    GlossaryUpToWarningsAt(recs, |recs|, areas.0, areas.1, urlOk, j, NotKebab(GlossaryData, j, DuplicateNoun(field), v));
    if j < |recs| {
      KebabInTerm(j, recs[j], GlossaryUpTo(recs, j, areas.0, areas.1, urlOk).seen, areas.0, areas.1, urlOk, field, v);
    }
  }

  /** The first term with a given string id, term or slug is silent; each
      later one gets a duplicate error. */
  lemma ValidateGlossaryDuplicate(glossary: Json, validAreas: Json, urlOk: string -> bool, j: nat, field: string, v: Json)
    requires ValidateGlossarySpec(glossary, validAreas, urlOk).Ok? && glossary.JArr?
    requires KeyField(field)
    ensures DuplicateValue(GlossaryData, j, DuplicateNoun(field), v) in ValidateGlossarySpec(glossary, validAreas, urlOk).value.errors
            <==> j < |glossary.items| && StringKey(glossary.items[j], field).Some?
                 && v == JStr(StringKey(glossary.items[j], field).value)
                 && exists m :: 0 <= m < j && StringKey(glossary.items[m], field) == StringKey(glossary.items[j], field)
  {
    hide TermFindings;
    var areas := KnownAreas(validAreas, "id").value;
    var recs := glossary.items;
    GlossaryUpToErrorsAt(recs, |recs|, areas.0, areas.1, urlOk, j, DuplicateValue(GlossaryData, j, DuplicateNoun(field), v));
    if j < |recs| {
      DuplicateInTerm(j, recs[j], GlossaryUpTo(recs, j, areas.0, areas.1, urlOk).seen, areas.0, areas.1, urlOk, field, v);
      GlossaryUpToSets(recs, j, areas.0, areas.1, urlOk, field);
      var key := StringKey(recs[j], field);
      if key.Some? {
        var keys := StringKeys(recs, field);
        SeenIff(keys, j, key.value);
        if exists m :: 0 <= m < j && StringKey(recs[m], field) == key {
          var m :| 0 <= m < j && StringKey(recs[m], field) == key;
          assert keys[m] == Some(key.value);
        }
      }
    }
  }

  /** `duplicateIds`, `duplicateTerms` and `duplicateSlugs` count the
      distinct values two or more terms share. */
  lemma ValidateGlossaryDuplicateCounts(glossary: Json, validAreas: Json, urlOk: string -> bool)
    requires ValidateGlossarySpec(glossary, validAreas, urlOk).Ok? && glossary.JArr?
    ensures ValidateGlossarySpec(glossary, validAreas, urlOk).value.stats
            == Some(GlossaryStats(|glossary.items|, |Shared(StringKeys(glossary.items, "id"))|,
                                  |Shared(StringKeys(glossary.items, "term"))|, |Shared(StringKeys(glossary.items, "slug"))|))
  {
    hide TermFindings;
    var areas := KnownAreas(validAreas, "id").value;
    var recs := glossary.items;
    GlossaryUpToSets(recs, |recs|, areas.0, areas.1, urlOk, "id");
    GlossaryUpToSets(recs, |recs|, areas.0, areas.1, urlOk, "term");
    GlossaryUpToSets(recs, |recs|, areas.0, areas.1, urlOk, "slug");
    RepeatedIsShared(StringKeys(recs, "id"));
    RepeatedIsShared(StringKeys(recs, "term"));
    RepeatedIsShared(StringKeys(recs, "slug"));
  }

  /** An area id in a term's `area_ids` gives a warning exactly when there
      are valid areas and none of them has that id: ids, not names. */
  lemma ValidateGlossaryUnknownArea(glossary: Json, validAreas: Json, urlOk: string -> bool, j: nat, s: string)
    requires ValidateGlossarySpec(glossary, validAreas, urlOk).Ok? && glossary.JArr?
    ensures UnknownArea(GlossaryData, j, JStr(s)) in ValidateGlossarySpec(glossary, validAreas, urlOk).value.warnings
            <==> j < |glossary.items| && JStr(s) in ArrayItems(glossary.items[j], "area_ids") && |validAreas.items| > 0
                 && !exists k :: 0 <= k < |validAreas.items| && Get(validAreas.items[k], "id") == Some(JStr(s))
  {
    hide TermFindings;
    var areas := KnownAreas(validAreas, "id").value;
    var recs := glossary.items;
    GlossaryUpToWarningsAt(recs, |recs|, areas.0, areas.1, urlOk, j, UnknownArea(GlossaryData, j, JStr(s)));
    KnownStringsIff(validAreas.items, "id", |validAreas.items|, s);
    if j < |recs| {
      UnknownAreaInTerm(j, recs[j], GlossaryUpTo(recs, j, areas.0, areas.1, urlOk).seen, areas.0, areas.1, urlOk, s);
    }
  }

  /** Each key of a term outside the eight allowed fields gives one warning
      naming it. */
  lemma ValidateGlossaryUnexpected(glossary: Json, validAreas: Json, urlOk: string -> bool, j: nat, k: string)
    requires ValidateGlossarySpec(glossary, validAreas, urlOk).Ok? && glossary.JArr?
    ensures UnexpectedField(GlossaryData, j, k) in ValidateGlossarySpec(glossary, validAreas, urlOk).value.warnings
            <==> j < |glossary.items| && k in ObjectKeys(glossary.items[j]) && k !in Allowed
    ensures multiset(ValidateGlossarySpec(glossary, validAreas, urlOk).value.warnings)[UnexpectedField(GlossaryData, j, k)]
            == if j < |glossary.items| && k in ObjectKeys(glossary.items[j]) && k !in Allowed then 1 else 0
  {
    hide TermFindings;
    var areas := KnownAreas(validAreas, "id").value;
    var recs := glossary.items;
    GlossaryUpToWarningsAt(recs, |recs|, areas.0, areas.1, urlOk, j, UnexpectedField(GlossaryData, j, k));
    GlossaryUpToWarningCount(recs, |recs|, areas.0, areas.1, urlOk, j, UnexpectedField(GlossaryData, j, k));
    if j < |recs| {
      UnexpectedInTerm(j, recs[j], GlossaryUpTo(recs, j, areas.0, areas.1, urlOk).seen, areas.0, areas.1, urlOk, k);
    }
  }

  // ---------------------------------------------------------------- the code

  method CheckIdentity(i: nat, rec: Json, seen: KeySets) returns (r: Findings)
    ensures r == IdentityFindings(i, rec, seen)
  {
    r := CheckRequired(GlossaryData, i, rec, Required);
    r := r.Add(KeyFindings(i, rec, "id", seen.ids));
    r := r.Add(KeyFindings(i, rec, "term", seen.terms));
    r := r.Add(KeyFindings(i, rec, "slug", seen.slugs));
  }

  method CheckContent(i: nat, rec: Json, active: bool, known: set<string>, urlOk: string -> bool) returns (r: Findings)
    ensures r == ContentFindings(i, rec, active, known, urlOk)
  {
    var definition := Get(rec, "definition");
    r := if Present(definition) && !definition.value.JStr? then Error(NotString(GlossaryData, i, "definition")) else NoFindings;
    var a := Get(rec, "area_ids");
    if Present(a) && a.value.JArr? {
      var areaRefs := CheckAreaRefs(GlossaryData, i, a.value.items, active, known);
      r := r.Add(areaRefs);
    } else {
      r := r.Add(AreaIdFindings(i, rec, active, known));
    }
    var aliases := Get(rec, "aliases");
    if Present(aliases) && !aliases.value.JArr? {
      r := r.Add(Error(NotArrayWhenPresent(GlossaryData, i, "aliases")));
    } else {
      r := r.Add(NoFindings);
    }
    var related := Get(rec, "related_terms");
    if Present(related) && !related.value.JArr? {
      r := r.Add(Error(NotArrayWhenPresent(GlossaryData, i, "related_terms")));
    } else {
      r := r.Add(NoFindings);
    }
    var refs := Get(rec, "references");
    if !Present(refs) {
      r := r.Add(NoFindings);
    } else if !refs.value.JArr? {
      r := r.Add(Error(NotArrayWhenPresent(GlossaryData, i, "references")));
    } else {
      var checked := CheckReferences(GlossaryData, i, refs.value.items, false, urlOk);
      r := r.Add(checked);
    }
  }

  /** The body of the `forEach` callback for term `i`. */
  method CheckTerm(i: nat, rec: Json, seen: KeySets, active: bool, known: set<string>, urlOk: string -> bool) returns (r: Findings)
    ensures r == TermFindings(i, rec, seen, active, known, urlOk)
  {
    var identity := CheckIdentity(i, rec, seen);
    var content := CheckContent(i, rec, active, known, urlOk);
    var extra := CheckKeys(GlossaryData, i, rec, Allowed);
    r := identity.Add(content).Add(extra);
  }

  /** The callback with the loop variables it updates. */
  method VisitTerm(st: GlossaryLoop, i: nat, rec: Json, active: bool, known: set<string>, urlOk: string -> bool)
    returns (r: GlossaryLoop)
    ensures r == VisitStep(st, i, rec, active, known, urlOk)
  {
    var one := CheckTerm(i, rec, st.seen, active, known, urlOk);
    var id, term, slug := StringKey(rec, "id"), StringKey(rec, "term"), StringKey(rec, "slug");
    r := GlossaryLoop(
      st.found.Add(one),
      KeySets(SeenAfter(st.seen.ids, id), SeenAfter(st.seen.terms, term), SeenAfter(st.seen.slugs, slug)),
      KeySets(DuplicatesAfter(st.seen.ids, st.duplicates.ids, id),
              DuplicatesAfter(st.seen.terms, st.duplicates.terms, term),
              DuplicatesAfter(st.seen.slugs, st.duplicates.slugs, slug)));
  }

  /** The `forEach` over the terms; `None` when a `null` term makes the
      callback throw. */
  method VisitGlossary(recs: seq<Json>, active: bool, known: set<string>, urlOk: string -> bool) returns (r: Option<GlossaryLoop>)
    ensures r.None? <==> !NullFree(recs, |recs|)
    ensures r.Some? ==> r.value == GlossaryUpTo(recs, |recs|, active, known, urlOk)
  {
    hide VisitStep;
    var st := GlossaryLoop(NoFindings, NoKeys, NoKeys);
    var i := 0;
    while i < |recs|
      invariant 0 <= i <= |recs|
      invariant NullFree(recs, i)
      invariant st == GlossaryUpTo(recs, i, active, known, urlOk)
    {
      if recs[i].JNull? {
        NullBreaks(recs, i, |recs|);
        return None;
      }
      st := VisitTerm(st, i, recs[i], active, known, urlOk);
      i := i + 1;
    }
    r := Some(st);
  }

  method ValidateGlossary(glossary: Json, validAreas: Json, urlOk: string -> bool) returns (r: Outcome<ValidationResult>)
    ensures r == ValidateGlossarySpec(glossary, validAreas, urlOk)
  {
    var areas := CollectKnownAreas(validAreas, "id");
    if areas.Throws? {
      return Throws(areas.error);
    }
    if !glossary.JArr? {
      return Ok(NotArrayResult(GlossaryData));
    }
    var st := VisitGlossary(glossary.items, areas.value.0, areas.value.1, urlOk);
    if st.None? {
      return Throws(TypeError("Cannot read properties of null (reading 'id')"));
    }
    var d := st.value.duplicates;
    r := Ok(Finish(st.value.found, GlossaryStats(|glossary.items|, |d.ids|, |d.terms|, |d.slugs|)));
  }
}
