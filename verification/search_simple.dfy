/** The plain catalog search (`searchUtils.ts`): an exact area filter and a
    lowercase substring filter, both keeping the catalog's order, and the
    area names in first-seen order. `toLowerCase` is the parameter
    `lower`. */
module SimpleSearch {
  import opened Text
  import opened Seqs
  import opened Catalog

  /** `some(x => lower(x).includes(term))`. */
  predicate AnyHolds(lower: string -> string, xs: seq<string>, term: string)
  {
    exists x :: x in xs && Contains(lower(x), term)
  }

  /** The text test of one format: the term is in the extension, the name,
      the description, a tool, an area, the encoding or a repository. An
      absent encoding (`""`) never matches. */
  predicate Matches(lower: string -> string, f: FileFormat, term: string)
  {
    || Contains(lower(f.extension), term)
    || Contains(lower(f.name), term)
    || Contains(lower(f.description), term)
    || AnyHolds(lower, f.tools, term)
    || AnyHolds(lower, f.area, term)
    || (f.encodingType != "" && Contains(lower(f.encodingType), term))
    || AnyHolds(lower, f.usedInRepositories, term)
  }

  function InArea(selected: string): FileFormat -> bool
  {
    (f: FileFormat) => selected in f.area
  }

  function MatchesTerm(lower: string -> string, term: string): FileFormat -> bool
  {
    (f: FileFormat) => Matches(lower, f, term)
  }

  /** `searchFormats(formats, query, selectedAreaName)`; an absent area is
      `""`, which is falsy like `undefined`. */
  function SearchFormats(lower: string -> string, formats: seq<FileFormat>, query: string, selected: string)
    : seq<FileFormat>
  {
    var byArea := if selected != "" then Filter(formats, InArea(selected)) else formats;
    if Trim(query) != "" then Filter(byArea, MatchesTerm(lower, Trim(lower(query)))) else byArea
  }

  /** The result keeps the order of the catalog; a format is in it exactly
      when it passes the area test (its `area` holds the selection, when
      there is one) and the text test (when the query is not blank). */
  lemma SearchFormatsSpec(lower: string -> string, formats: seq<FileFormat>, query: string, selected: string,
                          f: FileFormat)
    ensures IsSubsequence(SearchFormats(lower, formats, query, selected), formats)
    ensures f in SearchFormats(lower, formats, query, selected)
            <==> && f in formats
                 && (selected != "" ==> selected in f.area)
                 && (Trim(query) != "" ==> Matches(lower, f, Trim(lower(query))))
  {
    var byArea := if selected != "" then Filter(formats, InArea(selected)) else formats;
    if selected != "" {
      FilterIsSubsequence(formats, InArea(selected));
    } else {
      SubsequenceRefl(formats);
    }
    if Trim(query) != "" {
      FilterIsSubsequence(byArea, MatchesTerm(lower, Trim(lower(query))));
      SubsequenceTrans(SearchFormats(lower, formats, query, selected), byArea, formats);
    }
  }

  /** A blank query filters by area only. */
  lemma BlankQuery(lower: string -> string, formats: seq<FileFormat>, query: string, selected: string)
    requires AllSpace(query)
    ensures SearchFormats(lower, formats, query, selected)
            == if selected != "" then Filter(formats, InArea(selected)) else formats
  {
    TrimEmptyIff(query);
  }

  /** `getUniqueAreas(formats)`: the `Set` filled entry by entry, in the
      order the formats list them. */
  method UniqueAreas(formats: seq<FileFormat>) returns (areas: seq<string>)
    ensures areas == FirstSeen(AreaList(formats))
  {
    hide FirstSeen;
    areas := [];
    for i := 0 to |formats|
      invariant areas == FirstSeen(AreasUpTo(formats, i))
    {
      var entries := formats[i].area;
      ghost var before := AreasUpTo(formats, i);
      assert before + entries[..0] == before;
      for j := 0 to |entries|
        invariant areas == FirstSeen(before + entries[..j])
      {
        FirstSeenStep(before + entries[..j], entries[j]);
        assert before + entries[..j + 1] == before + entries[..j] + [entries[j]];
        if entries[j] !in areas {
          areas := areas + [entries[j]];
        }
      }
      assert entries[..|entries|] == entries;
      assert AreasUpTo(formats, i + 1) == before + entries;
    }
  }

  /** The first-seen list of area names holds every name some format lists,
      once each, in the order of first appearance. */
  lemma UniqueAreasSpec(formats: seq<FileFormat>)
    ensures var r := FirstSeen(AreaList(formats));
      && Distinct(r)
      && (forall a :: a in r <==> exists f :: f in formats && a in f.area)
      && IsSubsequence(r, AreaList(formats))
      && (forall i, j :: 0 <= i < j < |r| ==>
            r[i] in AreaList(formats) && r[j] in AreaList(formats)
            && FirstIndex(AreaList(formats), r[i]) < FirstIndex(AreaList(formats), r[j]))
  {
    var r := FirstSeen(AreaList(formats));
    FirstSeenSpec(AreaList(formats));
    FirstSeenIsSubsequence(AreaList(formats));
    forall i, j | 0 <= i < j < |r|
      ensures r[i] in AreaList(formats) && r[j] in AreaList(formats)
              && FirstIndex(AreaList(formats), r[i]) < FirstIndex(AreaList(formats), r[j])
    {
      FirstSeenOrder(AreaList(formats), i, j);
    }
    forall a ensures a in FirstSeen(AreaList(formats)) <==> exists f :: f in formats && a in f.area {
      AreaListMembers(formats, a);
    }
  }
}
