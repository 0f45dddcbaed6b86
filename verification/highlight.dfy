/** The text side of `highlightMatch`: every occurrence of the normalized
    query in the normalized text, mapped back to positions of the original
    text, merged when they touch or overlap, and cut into plain and marked
    pieces. The JSX elements the pieces become are not modelled. */
module Highlight {
  import opened Text
  import opened Sorting
  import opened RankedSearch

  /** A half-open range `[start, end)` of positions. */
  datatype Range = Range(start: int, end: int)

  /** A `<span>` (plain text) or a `<mark>` (highlighted text). */
  datatype Piece = Plain(text: string) | Marked(text: string)

  // ---------------------------------------------------------------------
  // Normalizing character by character.

  /** `normPieces`: each character normalized on its own. */
  function NormPieces(fold: string -> string, text: string): (r: seq<string>)
    ensures |r| == |text|
  {
    seq(|text|, i requires 0 <= i < |text| => Norm(fold, [text[i]]))
  }

  /** `normalized`: the pieces joined. */
  function NormText(fold: string -> string, text: string): string
  {
    Join(NormPieces(fold, text), "")
  }

  /** `normToOrigIndex`: for each character of the normalized text, the
      position of the original character it comes from. */
  function IndexMap(fold: string -> string, text: string): (r: seq<nat>)
    ensures forall k :: 0 <= k < |r| ==> r[k] < |text|
    ensures forall j, k :: 0 <= j <= k < |r| ==> r[j] <= r[k]
  {
    if text == [] then []
    else
      var prev := IndexMap(fold, text[..|text| - 1]);
      var more := seq(|Norm(fold, [text[|text| - 1]])|, _ => |text| - 1);
      var r := prev + more;
      assert forall j, k :: 0 <= j <= k < |r| ==> r[j] <= r[k] by {
        forall j, k | 0 <= j <= k < |r| ensures r[j] <= r[k] {
          if k >= |prev| {
            assert r[k] == |text| - 1;
            if j < |prev| {
              assert r[j] == prev[j];
            }
          } else {
            assert r[j] == prev[j] && r[k] == prev[k];
          }
        }
      }
      r
  }

  lemma JoinStep(parts: seq<string>, p: string)
    ensures Join(parts + [p], "") == Join(parts, "") + p
  {
    if parts != [] {
      assert (parts + [p])[..|parts|] == parts;
    }
  }

  lemma IndexMapStep(fold: string -> string, text: string)
    requires text != []
    ensures IndexMap(fold, text)
            == IndexMap(fold, text[..|text| - 1]) + seq(|Norm(fold, [text[|text| - 1]])|, _ => |text| - 1)
  {
  }

  lemma NormPiecesStep(fold: string -> string, text: string)
    requires text != []
    ensures NormPieces(fold, text) == NormPieces(fold, text[..|text| - 1]) + [Norm(fold, [text[|text| - 1]])]
  {
    hide Norm;
    var a := NormPieces(fold, text);
    var b := NormPieces(fold, text[..|text| - 1]) + [Norm(fold, [text[|text| - 1]])];
    forall i | 0 <= i < |a| ensures a[i] == b[i] {
      if i < |text| - 1 {
        assert text[..|text| - 1][i] == text[i];
      }
    }
  }


  /** `norm` trims each character on its own, so a character that folds to
      at most one character contributes no white space. */
  lemma NormCharNoSpace(fold: string -> string, c: char)
    requires |fold([c])| <= 1
    ensures forall k :: 0 <= k < |Norm(fold, [c])| ==> !IsSpace(Norm(fold, [c])[k])
  {
    var t := TrimStart(fold([c]));
    assert |TrimEnd(t)| <= |t| <= 1;
  }

  /** When no character folds to more than one, the normalized text holds
      no white space at all. */
  lemma {:induction false} NormTextNoSpace(fold: string -> string, text: string)
    requires forall i :: 0 <= i < |text| ==> |fold([text[i]])| <= 1
    ensures forall k :: 0 <= k < |NormText(fold, text)| ==> !IsSpace(NormText(fold, text)[k])
  {
    if text != [] {
      var init, c := text[..|text| - 1], text[|text| - 1];
      assert forall i :: 0 <= i < |init| ==> init[i] == text[i];
      NormTextNoSpace(fold, init);
      NormPiecesStep(fold, text);
      JoinStep(NormPieces(fold, init), Norm(fold, [c]));
      NormCharNoSpace(fold, c);
      hide Norm, NormPieces, Join;
      assert NormText(fold, text) == NormText(fold, init) + Norm(fold, [c]);
    }
  }
  /** The map has one entry per character of the normalized text. */
  lemma {:induction false} IndexMapLength(fold: string -> string, text: string)
    ensures |IndexMap(fold, text)| == |NormText(fold, text)|
  {
    if text != [] {
      var init := text[..|text| - 1];
      IndexMapLength(fold, init);
      NormPiecesStep(fold, text);
      JoinStep(NormPieces(fold, init), Norm(fold, [text[|text| - 1]]));
    }
  }

  method BuildIndex(fold: string -> string, text: string) returns (normalized: string, index: seq<nat>)
    ensures normalized == NormText(fold, text) && index == IndexMap(fold, text)
  {
    assert text[..0] == [] && IndexMap(fold, text[..0]) == [];
    hide IndexMap, NormPieces, Norm;
    var pieces: seq<string> := [];
    index := [];
    for i := 0 to |text|
      invariant pieces == NormPieces(fold, text[..i]) && index == IndexMap(fold, text[..i])
    {
      var n := Norm(fold, [text[i]]);
      ghost var before := index;
      for k := 0 to |n|
        invariant index == before + seq(k, _ => i)
      {
        index := index + [i];
      }
      assert text[..i + 1][..i] == text[..i];
      NormPiecesStep(fold, text[..i + 1]);
      IndexMapStep(fold, text[..i + 1]);
      pieces := pieces + [n];
    }
    assert text[..|text|] == text;
    normalized := Join(pieces, "");
  }

  // ---------------------------------------------------------------------
  // Finding the occurrences.

  /** The matches `indexOf` finds from `pos` on, each search resuming at
      the end of the previous match. */
  function MatchesFrom(s: string, q: string, pos: nat): seq<Range>
    requires q != "" && pos <= |s|
    decreases |s| - pos
  {
    var idx := IndexFrom(s, q, pos);
    if idx == -1 then [] else [Range(idx, idx + |q|)] + MatchesFrom(s, q, idx + |q|)
  }

  /** `q` occurs at every match, and the matches lie within `s` in
      increasing order without overlapping. */
  predicate WellPlaced(s: string, q: string, ms: seq<Range>, pos: nat)
  {
    && (forall i :: 0 <= i < |ms| ==> pos <= ms[i].start && ms[i].end == ms[i].start + |q| && OccursAt(s, q, ms[i].start))
    && (forall i :: 0 < i < |ms| ==> ms[i - 1].end <= ms[i].start)
  }

  /** Every occurrence of `q` from `pos` on starts inside a match. */
  ghost predicate Covering(s: string, q: string, ms: seq<Range>, pos: nat)
  {
    forall p: nat :: pos <= p && OccursAt(s, q, p) ==> exists i :: 0 <= i < |ms| && ms[i].start <= p < ms[i].end
  }

  lemma {:induction false} MatchesPlaced(s: string, q: string, pos: nat)
    requires q != "" && pos <= |s|
    ensures WellPlaced(s, q, MatchesFrom(s, q, pos), pos)
    decreases |s| - pos
  {
    hide IndexFrom;
    var idx := IndexFrom(s, q, pos);
    if idx != -1 {
      assert idx + |q| <= |s|;
      hide OccursAt;
      var next := idx + |q|;
      MatchesPlaced(s, q, next);
      var rest := MatchesFrom(s, q, next);
      var ms := [Range(idx, next)] + rest;
      assert MatchesFrom(s, q, pos) == ms;
      hide MatchesFrom;
      forall i | 0 <= i < |ms|
        ensures pos <= ms[i].start && ms[i].end == ms[i].start + |q| && OccursAt(s, q, ms[i].start)
      {
        if i > 0 {
          assert ms[i] == rest[i - 1];
        }
      }
      forall i | 0 < i < |ms| ensures ms[i - 1].end <= ms[i].start {
        assert ms[i] == rest[i - 1];
        if i > 1 {
          assert ms[i - 1] == rest[i - 2];
        }
      }
    }
  }

  lemma {:induction false} MatchesCover(s: string, q: string, pos: nat)
    requires q != "" && pos <= |s|
    ensures Covering(s, q, MatchesFrom(s, q, pos), pos)
    decreases |s| - pos
  {
    hide IndexFrom;
    var idx := IndexFrom(s, q, pos);
    if idx != -1 {
      assert idx + |q| <= |s|;
      hide OccursAt;
      var next := idx + |q|;
      MatchesCover(s, q, next);
      var rest := MatchesFrom(s, q, next);
      var ms := [Range(idx, next)] + rest;
      assert MatchesFrom(s, q, pos) == ms;
      forall p: nat | pos <= p && OccursAt(s, q, p)
        ensures exists i :: 0 <= i < |ms| && ms[i].start <= p < ms[i].end
      {
        if p < next {
          assert ms[0].start <= p < ms[0].end;
        } else {
          var i :| 0 <= i < |rest| && rest[i].start <= p < rest[i].end;
          assert ms[i + 1] == rest[i];
        }
      }
    }
  }

  /** The matches are the leftmost non-overlapping occurrences: each is an
      occurrence, each starts at or after the end of the one before, and
      every occurrence starts inside one of them. */
  lemma MatchesSpec(s: string, q: string, pos: nat)
    requires q != "" && pos <= |s|
    ensures WellPlaced(s, q, MatchesFrom(s, q, pos), pos)
    ensures Covering(s, q, MatchesFrom(s, q, pos), pos)
  {
    MatchesPlaced(s, q, pos);
    MatchesCover(s, q, pos);
  }

  method FindMatches(s: string, q: string) returns (matches: seq<Range>)
    requires q != ""
    ensures matches == MatchesFrom(s, q, 0)
  {
    matches := [];
    var pos := 0;
    while true
      invariant pos <= |s| && matches + MatchesFrom(s, q, pos) == MatchesFrom(s, q, 0)
      decreases |s| - pos
    {
      var idx := IndexFrom(s, q, pos);
      if idx == -1 {
        break;
      }
      matches := matches + [Range(idx, idx + |q|)];
      pos := idx + |q|;
    }
    assert matches + [] == matches;
  }

  // ---------------------------------------------------------------------
  // Back to the original text, sorting and merging.

  /** Every range is non-empty and lies within `[0, n)`. */
  predicate Within(rs: seq<Range>, n: int)
  {
    forall i :: 0 <= i < |rs| ==> 0 <= rs[i].start < rs[i].end <= n
  }

  /** `index[k] ?? dflt`. */
  function At(index: seq<nat>, k: int, dflt: int): int
  {
    if 0 <= k < |index| then index[k] else dflt
  }

  /** From the first to the last character of each match, in the original
      text of `n` characters. */
  function OriginalRanges(index: seq<nat>, ms: seq<Range>, n: int): (r: seq<Range>)
    ensures |r| == |ms|
  {
    seq(|ms|, i requires 0 <= i < |ms| => Range(At(index, ms[i].start, 0), At(index, ms[i].end - 1, n - 1) + 1))
  }

  /** The original ranges of in-bounds matches are in bounds too. */
  lemma OriginalWithin(fold: string -> string, text: string, ms: seq<Range>)
    requires Within(ms, |IndexMap(fold, text)|)
    ensures Within(OriginalRanges(IndexMap(fold, text), ms, |text|), |text|)
  {
    var index := IndexMap(fold, text);
    assert forall k :: 0 <= k < |index| ==> index[k] < |text|;
    assert forall j, k :: 0 <= j <= k < |index| ==> index[j] <= index[k];
    hide IndexMap;
    MappedWithin(index, ms, |text|);
  }

  /** Through a non-decreasing map into `[0, n)`, a non-empty range stays
      non-empty and in bounds. */
  lemma MappedWithin(index: seq<nat>, ms: seq<Range>, n: int)
    requires Within(ms, |index|)
    requires forall k :: 0 <= k < |index| ==> index[k] < n
    requires forall j, k :: 0 <= j <= k < |index| ==> index[j] <= index[k]
    ensures Within(OriginalRanges(index, ms, n), n)
  {
    var r := OriginalRanges(index, ms, n);
    forall i | 0 <= i < |ms| ensures 0 <= r[i].start < r[i].end <= n {
      var m := ms[i];
      assert index[m.start] <= index[m.end - 1] < n;
    }
  }

  /** `a.start - b.start`. */
  function ByStart(): (Range, Range) -> int
  {
    (a: Range, b: Range) => a.start - b.start
  }

  function Max(a: int, b: int): int
  {
    if a < b then b else a
  }

  /** One range more: it is added when it starts after the last merged
      end, and otherwise extends the last merged range. */
  function MergeStep(m: seq<Range>, r: Range): seq<Range>
  {
    if m == [] || r.start > m[|m| - 1].end then m + [r]
    else m[..|m| - 1] + [Range(m[|m| - 1].start, Max(m[|m| - 1].end, r.end))]
  }

  /** The ranges merged in order. */
  function Merge(rs: seq<Range>): seq<Range>
  {
    if rs == [] then [] else MergeStep(Merge(rs[..|rs| - 1]), rs[|rs| - 1])
  }

  /** Each merged range starts after the previous one ends. */
  predicate Separated(rs: seq<Range>)
  {
    forall i :: 0 < i < |rs| ==> rs[i - 1].end < rs[i].start
  }

  lemma MergeStepSeparated(m: seq<Range>, r: Range, n: int)
    requires Within(m, n) && Separated(m) && 0 <= r.start < r.end <= n
    ensures Within(MergeStep(m, r), n) && Separated(MergeStep(m, r)) && MergeStep(m, r) != []
  {
    var out := MergeStep(m, r);
    if !(m == [] || r.start > m[|m| - 1].end) {
      assert forall i :: 0 <= i < |m| - 1 ==> out[i] == m[i];
    }
  }

  /** Merging gives separated ranges inside the same bounds. */
  lemma {:induction false} MergeSeparated(rs: seq<Range>, n: int)
    requires Within(rs, n)
    ensures Within(Merge(rs), n) && Separated(Merge(rs))
    ensures rs != [] ==> Merge(rs) != []
  {
    hide MergeStep;
    if rs != [] {
      var init := rs[..|rs| - 1];
      assert forall i :: 0 <= i < |init| ==> init[i] == rs[i];
      MergeSeparated(init, n);
      MergeStepSeparated(Merge(init), rs[|rs| - 1], n);
    }
  }

  predicate Covered(rs: seq<Range>, p: int)
  {
    exists i :: 0 <= i < |rs| && rs[i].start <= p < rs[i].end
  }

  predicate StartsInOrder(rs: seq<Range>)
  {
    forall i :: 0 < i < |rs| ==> rs[i - 1].start <= rs[i].start
  }

  lemma MergeStepCovers(m: seq<Range>, r: Range, p: int)
    requires m != [] ==> m[|m| - 1].start <= r.start
    ensures MergeStep(m, r) != [] && MergeStep(m, r)[|MergeStep(m, r)| - 1].start <= r.start
    ensures Covered(MergeStep(m, r), p) <==> Covered(m, p) || r.start <= p < r.end
  {
    if m == [] || r.start > m[|m| - 1].end {
      CoveredAppend(m, r, p);
    } else {
      var init := m[..|m| - 1];
      var last := m[|m| - 1];
      assert init + [last] == m;
      CoveredAppend(init, last, p);
      CoveredAppend(init, Range(last.start, Max(last.end, r.end)), p);
    }
  }

  /** On ranges in order of their starts, merging marks exactly the
      positions the ranges mark; the last merged range starts no later than
      the last range. */
  lemma {:induction false} MergeCovers(rs: seq<Range>)
    requires StartsInOrder(rs)
    ensures rs != [] ==> Merge(rs) != [] && Merge(rs)[|Merge(rs)| - 1].start <= rs[|rs| - 1].start
    ensures forall p :: Covered(Merge(rs), p) <==> Covered(rs, p)
  {
    hide MergeStep, Covered;
    if rs != [] {
      var init := rs[..|rs| - 1];
      var r := rs[|rs| - 1];
      assert StartsInOrder(init);
      MergeCovers(init);
      if init != [] {
        assert init[|init| - 1].start <= r.start;
      }
      forall p ensures Covered(Merge(rs), p) <==> Covered(rs, p) {
        MergeStepCovers(Merge(init), r, p);
        CoveredAppend(init, r, p);
        assert init + [r] == rs;
      }
      MergeStepCovers(Merge(init), r, 0);
    }
  }

  lemma CoveredAppend(rs: seq<Range>, r: Range, p: int)
    ensures Covered(rs + [r], p) <==> Covered(rs, p) || r.start <= p < r.end
  {
    if Covered(rs, p) {
      var i :| 0 <= i < |rs| && rs[i].start <= p < rs[i].end;
      assert (rs + [r])[i] == rs[i];
    }
    if r.start <= p < r.end {
      assert (rs + [r])[|rs|] == r;
    }
  }

  method MergeRanges(ranges: seq<Range>) returns (merged: seq<Range>)
    ensures merged == Merge(ranges)
  {
    merged := [];
    for i := 0 to |ranges|
      invariant merged == Merge(ranges[..i])
    {
      assert ranges[..i + 1][..i] == ranges[..i];
      var r := ranges[i];
      if merged == [] || r.start > merged[|merged| - 1].end {
        merged := merged + [r];
      } else {
        var last := merged[|merged| - 1];
        merged := merged[..|merged| - 1] + [last.(end := Max(last.end, r.end))];
      }
    }
    assert ranges[..|ranges|] == ranges;
  }

  // ---------------------------------------------------------------------
  // Cutting the text.

  function Clamp(a: int, n: nat): (r: nat)
    ensures r <= n
  {
    if a < 0 then 0 else if a > n then n else a
  }

  /** `s.slice(a, b)` for non-negative bounds: clamped to the string, empty
      when the bounds cross. */
  function Slice(s: string, a: int, b: int): string
  {
    var a' := Clamp(a, |s|);
    var b' := Clamp(b, |s|);
    if a' < b' then s[a'..b'] else ""
  }

  /** `last` after the first `n` merged ranges. */
  function LastEnd(merged: seq<Range>, n: nat): int
    requires n <= |merged|
  {
    if n == 0 then 0 else merged[n - 1].end
  }

  /** The pieces for the first `n` merged ranges: the plain text since
      `last`, when there is any, then the marked range. */
  function PiecesUpTo(text: string, merged: seq<Range>, n: nat): seq<Piece>
    requires n <= |merged|
  {
    if n == 0 then []
    else
      var last := LastEnd(merged, n - 1);
      var r := merged[n - 1];
      PiecesUpTo(text, merged, n - 1)
      + (if r.start > last then [Plain(Slice(text, last, r.start))] else [])
      + [Marked(Slice(text, r.start, r.end))]
  }

  /** Every piece, then the plain tail after the last range. */
  function Pieces(text: string, merged: seq<Range>): seq<Piece>
  {
    var last := LastEnd(merged, |merged|);
    PiecesUpTo(text, merged, |merged|) + (if last < |text| then [Plain(Slice(text, last, |text|))] else [])
  }

  method Assemble(text: string, merged: seq<Range>) returns (parts: seq<Piece>)
    ensures parts == Pieces(text, merged)
  {
    parts := [];
    var last := 0;
    for i := 0 to |merged|
      invariant parts == PiecesUpTo(text, merged, i) && last == LastEnd(merged, i)
    {
      var r := merged[i];
      if r.start > last {
        parts := parts + [Plain(Slice(text, last, r.start))];
      }
      parts := parts + [Marked(Slice(text, r.start, r.end))];
      last := r.end;
    }
    if last < |text| {
      parts := parts + [Plain(Slice(text, last, |text|))];
    }
  }

  /** The text of the pieces, in order. */
  function Concat(parts: seq<Piece>): string
  {
    if parts == [] then "" else Concat(parts[..|parts| - 1]) + parts[|parts| - 1].text
  }

  lemma {:induction false} ConcatAppend(a: seq<Piece>, b: seq<Piece>)
    ensures Concat(a + b) == Concat(a) + Concat(b)
    decreases |b|
  {
    if b != [] {
      ConcatAppend(a, b[..|b| - 1]);
      assert (a + b)[..|a + b| - 1] == a + b[..|b| - 1];
    } else {
      assert a + b == a;
    }
  }

  lemma ConcatSingle(x: Piece)
    ensures Concat([x]) == x.text
  {
    assert [x][..0] == [];
  }

  lemma SliceIn(s: string, a: int, b: int)
    requires 0 <= a <= b <= |s|
    ensures Slice(s, a, b) == s[a..b]
  {
  }

  /** The plain text since `last` and the marked range continue a spelling
      of the text up to `last`. */
  lemma PiecesStepSpell(text: string, prev: seq<Piece>, last: int, r: Range)
    requires 0 <= last <= r.start < r.end <= |text| && Concat(prev) == text[..last]
    ensures Concat(prev + (if r.start > last then [Plain(Slice(text, last, r.start))] else [])
                   + [Marked(Slice(text, r.start, r.end))]) == text[..r.end]
  {
    var pre := if r.start > last then [Plain(Slice(text, last, r.start))] else [];
    GapSpell(text, prev, last, r.start);
    SliceIn(text, r.start, r.end);
    var mark := Marked(text[r.start..r.end]);
    hide Slice, Concat;
    ConcatAppend(prev + pre, [mark]);
    ConcatSingle(mark);
    assert text[..r.start] + text[r.start..r.end] == text[..r.end];
  }

  /** The plain text between `last` and `start`, when there is any,
      continues a spelling of the text up to `last`. */
  lemma GapSpell(text: string, prev: seq<Piece>, last: int, start: int)
    requires 0 <= last <= start <= |text| && Concat(prev) == text[..last]
    ensures Concat(prev + (if start > last then [Plain(Slice(text, last, start))] else [])) == text[..start]
  {
    if start > last {
      SliceIn(text, last, start);
      var gap := Plain(text[last..start]);
      hide Slice, Concat;
      ConcatAppend(prev, [gap]);
      ConcatSingle(gap);
      assert text[..last] + text[last..start] == text[..start];
    } else {
      assert prev + [] == prev;
    }
  }

  /** The pieces so far spell the text up to the end of the last range. */
  lemma {:induction false} PiecesUpToSpell(text: string, merged: seq<Range>, n: nat)
    requires n <= |merged| && Within(merged, |text|) && Separated(merged)
    ensures Concat(PiecesUpTo(text, merged, n)) == text[..LastEnd(merged, n)]
  {
    if n > 0 {
      PiecesUpToSpell(text, merged, n - 1);
      var r := merged[n - 1];
      assert 0 <= r.start < r.end <= |text|;
      if n > 1 {
        assert merged[n - 2].end < merged[n - 1].start;
      }
      hide Concat, Slice, Within, Separated;
      PiecesStepSpell(text, PiecesUpTo(text, merged, n - 1), LastEnd(merged, n - 1), r);
    }
  }

  /** Marked and plain pieces, concatenated, give back the text. */
  lemma PiecesSpell(text: string, merged: seq<Range>)
    requires Within(merged, |text|) && Separated(merged)
    ensures Concat(Pieces(text, merged)) == text
  {
    var last := LastEnd(merged, |merged|);
    PiecesUpToSpell(text, merged, |merged|);
    var tail := if last < |text| then [Plain(Slice(text, last, |text|))] else [];
    ConcatAppend(PiecesUpTo(text, merged, |merged|), tail);
    if last < |text| {
      ConcatSingle(Plain(Slice(text, last, |text|)));
      SliceIn(text, last, |text|);
    }
    assert text[..last] + text[last..] == text;
  }

  // ---------------------------------------------------------------------
  // The whole.

  /** `highlightMatch(text, query)`, as the sequence of pieces rendered. */
  function Highlight(fold: string -> string, text: string, query: string): seq<Piece>
  {
    var q := Norm(fold, query);
    if q == "" then [Plain(text)]
    else
      var normalized := NormText(fold, text);
      var ms := MatchesFrom(normalized, q, 0);
      if ms == [] then [Plain(text)]
      else
        var index := IndexMap(fold, text);
        Pieces(text, Merge(SortBy(OriginalRanges(index, ms, |text|), ByStart())))
  }

  lemma SortWithin(rs: seq<Range>, n: int)
    requires Within(rs, n)
    ensures Within(SortBy(rs, ByStart()), n) && StartsInOrder(SortBy(rs, ByStart()))
  {
    var sorted := SortBy(rs, ByStart());
    hide SortBy;
    forall i | 0 <= i < |sorted| ensures 0 <= sorted[i].start < sorted[i].end <= n {
      assert sorted[i] in multiset(rs);
      var j :| 0 <= j < |rs| && rs[j] == sorted[i];
    }
    SortBySorted(rs, ByStart());
    forall i | 0 < i < |sorted| ensures sorted[i - 1].start <= sorted[i].start {
      assert ByStart()(sorted[i - 1], sorted[i]) <= 0;
    }
  }

  lemma CoveredPermutation(a: seq<Range>, b: seq<Range>, p: int)
    requires multiset(a) == multiset(b)
    ensures Covered(a, p) <==> Covered(b, p)
  {
    if Covered(a, p) {
      var i :| 0 <= i < |a| && a[i].start <= p < a[i].end;
      assert a[i] in multiset(b);
      var j :| 0 <= j < |b| && b[j] == a[i];
    }
    if Covered(b, p) {
      var i :| 0 <= i < |b| && b[i].start <= p < b[i].end;
      assert b[i] in multiset(a);
      var j :| 0 <= j < |a| && a[j] == b[i];
    }
  }

  /** The matches of a non-blank query, mapped back, are non-empty ranges
      inside the text. */
  lemma RangesWithin(fold: string -> string, text: string, q: string)
    requires q != ""
    ensures Within(OriginalRanges(IndexMap(fold, text), MatchesFrom(NormText(fold, text), q, 0), |text|), |text|)
  {
    var normalized := NormText(fold, text);
    var ms := MatchesFrom(normalized, q, 0);
    MatchesPlaced(normalized, q, 0);
    IndexMapLength(fold, text);
    hide NormText, MatchesFrom, IndexMap;
    assert Within(ms, |IndexMap(fold, text)|);
    OriginalWithin(fold, text, ms);
  }

  /** A blank query, or one that does not occur, leaves the text as one
      plain piece; in every case the pieces, concatenated, give back the
      text. */
  lemma HighlightSpec(fold: string -> string, text: string, query: string)
    ensures Norm(fold, query) == "" ==> Highlight(fold, text, query) == [Plain(text)]
    ensures Norm(fold, query) != "" && MatchesFrom(NormText(fold, text), Norm(fold, query), 0) == [] ==> Highlight(fold, text, query) == [Plain(text)]
    ensures Concat(Highlight(fold, text, query)) == text
  {
    var q := Norm(fold, query);
    ConcatSingle(Plain(text));
    if q != "" {
      var ms := MatchesFrom(NormText(fold, text), q, 0);
      if ms != [] {
        var ranges := OriginalRanges(IndexMap(fold, text), ms, |text|);
        RangesWithin(fold, text, q);
        hide NormText, MatchesFrom, IndexMap, OriginalRanges, SortBy, Merge, Pieces;
        SortWithin(ranges, |text|);
        MergeSeparated(SortBy(ranges, ByStart()), |text|);
        PiecesSpell(text, Merge(SortBy(ranges, ByStart())));
      }
    }
  }

  /** A query whose normalized form keeps white space inside never matches
      the normalized text, whose characters were trimmed one by one: the
      text comes back as one plain piece, even when it contains the query
      word for word. */
  lemma SpacedQueryUnmarked(fold: string -> string, text: string, query: string)
    requires forall i :: 0 <= i < |text| ==> |fold([text[i]])| <= 1
    requires exists k :: 0 <= k < |Norm(fold, query)| && IsSpace(Norm(fold, query)[k])
    ensures Highlight(fold, text, query) == [Plain(text)]
  {
    var q := Norm(fold, query);
    var s := NormText(fold, text);
    var k :| 0 <= k < |q| && IsSpace(q[k]);
    NormTextNoSpace(fold, text);
    forall p: nat | p <= |s| ensures !OccursAt(s, q, p) {
      if p + |q| <= |s| {
        assert s[p..p + |q|][k] == s[p + k];
      }
    }
    assert IndexFrom(s, q, 0) == -1;
    assert MatchesFrom(s, q, 0) == [];
  }

  function Unfolded(s: string): string
  {
    s
  }

  /** Without case or accent folding, "a b" is not marked in "a b". */
  lemma SpacedQueryExample()
    ensures Highlight(Unfolded, "a b", "a b") == [Plain("a b")]
  {
    TrimUnchanged("a b");
    assert Norm(Unfolded, "a b") == "a b";
    assert IsSpace(Norm(Unfolded, "a b")[1]);
    SpacedQueryUnmarked(Unfolded, "a b", "a b");
  }

  /** The merged ranges the pieces are cut from start after the previous
      one ends, lie inside the text, and mark every position some match
      marks once mapped back, and no other. */
  lemma MergedRanges(fold: string -> string, text: string, q: string)
    requires q != ""
    ensures var ranges := OriginalRanges(IndexMap(fold, text), MatchesFrom(NormText(fold, text), q, 0), |text|);
      var merged := Merge(SortBy(ranges, ByStart()));
      && Separated(merged) && Within(merged, |text|)
      && forall p :: Covered(merged, p) <==> Covered(ranges, p)
  {
    var ranges := OriginalRanges(IndexMap(fold, text), MatchesFrom(NormText(fold, text), q, 0), |text|);
    RangesWithin(fold, text, q);
    hide NormText, MatchesFrom, IndexMap, OriginalRanges, SortBy, Merge;
    var sorted := SortBy(ranges, ByStart());
    SortWithin(ranges, |text|);
    MergeSeparated(sorted, |text|);
    MergeCovers(sorted);
    forall p ensures Covered(sorted, p) <==> Covered(ranges, p) {
      CoveredPermutation(sorted, ranges, p);
    }
  }

  method HighlightMatch(fold: string -> string, text: string, query: string) returns (parts: seq<Piece>)
    ensures parts == Highlight(fold, text, query)
  {
    var q := Norm(fold, query);
    if q == "" {
      return [Plain(text)];
    }
    var normalized, index := BuildIndex(fold, text);
    var matches := FindMatches(normalized, q);
    if |matches| == 0 {
      return [Plain(text)];
    }
    var ranges := OriginalRanges(index, matches, |text|);
    ranges := SortBy(ranges, ByStart());
    var merged := MergeRanges(ranges);
    parts := Assemble(text, merged);
  }
}
