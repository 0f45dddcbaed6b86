/** The ranked catalog search of the web client: normalization, the
    tokenizer, the starts-with/includes scoring, the format search with its
    area filter, the glossary search, and the sorted list of area names.
    `toLocaleLowerCase`, NFD decomposition and the removal of diacritics
    are one abstract parameter `fold`; `localeCompare` is the comparator
    parameter `cmp`. */
module RankedSearch {
  import opened Wrappers
  import opened Text
  import opened Seqs
  import opened Sorting
  import opened Catalog

  /** `norm(s)`: fold the case and the accents, then trim. */
  function Norm(fold: string -> string, s: string): (r: string)
    ensures r == "" <==> AllSpace(fold(s))
  {
    TrimEmptyIff(fold(s));
    Trim(fold(s))
  }

  // ---------------------------------------------------------------------
  // The tokenizer: `/"([^"]+)"|'([^']+)'|(\S+)/g` applied to the
  // normalized query.

  /** The first position at or after `from` that is not white space. */
  function SkipSpace(s: string, from: nat): (r: nat)
    requires from <= |s|
    ensures from <= r <= |s| && (r < |s| ==> !IsSpace(s[r]))
    ensures forall k :: from <= k < r ==> IsSpace(s[k])
    decreases |s| - from
  {
    if from == |s| || !IsSpace(s[from]) then from else SkipSpace(s, from + 1)
  }

  /** The end of the run of non-space characters starting at `from`. */
  function RunEnd(s: string, from: nat): (r: nat)
    requires from <= |s|
    ensures from <= r <= |s| && (r < |s| ==> IsSpace(s[r]))
    ensures forall k :: from <= k < r ==> !IsSpace(s[k])
    decreases |s| - from
  {
    if from == |s| || IsSpace(s[from]) then from else RunEnd(s, from + 1)
  }

  /** The first position at or after `from` that holds `c`, or `|s|`. */
  function CharEnd(s: string, c: char, from: nat): (r: nat)
    requires from <= |s|
    ensures from <= r <= |s| && (r < |s| ==> s[r] == c)
    ensures forall k :: from <= k < r ==> s[k] != c
    decreases |s| - from
  {
    if from == |s| || s[from] == c then from else CharEnd(s, c, from + 1)
  }

  /** A quote that opens a quoted alternative at `p`: the next character is
      not the same quote and a closing quote follows. */
  predicate OpensQuote(s: string, p: nat)
    requires p < |s|
  {
    (s[p] == '"' || s[p] == '\'') && p + 1 < |s| && s[p + 1] != s[p] && CharEnd(s, s[p], p + 1) < |s|
  }

  /** One `re.exec(n)` with `lastIndex == pos`: the captured group and the
      new `lastIndex`, or `None` when nothing matches. The earliest match
      starts at the first non-space character, and the quoted alternatives
      are tried before the run of non-space characters. */
  function Exec(s: string, pos: nat): (r: Option<(string, nat)>)
    requires pos <= |s|
    ensures r.Some? ==> pos < r.value.1 <= |s|
  {
    var p := SkipSpace(s, pos);
    if p == |s| then None
    else if OpensQuote(s, p) then
      var e := CharEnd(s, s[p], p + 1);
      Some((s[p + 1..e], e + 1))
    else
      var e := RunEnd(s, p);
      Some((s[p..e], e))
  }

  /** The trimmed captures of every match from `pos` on. */
  function RawTokens(s: string, pos: nat): seq<string>
    requires pos <= |s|
    decreases |s| - pos
  {
    match Exec(s, pos)
    case None => []
    case Some(m) => [Trim(m.0)] + RawTokens(s, m.1)
  }

  predicate NonEmpty(t: string)
  {
    t != ""
  }

  lemma {:induction false} RawTokensOccur(s: string, pos: nat)
    requires pos <= |s|
    ensures forall t :: t in RawTokens(s, pos) ==> Contains(s, t)
    decreases |s| - pos
  {
    var m := Exec(s, pos);
    if m.Some? {
      RawTokensOccur(s, m.value.1);
      var p := SkipSpace(s, pos);
      if OpensQuote(s, p) {
        TrimOfSliceOccurs(s, p + 1, CharEnd(s, s[p], p + 1));
      } else {
        TrimOfSliceOccurs(s, p, RunEnd(s, p));
      }
    }
  }

  /** `tokenize(q)`: nothing for a blank query; otherwise non-empty tokens,
      each a piece of the normalized query. */
  function Tokens(fold: string -> string, q: string): (r: seq<string>)
    ensures AllSpace(fold(q)) ==> r == []
    ensures forall t :: t in r ==> t != "" && Contains(Norm(fold, q), t)
  {
    var n := Norm(fold, q);
    if n == "" then []
    else
      RawTokensOccur(n, 0);
      Filter(RawTokens(n, 0), NonEmpty)
  }

  /** A phrase between single or double quotes, after white space only, is
      captured whole: the next token is the trimmed phrase, white space
      included. */
  lemma QuotedPhrase(s: string, pos: nat, p: nat, e: nat)
    requires pos <= p && p + 1 < e < |s|
    requires forall k :: pos <= k < p ==> IsSpace(s[k])
    requires s[p] == '"' || s[p] == '\''
    requires s[e] == s[p]
    requires forall k :: p < k < e ==> s[k] != s[p]
    ensures RawTokens(s, pos) == [Trim(s[p + 1..e])] + RawTokens(s, e + 1)
  {
    assert !IsSpace(s[p]);
    SkipSpaceTo(s, pos, p);
    CharEndAt(s, s[p], p + 1, e);
    hide SkipSpace, CharEnd, IsSpace, Trim;
    assert OpensQuote(s, p);
    assert Exec(s, pos) == Some((s[p + 1..e], e + 1));
    RawTokensAt(s, pos, s[p + 1..e], e + 1);
  }

  /** A match of `t` that ends at `next` yields `t` trimmed, then the rest. */
  lemma RawTokensAt(s: string, pos: nat, t: string, next: nat)
    requires pos <= |s| && Exec(s, pos) == Some((t, next))
    ensures next <= |s| && RawTokens(s, pos) == [Trim(t)] + RawTokens(s, next)
  {
    hide Exec, Trim;
  }

  /** Skipping white space from `pos` stops at the first other character. */
  lemma SkipSpaceTo(s: string, pos: nat, p: nat)
    requires pos <= p < |s| && !IsSpace(s[p])
    requires forall k :: pos <= k < p ==> IsSpace(s[k])
    ensures SkipSpace(s, pos) == p
  {
  }

  /** The search for `c` from `from` stops at its first occurrence. */
  lemma CharEndAt(s: string, c: char, from: nat, e: nat)
    requires from <= e < |s| && s[e] == c
    requires forall k :: from <= k < e ==> s[k] != c
    ensures CharEnd(s, c, from) == e
  {
  }

  /** One more match: its trimmed capture, then the rest. */
  lemma RawTokensStep(s: string, pos: nat)
    requires pos <= |s|
    ensures Exec(s, pos).None? ==> RawTokens(s, pos) == []
    ensures Exec(s, pos).Some? ==>
      RawTokens(s, pos) == [Trim(Exec(s, pos).value.0)] + RawTokens(s, Exec(s, pos).value.1)
  {
    hide Exec, Trim;
  }

  method Tokenize(fold: string -> string, q: string) returns (tokens: seq<string>)
    ensures tokens == Tokens(fold, q)
  {
    hide Exec, Trim, RawTokens, Filter;
    var n := Norm(fold, q);
    if n == "" {
      return [];
    }
    var raw: seq<string> := [];
    var pos := 0;
    var m := Exec(n, pos);
    while m.Some?
      invariant pos <= |n| && m == Exec(n, pos)
      invariant RawTokens(n, 0) == raw + RawTokens(n, pos)
      decreases |n| - pos
    {
      RawTokensStep(n, pos);
      raw := raw + [Trim(m.value.0)];
      pos := m.value.1;
      m := Exec(n, pos);
    }
    RawTokensStep(n, pos);
    assert raw + [] == raw;
    tokens := Filter(raw, NonEmpty);
  }

  // ---------------------------------------------------------------------
  // Scoring.

  /** What one token adds to the score of the normalized value `v`. */
  function TokenScore(v: string, tok: string, wStart: int, wIn: int): int
  {
    if tok == "" then 0
    else if StartsWith(v, tok) then wStart
    else if Contains(v, tok) then wIn
    else 0
  }

  function ScoreUpTo(v: string, tokens: seq<string>, n: nat, wStart: int, wIn: int): int
    requires n <= |tokens|
  {
    if n == 0 then 0 else ScoreUpTo(v, tokens, n - 1, wStart, wIn) + TokenScore(v, tokens[n - 1], wStart, wIn)
  }

  /** `scoreStartsIncludes(value, tokens, wStart, wIn)`. */
  function Score(fold: string -> string, value: string, tokens: seq<string>, wStart: int, wIn: int): int
  {
    ScoreUpTo(Norm(fold, value), tokens, |tokens|, wStart, wIn)
  }

  method ScoreStartsIncludes(fold: string -> string, value: string, tokens: seq<string>, wStart: int, wIn: int)
    returns (s: int)
    ensures s == Score(fold, value, tokens, wStart, wIn)
  {
    hide StartsWith, Contains, Norm;
    var v := Norm(fold, value);
    s := 0;
    for k := 0 to |tokens|
      invariant s == ScoreUpTo(v, tokens, k, wStart, wIn)
    {
      var tok := tokens[k];
      if tok == "" {
        continue;
      }
      if StartsWith(v, tok) {
        s := s + wStart;
      } else if Contains(v, tok) {
        s := s + wIn;
      }
    }
  }

  lemma {:induction false} ScoreUpToBounds(v: string, tokens: seq<string>, n: nat, wStart: int, wIn: int)
    requires n <= |tokens| && 0 <= wIn <= wStart
    ensures 0 <= ScoreUpTo(v, tokens, n, wStart, wIn) <= n * wStart
  {
    hide StartsWith, Contains;
    if n > 0 {
      ScoreUpToBounds(v, tokens, n - 1, wStart, wIn);
      assert 0 <= TokenScore(v, tokens[n - 1], wStart, wIn) <= wStart;
      assert (n - 1) * wStart + wStart == n * wStart;
    }
  }

  lemma {:induction false} ScoreUpToPositive(v: string, tokens: seq<string>, n: nat, wStart: int, wIn: int)
    requires n <= |tokens| && 0 < wIn <= wStart
    ensures ScoreUpTo(v, tokens, n, wStart, wIn) > 0
            <==> exists k :: 0 <= k < n && tokens[k] != "" && Contains(v, tokens[k])
  {
    if n > 0 {
      ScoreUpToPositive(v, tokens, n - 1, wStart, wIn);
      ScoreUpToBounds(v, tokens, n - 1, wStart, wIn);
      var t := tokens[n - 1];
      if t != "" && StartsWith(v, t) {
        StartsWithContains(v, t);
      }
      if t != "" && Contains(v, t) {
        assert 0 <= n - 1 < n && tokens[n - 1] != "" && Contains(v, tokens[n - 1]);
      }
    }
  }

  /** Each token adds at most `wStart`, and never less than nothing. */
  lemma ScoreBounds(fold: string -> string, value: string, tokens: seq<string>, wStart: int, wIn: int)
    requires 0 <= wIn <= wStart
    ensures 0 <= Score(fold, value, tokens, wStart, wIn) <= |tokens| * wStart
  {
    ScoreUpToBounds(Norm(fold, value), tokens, |tokens|, wStart, wIn);
  }

  /** With positive weights a value scores exactly when it contains one of
      the non-empty tokens. */
  lemma ScorePositive(fold: string -> string, value: string, tokens: seq<string>, wStart: int, wIn: int)
    requires 0 < wIn <= wStart
    ensures Score(fold, value, tokens, wStart, wIn) > 0
            <==> exists k :: 0 <= k < |tokens| && tokens[k] != "" && Contains(Norm(fold, value), tokens[k])
  {
    ScoreUpToPositive(Norm(fold, value), tokens, |tokens|, wStart, wIn);
  }

  /** The weighted sum over several values, `weights[i]` being the pair
      `(wStart, wIn)` of `values[i]`. */
  function WeightedScore(fold: string -> string, values: seq<string>, weights: seq<(int, int)>,
                         tokens: seq<string>, n: nat): int
    requires n <= |values| == |weights|
  {
    if n == 0 then 0
    else WeightedScore(fold, values, weights, tokens, n - 1)
         + Score(fold, values[n - 1], tokens, weights[n - 1].0, weights[n - 1].1)
  }

  predicate ValidWeights(weights: seq<(int, int)>)
  {
    forall i :: 0 <= i < |weights| ==> 0 < weights[i].1 <= weights[i].0
  }

  /** A value of `values` holds a non-empty token. */
  predicate SomeValueHolds(fold: string -> string, values: seq<string>, tokens: seq<string>, n: nat)
    requires n <= |values|
  {
    exists i, k :: 0 <= i < n && 0 <= k < |tokens| && tokens[k] != "" && Contains(Norm(fold, values[i]), tokens[k])
  }

  lemma {:induction false} WeightedScorePositive(fold: string -> string, values: seq<string>, weights: seq<(int, int)>,
                                                 tokens: seq<string>, n: nat)
    requires n <= |values| == |weights| && ValidWeights(weights)
    ensures WeightedScore(fold, values, weights, tokens, n) >= 0
    ensures WeightedScore(fold, values, weights, tokens, n) > 0 <==> SomeValueHolds(fold, values, tokens, n)
  {
    hide Score, Contains, Norm;
    if n > 0 {
      WeightedScorePositive(fold, values, weights, tokens, n - 1);
      var w := weights[n - 1];
      ScoreBounds(fold, values[n - 1], tokens, w.0, w.1);
      ScorePositive(fold, values[n - 1], tokens, w.0, w.1);
      if SomeValueHolds(fold, values, tokens, n) && !SomeValueHolds(fold, values, tokens, n - 1) {
        var i, k :| 0 <= i < n && 0 <= k < |tokens| && tokens[k] != "" && Contains(Norm(fold, values[i]), tokens[k]);
        assert i == n - 1;
      }
      if Score(fold, values[n - 1], tokens, w.0, w.1) > 0 {
        var k :| 0 <= k < |tokens| && tokens[k] != "" && Contains(Norm(fold, values[n - 1]), tokens[k]);
        assert 0 <= n - 1 < n;
      }
    }
  }

  // ---------------------------------------------------------------------
  // Ranking: score, keep the positive scores, order by descending score
  // and then by key, drop the scores.

  datatype Scored<T> = Scored(item: T, score: int)

  function ScoreAll<T>(xs: seq<T>, score: T -> int): (r: seq<Scored<T>>)
    ensures |r| == |xs|
    ensures forall i :: 0 <= i < |xs| ==> r[i] == Scored(xs[i], score(xs[i]))
  {
    seq(|xs|, i requires 0 <= i < |xs| => Scored(xs[i], score(xs[i])))
  }

  function Items<T>(xs: seq<Scored<T>>): (r: seq<T>)
    ensures |r| == |xs|
    ensures forall i :: 0 <= i < |xs| ==> r[i] == xs[i].item
  {
    seq(|xs|, i requires 0 <= i < |xs| => xs[i].item)
  }

  predicate Positive<T>(x: Scored<T>)
  {
    x.score > 0
  }

  /** The elements that score above zero under `score`. */
  function Scores<T>(score: T -> int): T -> bool
  {
    x => score(x) > 0
  }

  /** `b.score - a.score || cmp(key(a), key(b))`. */
  function ByRank<T>(key: T -> string, cmp: (string, string) -> int): (Scored<T>, Scored<T>) -> int
  {
    (a: Scored<T>, b: Scored<T>) => if b.score - a.score != 0 then b.score - a.score else cmp(key(a.item), key(b.item))
  }

  function Ranked<T(!new)>(xs: seq<T>, score: T -> int, key: T -> string, cmp: (string, string) -> int): seq<T>
  {
    Items(SortBy(Filter(ScoreAll(xs, score), Positive), ByRank(key, cmp)))
  }

  lemma {:induction false} ItemsInsert<T>(s: seq<Scored<T>>, y: Scored<T>, c: (Scored<T>, Scored<T>) -> int)
    ensures multiset(Items(InsertSorted(s, y, c))) == multiset(Items(s)) + multiset{y.item}
    decreases |s|
  {
    if s == [] {
    } else if c(s[|s| - 1], y) <= 0 {
      assert Items(s + [y]) == Items(s) + [y.item];
    } else {
      var init := s[..|s| - 1];
      ItemsInsert(init, y, c);
      var r := InsertSorted(init, y, c);
      assert Items(r + [s[|s| - 1]]) == Items(r) + [s[|s| - 1].item];
      assert Items(s) == Items(init) + [s[|s| - 1].item];
    }
  }

  /** Sorting scored elements reorders their items. */
  lemma {:induction false} ItemsSortBy<T>(xs: seq<Scored<T>>, c: (Scored<T>, Scored<T>) -> int)
    ensures multiset(Items(SortBy(xs, c))) == multiset(Items(xs))
  {
    hide InsertSorted;
    if xs != [] {
      var init := xs[..|xs| - 1];
      ItemsSortBy(init, c);
      ItemsInsert(SortBy(init, c), xs[|xs| - 1], c);
      assert SortBy(xs, c) == InsertSorted(SortBy(init, c), xs[|xs| - 1], c);
      assert Items(xs) == Items(init) + [xs[|xs| - 1].item];
    }
  }

  /** The items with a positive score are those the score accepts. */
  lemma {:induction false} ItemsOfPositive<T(!new)>(xs: seq<T>, score: T -> int)
    ensures Items(Filter(ScoreAll(xs, score), Positive)) == Filter(xs, Scores(score))
  {
    if xs != [] {
      var init := xs[..|xs| - 1];
      var all := ScoreAll(xs, score);
      var last := Scored(xs[|xs| - 1], score(xs[|xs| - 1]));
      ItemsOfPositive(init, score);
      ScoreAllLast(xs, score);
      var k := Filter(ScoreAll(init, score), Positive);
      hide Filter, ScoreAll;
      FilterLast(all, Positive);
      FilterLast(xs, Scores(score));
      if last.score > 0 {
        ItemsLast(k, last);
      } else {
        assert k + [] == k;
      }
    }
  }

  /** Scoring a list scores its prefix, then its last element. */
  lemma ScoreAllLast<T>(xs: seq<T>, score: T -> int)
    requires xs != []
    ensures var all := ScoreAll(xs, score);
      all[..|xs| - 1] == ScoreAll(xs[..|xs| - 1], score)
      && all[|xs| - 1] == Scored(xs[|xs| - 1], score(xs[|xs| - 1]))
  {
  }

  lemma ItemsLast<T>(k: seq<Scored<T>>, last: Scored<T>)
    ensures Items(k + [last]) == Items(k) + [last.item]
  {
  }

  /** The ranked list holds exactly the positively scored elements, with
      their multiplicities. */
  lemma RankedPermutation<T(!new)>(xs: seq<T>, score: T -> int, key: T -> string, cmp: (string, string) -> int)
    ensures multiset(Ranked(xs, score, key, cmp)) == multiset(Filter(xs, Scores(score)))
  {
    ItemsSortBy(Filter(ScoreAll(xs, score), Positive), ByRank(key, cmp));
    ItemsOfPositive(xs, score);
  }

  lemma RankedMembers<T(!new)>(xs: seq<T>, score: T -> int, key: T -> string, cmp: (string, string) -> int, x: T)
    ensures x in Ranked(xs, score, key, cmp) <==> x in xs && score(x) > 0
  {
    hide Ranked, Filter;
    RankedPermutation(xs, score, key, cmp);
    var kept := Filter(xs, Scores(score));
    assert x in Ranked(xs, score, key, cmp) <==> x in multiset(kept);
    assert x in kept <==> x in xs && Scores(score)(x);
  }

  /** Neighbours are in descending score, and equal scores are in key order. */
  lemma RankedOrder<T(!new)>(xs: seq<T>, score: T -> int, key: T -> string, cmp: (string, string) -> int)
    requires Asymmetric(cmp)
    ensures var r := Ranked(xs, score, key, cmp);
      forall i :: 0 < i < |r| ==>
        score(r[i - 1]) > score(r[i]) || (score(r[i - 1]) == score(r[i]) && cmp(key(r[i - 1]), key(r[i])) <= 0)
  {
    var all := ScoreAll(xs, score);
    var kept := Filter(all, Positive);
    var c := ByRank(key, cmp);
    var sorted := SortBy(kept, c);
    hide SortBy, Filter, ScoreAll;
    SortBySorted(kept, c);
    forall i | 0 <= i < |sorted| ensures sorted[i].score == score(sorted[i].item) {
      assert sorted[i] in multiset(kept);
      assert sorted[i] in all;
      var j :| 0 <= j < |all| && all[j] == sorted[i];
    }
    forall i | 0 < i < |sorted|
      ensures var a := sorted[i - 1].item; var b := sorted[i].item;
        score(a) > score(b) || (score(a) == score(b) && cmp(key(a), key(b)) <= 0)
    {
      assert c(sorted[i - 1], sorted[i]) <= 0;
    }
  }

  // ---------------------------------------------------------------------
  // Formats.

  function PipelineText(p: PipelineExample): string
  {
    p.pipeline + " — " + p.explanation
  }

  function ReferenceText(r: Reference): string
  {
    r.title + " " + r.url + " " + r.kind
  }

  /** `joinArr(arr)`: the entries separated by a bullet. */
  function JoinArr(xs: seq<string>): string
  {
    Join(xs, " • ")
  }

  /** The thirteen texts of a format that the search scores, in order. */
  function FormatTexts(f: FileFormat): (r: seq<string>)
    ensures |r| == |FormatWeights|
  {
    [ f.extension, f.name, f.description, JoinArr(f.area), JoinArr(f.areaIds), JoinArr(f.tools),
      f.encodingType, JoinArr(f.usedInRepositories), JoinArr(f.exampleFilenames), f.exampleFileContent,
      JoinArr(f.exampleFileExplanation),
      JoinArr(seq(|f.pipelineExamples|, i requires 0 <= i < |f.pipelineExamples| => PipelineText(f.pipelineExamples[i]))),
      JoinArr(seq(|f.references|, i requires 0 <= i < |f.references| => ReferenceText(f.references[i]))) ]
  }

  const FormatWeights: seq<(int, int)> :=
    [(140, 60), (120, 50), (40, 20), (80, 35), (80, 35), (60, 30), (25, 15), (35, 20), (30, 18), (20, 12),
     (22, 12), (40, 22), (18, 10)]

  /** The score of `f` for the query: every text, then 200 for an exact
      name and 160 for an exact extension. */
  function FormatScore(fold: string -> string, f: FileFormat, query: string, tokens: seq<string>): int
  {
    var qn := Norm(fold, query);
    WeightedScore(fold, FormatTexts(f), FormatWeights, tokens, |FormatWeights|)
    + (if Norm(fold, f.name) == qn then 200 else 0)
    + (if Norm(fold, f.extension) == qn then 160 else 0)
  }

  function FormatScoring(fold: string -> string, query: string, tokens: seq<string>): FileFormat -> int
  {
    f => FormatScore(fold, f, query, tokens)
  }

  /** A format is found when it is an exact name or extension match, or
      when one of its texts holds a token; its score is never negative. */
  lemma FormatScorePositive(fold: string -> string, f: FileFormat, query: string, tokens: seq<string>)
    ensures FormatScore(fold, f, query, tokens) >= 0
    ensures FormatScore(fold, f, query, tokens) > 0
            <==> || Norm(fold, f.name) == Norm(fold, query)
                 || Norm(fold, f.extension) == Norm(fold, query)
                 || SomeValueHolds(fold, FormatTexts(f), tokens, |FormatWeights|)
  {
    WeightedScorePositive(fold, FormatTexts(f), FormatWeights, tokens, |FormatWeights|);
  }

  /** An area entry selects the format when, normalized, it equals or
      contains the normalized selection. */
  predicate EntryMatches(fold: string -> string, a: string, sel: string)
  {
    Norm(fold, a) == sel || Contains(Norm(fold, a), sel)
  }

  predicate InArea(fold: string -> string, f: FileFormat, sel: string)
  {
    (exists a :: a in f.area && EntryMatches(fold, a, sel)) || (exists a :: a in f.areaIds && EntryMatches(fold, a, sel))
  }

  /** A selection is applied when it is present and not blank. */
  predicate AreaSelected(selected: Option<string>)
  {
    selected.Some? && Trim(selected.value) != ""
  }

  function InSelectedArea(fold: string -> string, sel: string): FileFormat -> bool
  {
    f => InArea(fold, f, sel)
  }

  function AreaFiltered(fold: string -> string, formats: seq<FileFormat>, selected: Option<string>): seq<FileFormat>
  {
    if AreaSelected(selected) then Filter(formats, InSelectedArea(fold, Norm(fold, selected.value))) else formats
  }

  function ByName(cmp: (string, string) -> int): (FileFormat, FileFormat) -> int
  {
    (a: FileFormat, b: FileFormat) => cmp(a.name, b.name)
  }

  function FormatName(f: FileFormat): string
  {
    f.name
  }

  /** `searchFormats(formats, query, selectedAreaName)`. */
  function SearchFormats(fold: string -> string, cmp: (string, string) -> int, formats: seq<FileFormat>,
                         query: string, selected: Option<string>): seq<FileFormat>
  {
    var filtered := AreaFiltered(fold, formats, selected);
    var tokens := Tokens(fold, query);
    if tokens == [] then SortBy(filtered, ByName(cmp))
    else Ranked(filtered, FormatScoring(fold, query, tokens), FormatName, cmp)
  }

  /** The equality test is subsumed by containment: the filter keeps a
      format exactly when one of its area names or ids contains the
      normalized selection; without a selection nothing is dropped. Either
      way the formats keep their order. */
  lemma AreaFilter(fold: string -> string, formats: seq<FileFormat>, selected: Option<string>, f: FileFormat)
    ensures IsSubsequence(AreaFiltered(fold, formats, selected), formats)
    ensures !AreaSelected(selected) ==> AreaFiltered(fold, formats, selected) == formats
    ensures AreaSelected(selected) ==>
      var sel := Norm(fold, selected.value);
      (f in AreaFiltered(fold, formats, selected)
       <==> f in formats && exists a :: a in f.area + f.areaIds && Contains(Norm(fold, a), sel))
  {
    hide Filter, Trim, IsSubsequence;
    if AreaSelected(selected) {
      var sel := Norm(fold, selected.value);
      FilterIsSubsequence(formats, InSelectedArea(fold, sel));
      forall a | Norm(fold, a) == sel ensures Contains(Norm(fold, a), sel) {
        assert OccursAt(Norm(fold, a), sel, 0);
      }
      if exists a :: a in f.area + f.areaIds && Contains(Norm(fold, a), sel) {
        var a :| a in f.area + f.areaIds && Contains(Norm(fold, a), sel);
        assert a in f.area || a in f.areaIds;
      }
    } else {
      SubsequenceRefl(formats);
    }
  }

  /** Without tokens the result is every filtered format, ordered by name. */
  lemma SearchFormatsUnranked(fold: string -> string, cmp: (string, string) -> int, formats: seq<FileFormat>,
                              query: string, selected: Option<string>)
    requires Tokens(fold, query) == []
    ensures var r := SearchFormats(fold, cmp, formats, query, selected);
      multiset(r) == multiset(AreaFiltered(fold, formats, selected))
      && (Asymmetric(cmp) ==> Sorted(r, ByName(cmp)))
  {
    var filtered := AreaFiltered(fold, formats, selected);
    hide AreaFiltered, Tokens, SortBy, Ranked;
    if Asymmetric(cmp) {
      forall a, b | a in filtered && b in filtered && ByName(cmp)(a, b) > 0 ensures ByName(cmp)(b, a) <= 0 {
        assert cmp(a.name, b.name) > 0;
      }
      SortBySorted(filtered, ByName(cmp));
    }
  }

  /** With tokens the result holds each filtered format that scores,
      as often as it occurs, by descending score and then by name. */
  lemma SearchFormatsRanked(fold: string -> string, cmp: (string, string) -> int, formats: seq<FileFormat>,
                            query: string, selected: Option<string>)
    requires Tokens(fold, query) != []
    ensures var r := SearchFormats(fold, cmp, formats, query, selected);
      var tokens := Tokens(fold, query);
      && multiset(r) == multiset(Filter(AreaFiltered(fold, formats, selected), Scores(FormatScoring(fold, query, tokens))))
      && (forall f :: f in r <==> f in AreaFiltered(fold, formats, selected) && FormatScore(fold, f, query, tokens) > 0)
      && (Asymmetric(cmp) ==>
            forall i :: 0 < i < |r| ==>
              || FormatScore(fold, r[i - 1], query, tokens) > FormatScore(fold, r[i], query, tokens)
              || (FormatScore(fold, r[i - 1], query, tokens) == FormatScore(fold, r[i], query, tokens)
                  && cmp(r[i - 1].name, r[i].name) <= 0))
  {
    var filtered := AreaFiltered(fold, formats, selected);
    var tokens := Tokens(fold, query);
    var score := FormatScoring(fold, query, tokens);
    hide Ranked, FormatScore, Tokens, AreaFiltered, Filter, SortBy;
    RankedPermutation(filtered, score, FormatName, cmp);
    forall f ensures f in Ranked(filtered, score, FormatName, cmp) <==> f in filtered && score(f) > 0 {
      RankedMembers(filtered, score, FormatName, cmp, f);
    }
    if Asymmetric(cmp) {
      RankedOrder(filtered, score, FormatName, cmp);
    }
  }

  /** A filtered format whose normalized name or extension is the
      normalized query is always in the result. */
  lemma ExactMatchFound(fold: string -> string, cmp: (string, string) -> int, formats: seq<FileFormat>,
                        query: string, selected: Option<string>, f: FileFormat)
    requires f in AreaFiltered(fold, formats, selected)
    requires Norm(fold, f.name) == Norm(fold, query) || Norm(fold, f.extension) == Norm(fold, query)
    ensures f in SearchFormats(fold, cmp, formats, query, selected)
  {
    var filtered := AreaFiltered(fold, formats, selected);
    var tokens := Tokens(fold, query);
    if tokens == [] {
      SearchFormatsUnranked(fold, cmp, formats, query, selected);
      assert f in multiset(filtered);
    } else {
      FormatScorePositive(fold, f, query, tokens);
      RankedMembers(filtered, FormatScoring(fold, query, tokens), FormatName, cmp, f);
    }
  }

  // ---------------------------------------------------------------------
  // The glossary.

  function TermTexts(t: GlossaryTerm): (r: seq<string>)
    ensures |r| == |TermWeights|
  {
    [t.term, JoinArr(t.aliases), t.definition]
  }

  const TermWeights: seq<(int, int)> := [(120, 40), (90, 35), (40, 20)]

  /** The score of a glossary entry: term, aliases, definition, then 180
      for an exact term. */
  function TermScore(fold: string -> string, t: GlossaryTerm, query: string, tokens: seq<string>): int
  {
    WeightedScore(fold, TermTexts(t), TermWeights, tokens, |TermWeights|)
    + (if Norm(fold, t.term) == Norm(fold, query) then 180 else 0)
  }

  function TermScoring(fold: string -> string, query: string, tokens: seq<string>): GlossaryTerm -> int
  {
    t => TermScore(fold, t, query, tokens)
  }

  function TermKey(t: GlossaryTerm): string
  {
    t.term
  }

  /** `searchGlossary(terms, query)`. */
  function SearchGlossary(fold: string -> string, cmp: (string, string) -> int, terms: seq<GlossaryTerm>,
                          query: string): seq<GlossaryTerm>
  {
    var tokens := Tokens(fold, query);
    if tokens == [] then terms else Ranked(terms, TermScoring(fold, query, tokens), TermKey, cmp)
  }

  lemma TermScorePositive(fold: string -> string, t: GlossaryTerm, query: string, tokens: seq<string>)
    ensures TermScore(fold, t, query, tokens) >= 0
    ensures TermScore(fold, t, query, tokens) > 0
            <==> Norm(fold, t.term) == Norm(fold, query) || SomeValueHolds(fold, TermTexts(t), tokens, |TermWeights|)
  {
    WeightedScorePositive(fold, TermTexts(t), TermWeights, tokens, |TermWeights|);
  }

  /** A blank query leaves the glossary as it is; otherwise the result holds
      the entries that score, by descending score and then by term, and an
      exact term is always among them. */
  lemma SearchGlossaryResult(fold: string -> string, cmp: (string, string) -> int, terms: seq<GlossaryTerm>, query: string)
    ensures AllSpace(fold(query)) ==> SearchGlossary(fold, cmp, terms, query) == terms
    ensures var r := SearchGlossary(fold, cmp, terms, query);
      var tokens := Tokens(fold, query);
      tokens != [] ==>
        && multiset(r) == multiset(Filter(terms, Scores(TermScoring(fold, query, tokens))))
        && (forall t :: t in terms && Norm(fold, t.term) == Norm(fold, query) ==> t in r)
        && (Asymmetric(cmp) ==>
              forall i :: 0 < i < |r| ==>
                || TermScore(fold, r[i - 1], query, tokens) > TermScore(fold, r[i], query, tokens)
                || (TermScore(fold, r[i - 1], query, tokens) == TermScore(fold, r[i], query, tokens)
                    && cmp(r[i - 1].term, r[i].term) <= 0))
  {
    var tokens := Tokens(fold, query);
    if tokens != [] {
      assert SearchGlossary(fold, cmp, terms, query) == Ranked(terms, TermScoring(fold, query, tokens), TermKey, cmp);
      hide SearchGlossary, Tokens;
      RankedTerms(fold, cmp, terms, query, tokens);
    }
  }

  /** The ranked glossary for the tokens of a non-blank query. */
  lemma RankedTerms(fold: string -> string, cmp: (string, string) -> int, terms: seq<GlossaryTerm>, query: string,
                    tokens: seq<string>)
    ensures var r := Ranked(terms, TermScoring(fold, query, tokens), TermKey, cmp);
      && multiset(r) == multiset(Filter(terms, Scores(TermScoring(fold, query, tokens))))
      && (forall t :: t in terms && Norm(fold, t.term) == Norm(fold, query) ==> t in r)
      && (Asymmetric(cmp) ==>
            forall i :: 0 < i < |r| ==>
              || TermScore(fold, r[i - 1], query, tokens) > TermScore(fold, r[i], query, tokens)
              || (TermScore(fold, r[i - 1], query, tokens) == TermScore(fold, r[i], query, tokens)
                  && cmp(r[i - 1].term, r[i].term) <= 0))
  {
    var score := TermScoring(fold, query, tokens);
    hide Ranked, Norm, TermScore;
    RankedPermutation(terms, score, TermKey, cmp);
    forall t | t in terms && Norm(fold, t.term) == Norm(fold, query)
      ensures t in Ranked(terms, score, TermKey, cmp)
    {
      TermScorePositive(fold, t, query, tokens);
      RankedMembers(terms, score, TermKey, cmp, t);
    }
    if Asymmetric(cmp) {
      RankedOrder(terms, score, TermKey, cmp);
    }
  }

  // ---------------------------------------------------------------------
  // Area names.

  /** `getUniqueAreas(formats)`: the `Set` of area names, then sorted. */
  function UniqueAreasSorted(cmp: (string, string) -> int, formats: seq<FileFormat>): seq<string>
  {
    SortBy(FirstSeen(AreaList(formats)), cmp)
  }

  /** Each area name of some format appears once, and in order. */
  lemma UniqueAreasSortedSpec(cmp: (string, string) -> int, formats: seq<FileFormat>)
    ensures var r := UniqueAreasSorted(cmp, formats);
      && Distinct(r)
      && (forall a :: a in r <==> exists f :: f in formats && a in f.area)
      && (Asymmetric(cmp) ==> Sorted(r, cmp))
  {
    var seen := FirstSeen(AreaList(formats));
    var r := SortBy(seen, cmp);
    FirstSeenSpec(AreaList(formats));
    DistinctPermutation(seen, r);
    forall a ensures a in r <==> exists f :: f in formats && a in f.area {
      AreaListMembers(formats, a);
      assert a in r <==> a in multiset(seen);
    }
    if Asymmetric(cmp) {
      SortBySorted(seen, cmp);
    }
  }
}
