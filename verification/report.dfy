/** `generateReport(validationResults)` of the orchestrator: the lines of
    the Markdown report and the file it is saved to. */
module DataReport {
  import opened Wrappers
  import opened Text
  import opened Issues
  import opened FileHandler
  import opened DataValidation

  const ReportFile := "validation-report.md"

  /** The order of the per-dataset sections. */
  const Kinds: seq<Dataset> := [AreasData, FormatsData, GlossaryData]

  function Title(d: Dataset): string
  {
    match d
    case AreasData => "Áreas"
    case FormatsData => "Formatos"
    case GlossaryData => "Glossário"
  }

  function Status(valid: bool): string
  {
    if valid then "✅ VÁLIDO" else "❌ COM ERROS"
  }

  /** The sum of `result.errors.length` (or of the warnings) over the
      results present. */
  function Total(results: Results, warnings: bool): nat
  {
    Count(results.areas, warnings) + Count(results.formats, warnings) + Count(results.glossary, warnings)
  }

  function Count(r: Option<ValidationResult>, warnings: bool): nat
  {
    if r.None? then 0 else if warnings then |r.value.warnings| else |r.value.errors|
  }

  /** `- message`, one list item per message. */
  function Bullet(x: Issue): string
  {
    "- " + Render(x)
  }

  function Bullets(xs: seq<Issue>): (r: seq<string>)
    ensures |r| == |xs|
  {
    seq(|xs|, k requires 0 <= k < |xs| => Bullet(xs[k]))
  }

  /** The title, the summary and its totals. */
  function Head(v: Validation, now: string): seq<string>
  {
    ["# Relatório de Inconsistências - BioinFormats", "", "Gerado em: " + now, "",
     "## Resumo", "",
     "- **Status Geral**: " + Status(v.valid),
     "- **Total de Erros**: " + NatToString(Total(v.results, false)),
     "- **Total de Avisos**: " + NatToString(Total(v.results, true)),
     ""]
  }

  /** The lines every section starts with. */
  function SectionTop(d: Dataset, r: ValidationResult): seq<string>
    requires r.stats.Some?
  {
    ["## " + Title(d), "",
     "- **Status**: " + Status(r.valid),
     "- **Total de Registros**: " + NatToString(r.stats.value.total),
     "- **Erros**: " + NatToString(|r.errors|),
     "- **Avisos**: " + NatToString(|r.warnings|),
     ""]
  }

  /** A subsection listing `xs`, or nothing when `xs` is empty. */
  function Subsection(heading: string, xs: seq<Issue>): seq<string>
  {
    if |xs| > 0 then [heading, ""] + Bullets(xs) + [""] else []
  }

  /** The section of one dataset, with its error and warning subsections
      when they have items. */
  function SectionLines(d: Dataset, r: ValidationResult): seq<string>
    requires r.stats.Some?
  {
    SectionTop(d, r) + Subsection("### Erros", r.errors) + Subsection("### Avisos", r.warnings)
  }

  /** The sections of the first `k` datasets; reading `valid` of a missing
      result, or `total` of missing `stats`, throws. */
  function SectionsUpTo(v: Validation, k: nat): Outcome<seq<string>>
    requires k <= |Kinds|
  {
    if k == 0 then Ok([])
    else
      match SectionsUpTo(v, k - 1)
      case Throws(e) => Throws(e)
      case Ok(prev) =>
        var r := v.results.Of(Kinds[k - 1]);
        if r.None? then Throws(TypeError("Cannot read properties of undefined (reading 'valid')"))
        else if r.value.stats.None? then Throws(TypeError("Cannot read properties of undefined (reading 'total')"))
        else Ok(prev + SectionLines(Kinds[k - 1], r.value))
  }

  const ErrorAdvice: seq<string> := ["### Erros Críticos", "",
    "1. Corrija todos os campos obrigatórios faltantes",
    "2. Resolva duplicatas de IDs, nomes e extensões",
    "3. Verifique tipos de dados incorretos", ""]

  const WarningAdvice: seq<string> := ["### Melhorias Recomendadas", "",
    "1. Padronize IDs para formato kebab-case",
    "2. Valide URLs de referências",
    "3. Remova campos não esperados", ""]

  function Suggestions(errors: nat, warnings: nat): seq<string>
  {
    if errors > 0 || warnings > 0 then
      ["## Sugestões de Correção", ""]
      + (if errors > 0 then ErrorAdvice else [])
      + (if warnings > 0 then WarningAdvice else [])
    else []
  }

  /** The report's lines, or what `generateReport` throws. */
  function ReportLines(v: Validation, now: string): Outcome<seq<string>>
  {
    match SectionsUpTo(v, |Kinds|)
    case Throws(e) => Throws(e)
    case Ok(sections) =>
      Ok(Head(v, now) + sections + Suggestions(Total(v.results, false), Total(v.results, true)))
  }

  /** A result that is there and has `stats`. */
  predicate Full(r: Option<ValidationResult>)
  {
    r.Some? && r.value.stats.Some?
  }

  /** Every dataset has a result with `stats`. */
  predicate Complete(results: Results)
  {
    Full(results.areas) && Full(results.formats) && Full(results.glossary)
  }

  /** `generateReport`: on success the joined lines are written to the
      report file and its path returned. */
  function GenerateReportEffect(disk: Disk, v: Validation, now: string): (r: Effect<string>)
    ensures r.result.Throws? ==> r.disk == disk
  {
    match ReportLines(v, now)
    case Throws(e) => Effect(Throws(e), disk)
    case Ok(lines) => Effect(Ok(ReportFile), SaveIn(disk, ReportFile, Text(Join(lines, "\n"))))
  }

  // ---------------------------------------------------------------- properties

  lemma {:induction false} SectionsUpToOk(v: Validation, k: nat)
    requires k <= |Kinds|
    ensures SectionsUpTo(v, k).Ok? <==>
      forall m :: 0 <= m < k ==> v.results.Of(Kinds[m]).Some? && v.results.Of(Kinds[m]).value.stats.Some?
  {
    hide SectionLines;
    if k > 0 {
      SectionsUpToOk(v, k - 1);
    }
  }

  /** With every result present, the sections are those of areas, formats
      and glossary, in that order. */
  lemma SectionsInOrder(v: Validation)
    requires Complete(v.results)
    ensures SectionsUpTo(v, |Kinds|) == Ok(
      SectionLines(AreasData, v.results.areas.value)
      + SectionLines(FormatsData, v.results.formats.value)
      + SectionLines(GlossaryData, v.results.glossary.value))
  {
    hide SectionLines;
    var a := SectionLines(AreasData, v.results.areas.value);
    assert SectionsUpTo(v, 0) == Ok([]) && [] + a == a;
    assert SectionsUpTo(v, 1) == Ok(SectionLines(AreasData, v.results.areas.value));
    assert SectionsUpTo(v, 2) == Ok(SectionLines(AreasData, v.results.areas.value)
      + SectionLines(FormatsData, v.results.formats.value));
  }

  /** The report is built exactly when every dataset has a result with
      `stats`: a run whose validation threw, or whose validator got a
      non-array, makes the report step throw. */
  lemma ReportOkIff(v: Validation, now: string)
    ensures ReportLines(v, now).Ok? <==> Complete(v.results)
  {
    hide SectionLines, Head, Suggestions;
    SectionsUpToOk(v, |Kinds|);
    assert Kinds[0] == AreasData && Kinds[1] == FormatsData && Kinds[2] == GlossaryData;
  }

  /** A valid validation always yields a report. */
  lemma ValidReports(files: map<string, Contents>, urlOk: string -> bool, now: string)
    requires ValidateAll(files, urlOk).valid
    ensures ReportLines(ValidateAll(files, urlOk), now).Ok?
  {
    ValidHasStats(files, urlOk, AreasData);
    ValidHasStats(files, urlOk, FormatsData);
    ValidHasStats(files, urlOk, GlossaryData);
    ReportOkIff(ValidateAll(files, urlOk), now);
  }

  /** The summary states the overall verdict and the sums of the three
      datasets' error and warning counts. */
  lemma ReportSummary(v: Validation, now: string)
    requires Complete(v.results)
    ensures ReportLines(v, now).Ok?
    ensures var lines := ReportLines(v, now).value;
      var a, f, g := v.results.areas.value, v.results.formats.value, v.results.glossary.value;
      && lines[6] == "- **Status Geral**: " + Status(v.valid)
      && lines[7] == "- **Total de Erros**: " + NatToString(|a.errors| + |f.errors| + |g.errors|)
      && lines[8] == "- **Total de Avisos**: " + NatToString(|a.warnings| + |f.warnings| + |g.warnings|)
  {
    hide SectionLines, Suggestions, NatToString, Status;
    ReportOkIff(v, now);
  }

  /** The three sections follow the summary in the order areas, formats,
      glossary. */
  lemma ReportOrder(v: Validation, now: string)
    requires Complete(v.results)
    ensures ReportLines(v, now).Ok?
    ensures var lines := ReportLines(v, now).value;
      exists i, j, k :: 0 <= i < j < k < |lines|
        && lines[i] == "## Áreas" && lines[j] == "## Formatos" && lines[k] == "## Glossário"
  {
    hide Head, Suggestions, SectionLines, Total;
    ReportOkIff(v, now);
    SectionsInOrder(v);
    var a := SectionLines(AreasData, v.results.areas.value);
    var f := SectionLines(FormatsData, v.results.formats.value);
    var g := SectionLines(GlossaryData, v.results.glossary.value);
    var lines := Head(v, now) + (a + f + g) + Suggestions(Total(v.results, false), Total(v.results, true));
    assert ReportLines(v, now).value == lines;
    SectionStartsWithTitle(AreasData, v.results.areas.value);
    SectionStartsWithTitle(FormatsData, v.results.formats.value);
    SectionStartsWithTitle(GlossaryData, v.results.glossary.value);
    hide ReportLines;
    ThreeInOrder(Head(v, now), a, f, g, Suggestions(Total(v.results, false), Total(v.results, true)));
  }

  /** The first lines of three consecutive non-empty blocks come in order. */
  lemma ThreeInOrder(h: seq<string>, a: seq<string>, f: seq<string>, g: seq<string>, t: seq<string>)
    requires |a| > 0 && |f| > 0 && |g| > 0
    ensures var lines := h + (a + f + g) + t;
      && lines[|h|] == a[0] && lines[|h| + |a|] == f[0] && lines[|h| + |a| + |f|] == g[0]
  {
  }

  /** A section opens with its dataset's heading. */
  lemma SectionStartsWithTitle(d: Dataset, r: ValidationResult)
    requires r.stats.Some?
    ensures |SectionLines(d, r)| > 0 && SectionLines(d, r)[0] == "## " + Title(d)
  {
  }

  /** A section has an error subsection exactly when its dataset has
      errors, and a warning subsection exactly when it has warnings; each
      error and each warning is listed in it. */
  lemma SectionSubsections(d: Dataset, r: ValidationResult)
    requires r.stats.Some?
    ensures "### Erros" in SectionLines(d, r) <==> |r.errors| > 0
    ensures "### Avisos" in SectionLines(d, r) <==> |r.warnings| > 0
  {
    hide Render, SectionTop;
    TopHasNoSubsection(d, r);
    BulletsAreItems(r.errors);
    BulletsAreItems(r.warnings);
    if |r.errors| > 0 {
      assert Subsection("### Erros", r.errors)[0] == "### Erros";
    }
    if |r.warnings| > 0 {
      assert Subsection("### Avisos", r.warnings)[0] == "### Avisos";
    }
  }

  lemma TopHasNoSubsection(d: Dataset, r: ValidationResult)
    requires r.stats.Some?
    ensures "### Erros" !in SectionTop(d, r) && "### Avisos" !in SectionTop(d, r)
  {
    hide NatToString, Status;
    var top := SectionTop(d, r);
    forall k | 2 <= k < 6 ensures top[k][0] == '-' {
    }
  }

  /** Every bullet starts with a dash. */
  lemma BulletsAreItems(xs: seq<Issue>)
    ensures forall l | l in Bullets(xs) :: |l| > 0 && l[0] == '-'
  {
    hide Render;
  }

  /** The three headings of the suggestions section. */
  predicate AdviceHeading(l: string)
  {
    l == "## Sugestões de Correção" || l == "### Erros Críticos" || l == "### Melhorias Recomendadas"
  }

  lemma HeadHasNoAdvice(v: Validation, now: string)
    ensures forall l :: l in Head(v, now) ==> !AdviceHeading(l)
  {
    hide NatToString, Status;
    var head := Head(v, now);
    assert head[2][0] == 'G' && head[6][0] == '-' && head[7][0] == '-' && head[8][0] == '-';
  }

  lemma TopHasNoAdvice(d: Dataset, r: ValidationResult)
    requires r.stats.Some?
    ensures forall l :: l in SectionTop(d, r) ==> !AdviceHeading(l)
  {
    hide NatToString, Status;
    var top := SectionTop(d, r);
    forall k | 2 <= k < 6 ensures top[k][0] == '-' {
    }
  }

  lemma SubsectionHasNoAdvice(heading: string, xs: seq<Issue>)
    requires !AdviceHeading(heading)
    ensures forall l :: l in Subsection(heading, xs) ==> !AdviceHeading(l)
  {
    BulletsAreItems(xs);
    hide Bullets;
    forall l | l in Subsection(heading, xs) ensures !AdviceHeading(l) {
      if l in Bullets(xs) {
        assert l[0] == '-';
      }
    }
  }

  lemma SectionHasNoAdvice(d: Dataset, r: ValidationResult)
    requires r.stats.Some?
    ensures forall l :: l in SectionLines(d, r) ==> !AdviceHeading(l)
  {
    hide SectionTop, Subsection;
    TopHasNoAdvice(d, r);
    SubsectionHasNoAdvice("### Erros", r.errors);
    SubsectionHasNoAdvice("### Avisos", r.warnings);
  }

  /** The suggestions section appears exactly when there is an error or a
      warning in total, its error advice exactly when there is an error,
      and its warning advice exactly when there is a warning. */
  lemma ReportSuggestions(v: Validation, now: string)
    requires Complete(v.results)
    ensures ReportLines(v, now).Ok?
    ensures var lines := ReportLines(v, now).value;
      var errors, warnings := Total(v.results, false), Total(v.results, true);
      && ("## Sugestões de Correção" in lines <==> errors > 0 || warnings > 0)
      && ("### Erros Críticos" in lines <==> errors > 0)
      && ("### Melhorias Recomendadas" in lines <==> warnings > 0)
  {
    hide SectionLines, Head;
    ReportOkIff(v, now);
    SectionsInOrder(v);
    HeadHasNoAdvice(v, now);
    SectionHasNoAdvice(AreasData, v.results.areas.value);
    SectionHasNoAdvice(FormatsData, v.results.formats.value);
    SectionHasNoAdvice(GlossaryData, v.results.glossary.value);
    assert ErrorAdvice[0] == "### Erros Críticos" && WarningAdvice[0] == "### Melhorias Recomendadas";
  }

  /** Every error and every warning of every dataset is listed as an item
      of the report. */
  lemma ReportListsIssues(v: Validation, now: string, d: Dataset, x: Issue)
    requires Complete(v.results)
    ensures ReportLines(v, now).Ok?
    ensures x in v.results.Of(d).value.errors ==> Bullet(x) in ReportLines(v, now).value
    ensures x in v.results.Of(d).value.warnings ==> Bullet(x) in ReportLines(v, now).value
  {
    hide Head, Suggestions, SectionLines, Total, Bullet;
    ReportOkIff(v, now);
    SectionsInOrder(v);
    var a := SectionLines(AreasData, v.results.areas.value);
    var f := SectionLines(FormatsData, v.results.formats.value);
    var g := SectionLines(GlossaryData, v.results.glossary.value);
    var t := Suggestions(Total(v.results, false), Total(v.results, true));
    assert ReportLines(v, now).value == Head(v, now) + (a + f + g) + t;
    var r := v.results.Of(d).value;
    SectionListsIssues(d, r, x);
    hide ReportLines;
    if x in r.errors || x in r.warnings {
      InSomeBlock(Head(v, now), a, f, g, t, Bullet(x));
    }
  }

  lemma InSomeBlock(h: seq<string>, a: seq<string>, f: seq<string>, g: seq<string>, t: seq<string>, l: string)
    requires l in a || l in f || l in g
    ensures l in h + (a + f + g) + t
  {
  }

  /** The section of a dataset lists each of its errors and warnings. */
  lemma SectionListsIssues(d: Dataset, r: ValidationResult, x: Issue)
    requires r.stats.Some?
    ensures x in r.errors ==> Bullet(x) in SectionLines(d, r)
    ensures x in r.warnings ==> Bullet(x) in SectionLines(d, r)
  {
    hide SectionTop, Bullet;
    if x in r.errors {
      var k :| 0 <= k < |r.errors| && r.errors[k] == x;
      assert Bullets(r.errors)[k] == Bullet(x);
    }
    if x in r.warnings {
      var k :| 0 <= k < |r.warnings| && r.warnings[k] == x;
      assert Bullets(r.warnings)[k] == Bullet(x);
    }
  }

  /** Once a section throws, the report throws with that error. */
  lemma {:induction false} SectionsSettle(v: Validation, m: nat, n: nat)
    requires m <= n <= |Kinds| && SectionsUpTo(v, m).Throws?
    ensures SectionsUpTo(v, n) == SectionsUpTo(v, m)
    decreases n
  {
    hide SectionLines;
    if n > m {
      SectionsSettle(v, m, n - 1);
    }
  }

  // ---------------------------------------------------------------- the code

  /** The `forEach` over a result's messages. */
  method AppendBullets(lines: seq<string>, xs: seq<Issue>) returns (r: seq<string>)
    ensures r == lines + Bullets(xs)
  {
    hide Bullet;
    r := lines;
    var j := 0;
    while j < |xs|
      invariant 0 <= j <= |xs|
      invariant r == lines + Bullets(xs)[..j]
    {
      assert Bullets(xs)[..j + 1] == Bullets(xs)[..j] + [Bullet(xs[j])];
      r := r + [Bullet(xs[j])];
      j := j + 1;
    }
    assert Bullets(xs)[..|xs|] == Bullets(xs);
  }

  /** The lines pushed for one non-empty list of messages. */
  method BuildSubsection(heading: string, xs: seq<Issue>) returns (lines: seq<string>)
    ensures lines == Subsection(heading, xs)
  {
    lines := [];
    if |xs| > 0 {
      lines := AppendBullets([heading, ""], xs);
      lines := lines + [""];
    }
  }

  /** The lines pushed for one dataset. */
  method BuildSection(d: Dataset, r: ValidationResult) returns (section: seq<string>)
    requires r.stats.Some?
    ensures section == SectionLines(d, r)
  {
    hide SectionTop, Subsection;
    section := SectionTop(d, r);
    var errors := BuildSubsection("### Erros", r.errors);
    var warnings := BuildSubsection("### Avisos", r.warnings);
    section := section + errors + warnings;
  }

  method GenerateReport(store: FileStore, v: Validation, now: string) returns (r: Outcome<string>)
    modifies store
    ensures Effect(r, store.State()) == GenerateReportEffect(old(store.State()), v, now)
  {
    hide Head, SectionLines, Suggestions;
    var lines := Head(v, now);
    var k := 0;
    while k < |Kinds|
      invariant 0 <= k <= |Kinds|
      invariant SectionsUpTo(v, k).Ok? && lines == Head(v, now) + SectionsUpTo(v, k).value
      invariant store.State() == old(store.State())
    {
      var result := v.results.Of(Kinds[k]);
      if result.None? {
        assert SectionsUpTo(v, k + 1) == Throws(TypeError("Cannot read properties of undefined (reading 'valid')"));
        SectionsSettle(v, k + 1, |Kinds|);
        assert ReportLines(v, now) == Throws(TypeError("Cannot read properties of undefined (reading 'valid')"));
        return Throws(TypeError("Cannot read properties of undefined (reading 'valid')"));
      }
      if result.value.stats.None? {
        assert SectionsUpTo(v, k + 1) == Throws(TypeError("Cannot read properties of undefined (reading 'total')"));
        SectionsSettle(v, k + 1, |Kinds|);
        assert ReportLines(v, now) == Throws(TypeError("Cannot read properties of undefined (reading 'total')"));
        return Throws(TypeError("Cannot read properties of undefined (reading 'total')"));
      }
      var section := BuildSection(Kinds[k], result.value);
      lines := lines + section;
      k := k + 1;
    }
    lines := lines + Suggestions(Total(v.results, false), Total(v.results, true));
    store.Save(ReportFile, Text(Join(lines, "\n")));
    r := Ok(ReportFile);
  }
}
