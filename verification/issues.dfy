/** What the three validators report. Each message the source builds as a
    string is a value of `Issue`; `Render` gives its exact text. A
    `ValidationResult` is the object the validators return. */
module Issues {
  import opened Wrappers
  import opened Text
  import opened JsonValues

  datatype Dataset = AreasData | FormatsData | GlossaryData

  /** The prefix word of a per-record message: `Área 3`, `Formato 3`, `Termo 3`. */
  function Label(d: Dataset): string
  {
    match d
    case AreasData => "Área"
    case FormatsData => "Formato"
    case GlossaryData => "Termo"
  }

  datatype Issue =
    | NotAnArray(dataset: Dataset)
    | MissingField(dataset: Dataset, index: nat, field: string)
    | NotString(dataset: Dataset, index: nat, field: string)
    | NotArrayField(dataset: Dataset, index: nat, field: string)
    | NotArrayWhenPresent(dataset: Dataset, index: nat, field: string)
    | NotStringWhenPresent(dataset: Dataset, index: nat, field: string)
    | DuplicateExtension(dataset: Dataset, index: nat, value: Json)
    | DuplicateValue(dataset: Dataset, index: nat, noun: string, value: Json)
    | LeadingDot(dataset: Dataset, index: nat, value: Json)
    | NotKebab(dataset: Dataset, index: nat, noun: string, value: Json)
    | AreaEntryNotString(dataset: Dataset, index: nat, item: nat)
    | UnknownArea(dataset: Dataset, index: nat, value: Json)
    | PipelineNotObject(dataset: Dataset, index: nat, item: nat)
    | PipelineMissing(dataset: Dataset, index: nat, item: nat, field: string)
    | ReferenceNotObject(dataset: Dataset, index: nat, item: nat)
    | ReferenceMissing(dataset: Dataset, index: nat, item: nat, field: string)
    | ReferenceBadUrl(dataset: Dataset, index: nat, item: nat, value: Json)
    | ReferenceBadType(dataset: Dataset, index: nat, item: nat, value: Json)
    | UnexpectedField(dataset: Dataset, index: nat, field: string)

  /** The issue concerns record `i` of dataset `d`. */
  predicate About(x: Issue, d: Dataset, i: nat)
  {
    !x.NotAnArray? && x.dataset == d && x.index == i
  }

  /** The issue is about the element at position `item` of a nested list. */
  predicate ItemIssue(x: Issue)
  {
    x.AreaEntryNotString? || x.PipelineNotObject? || x.PipelineMissing? || x.ReferenceNotObject?
    || x.ReferenceMissing? || x.ReferenceBadUrl? || x.ReferenceBadType?
  }

  function Quoted(v: Json): string
  {
    "'" + ToJsString(v) + "'"
  }

  /** The message text exactly as the source writes it. */
  function Render(x: Issue): string
  {
    if x.NotAnArray? then
      match x.dataset
      case AreasData => "Areas deve ser um array"
      case FormatsData => "Formats deve ser um array"
      case GlossaryData => "Glossary deve ser um array"
    else
      var p := Label(x.dataset) + " " + NatToString(x.index) + ": ";
      var item := if ItemIssue(x) then NatToString(x.item) else "";
      match x
      case MissingField(_, _, f) => p + "campo '" + f + "' é obrigatório"
      case NotString(_, _, f) => p + "'" + f + "' deve ser string"
      case NotArrayField(_, _, f) => p + "'" + f + "' deve ser array"
      case NotArrayWhenPresent(_, _, f) => p + "'" + f + "' deve ser array quando presente"
      case NotStringWhenPresent(_, _, f) => p + "'" + f + "' deve ser string quando presente"
      case DuplicateExtension(_, _, v) => p + "extensão " + Quoted(v) + " é duplicada"
      case DuplicateValue(_, _, noun, v) => p + noun + " " + Quoted(v) + " é duplicado"
      case LeadingDot(_, _, v) => p + "extensão " + Quoted(v) + " não deve começar com ponto"
      case NotKebab(_, _, noun, v) => p + noun + " " + Quoted(v) + " não segue o padrão kebab-case"
      case AreaEntryNotString(d, _, _) =>
        if d == FormatsData then p + "área " + item + " deve ser string"
        else p + "area_ids[" + item + "] deve ser string"
      case UnknownArea(d, _, v) =>
        if d == FormatsData then p + "área " + Quoted(v) + " não encontrada nas áreas válidas"
        else p + "area_id " + Quoted(v) + " não encontrado nas áreas válidas"
      case PipelineNotObject(_, _, _) => p + "pipeline_examples[" + item + "] deve ser objeto"
      case PipelineMissing(_, _, _, f) => p + "pipeline_examples[" + item + "] deve ter campo '" + f + "'"
      case ReferenceNotObject(_, _, _) => p + "references[" + item + "] deve ser objeto"
      case ReferenceMissing(_, _, _, f) => p + "references[" + item + "] deve ter campo '" + f + "'"
      case ReferenceBadUrl(_, _, _, v) => p + "references[" + item + "] URL " + Quoted(v) + " parece inválida"
      case ReferenceBadType(_, _, _, v) =>
        p + "references[" + item + "] tipo " + Quoted(v) + " deve ser um de: documentation, paper, tool, standard"
      case UnexpectedField(_, _, k) => p + "campo '" + k + "' não é esperado na interface"
  }

  /** The errors and warnings one check pushes, each list in push order. */
  datatype Findings = Findings(errors: seq<Issue>, warnings: seq<Issue>)
  {
    function Add(other: Findings): Findings
    {
      Findings(errors + other.errors, warnings + other.warnings)
    }
  }

  const NoFindings := Findings([], [])

  function Error(x: Issue): Findings { Findings([x], []) }

  function Warning(x: Issue): Findings { Findings([], [x]) }

  /** Every issue in `f` concerns record `i` of dataset `d`. */
  predicate AllAbout(f: Findings, d: Dataset, i: nat)
  {
    && (forall x :: x in f.errors ==> About(x, d, i))
    && (forall x :: x in f.warnings ==> About(x, d, i))
  }

  /** The kinds of issue the validators push as warnings; all others are
      errors. */
  predicate WarningKind(x: Issue)
  {
    x.LeadingDot? || x.NotKebab? || x.UnknownArea? || x.ReferenceBadUrl? || x.UnexpectedField?
  }

  /** All of `f` concerns record `i` of `d`, and each list holds only its
      own kinds of issue. */
  predicate WellKept(f: Findings, d: Dataset, i: nat)
  {
    && AllAbout(f, d, i)
    && (forall x :: x in f.warnings ==> WarningKind(x))
    && (forall x :: x in f.errors ==> !WarningKind(x))
  }

  lemma WellKeptAdd(a: Findings, b: Findings, d: Dataset, i: nat)
    requires WellKept(a, d, i) && WellKept(b, d, i)
    ensures WellKept(a.Add(b), d, i)
  {
  }

  /** The `stats` object of each validator. */
  datatype Stats =
    | AreaStats(total: nat, duplicateIds: nat, duplicateNames: nat)
    | FormatStats(total: nat, duplicateExtensions: nat)
    | GlossaryStats(total: nat, duplicateIds: nat, duplicateTerms: nat, duplicateSlugs: nat)

  /** `{ valid, errors, warnings, stats }`; the early result for a non-array
      input has no `stats` (`None`). */
  datatype ValidationResult = ValidationResult(
    valid: bool, errors: seq<Issue>, warnings: seq<Issue>, stats: Option<Stats>)

  /** The early return for an input that is not an array. */
  function NotArrayResult(d: Dataset): ValidationResult
  {
    ValidationResult(false, [NotAnArray(d)], [], None)
  }

  /** The final return: `valid` is `errors.length === 0`. */
  function Finish(f: Findings, stats: Stats): ValidationResult
  {
    ValidationResult(|f.errors| == 0, f.errors, f.warnings, Some(stats))
  }
}
