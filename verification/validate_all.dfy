/** `validateAllData()` of the orchestrator: load the three data files,
    run the three validators, and combine their verdicts. */
module DataValidation {
  import opened Wrappers
  import opened JsonValues
  import opened Issues
  import opened FileHandler
  import AreaValidator
  import FormatValidator
  import GlossaryValidator

  const AreasFile := "src/data/areas.json"
  const FormatsFile := "src/data/formats.json"
  const GlossaryFile := "src/data/glossary.json"

  /** The file each dataset is kept in. */
  function PathOf(d: Dataset): (r: string)
    ensures r in {AreasFile, FormatsFile, GlossaryFile}
  {
    match d
    case AreasData => AreasFile
    case FormatsData => FormatsFile
    case GlossaryData => GlossaryFile
  }

  /** The `validationResults` object: a key is set once its validator has
      returned. */
  datatype Results = Results(areas: Option<ValidationResult>, formats: Option<ValidationResult>,
                             glossary: Option<ValidationResult>)
  {
    function Of(d: Dataset): Option<ValidationResult>
    {
      match d
      case AreasData => areas
      case FormatsData => formats
      case GlossaryData => glossary
    }
  }

  const NoResults := Results(None, None, None)

  /** `{ valid: allValid, results: validationResults }`. */
  datatype Validation = Validation(valid: bool, results: Results)

  /** What `validateAllData()` returns on the files of `files`. The format
      and glossary validators get the loaded areas array as their valid
      areas. An exception while loading or validating is caught and only
      clears `valid`. */
  function ValidateAll(files: map<string, Contents>, urlOk: string -> bool): (r: Validation)
    ensures r.valid ==> && r.results.areas.Some? && r.results.areas.value.valid
                        && r.results.formats.Some? && r.results.formats.value.valid
                        && r.results.glossary.Some? && r.results.glossary.value.valid
  {
    var areas := LoadJson(files, AreasFile);
    var formats := LoadJson(files, FormatsFile);
    var glossary := LoadJson(files, GlossaryFile);
    if areas.Throws? || formats.Throws? || glossary.Throws? then Validation(false, NoResults)
    else
      match AreaValidator.ValidateAreasSpec(areas.value)
      case Throws(_) => Validation(false, NoResults)
      case Ok(ra) =>
        match FormatValidator.ValidateFormatsSpec(formats.value, areas.value, urlOk)
        case Throws(_) => Validation(false, Results(Some(ra), None, None))
        case Ok(rf) =>
          match GlossaryValidator.ValidateGlossarySpec(glossary.value, areas.value, urlOk)
          case Throws(_) => Validation(false, Results(Some(ra), Some(rf), None))
          case Ok(rg) => Validation(ra.valid && rf.valid && rg.valid, Results(Some(ra), Some(rf), Some(rg)))
  }

  /** The aggregate verdict is the conjunction of the three validators'
      verdicts on the loaded files, each validator returning normally. */
  lemma ValidateAllValidIff(files: map<string, Contents>, urlOk: string -> bool)
    ensures ValidateAll(files, urlOk).valid <==>
      && LoadJson(files, AreasFile).Ok? && LoadJson(files, FormatsFile).Ok? && LoadJson(files, GlossaryFile).Ok?
      && var areas := LoadJson(files, AreasFile).value;
         var ra := AreaValidator.ValidateAreasSpec(areas);
         var rf := FormatValidator.ValidateFormatsSpec(LoadJson(files, FormatsFile).value, areas, urlOk);
         var rg := GlossaryValidator.ValidateGlossarySpec(LoadJson(files, GlossaryFile).value, areas, urlOk);
         ra.Ok? && rf.Ok? && rg.Ok? && ra.value.valid && rf.value.valid && rg.value.valid
  {
  }

  /** Each result kept is the validator's result on its loaded file, with
      the loaded areas as valid areas; a result is kept only if those before
      it were. */
  lemma ValidateAllResults(files: map<string, Contents>, urlOk: string -> bool)
    ensures var r := ValidateAll(files, urlOk).results;
      && (r.formats.Some? ==> r.areas.Some?)
      && (r.glossary.Some? ==> r.formats.Some?)
      && (r.areas.Some? ==> r.areas == Some(AreaValidator.ValidateAreasSpec(LoadJson(files, AreasFile).value).value))
      && (r.formats.Some? ==> r.formats == Some(FormatValidator.ValidateFormatsSpec(
            LoadJson(files, FormatsFile).value, LoadJson(files, AreasFile).value, urlOk).value))
      && (r.glossary.Some? ==> r.glossary == Some(GlossaryValidator.ValidateGlossarySpec(
            LoadJson(files, GlossaryFile).value, LoadJson(files, AreasFile).value, urlOk).value))
  {
  }

  /** A valid run has a result with `stats` for every dataset: each
      validator got an array. */
  lemma ValidHasStats(files: map<string, Contents>, urlOk: string -> bool, d: Dataset)
    requires ValidateAll(files, urlOk).valid
    ensures ValidateAll(files, urlOk).results.Of(d).value.stats.Some?
  {
  }

  method ValidateAllData(store: FileStore, urlOk: string -> bool) returns (r: Validation)
    ensures r == ValidateAll(store.files, urlOk)
  {
    var allValid := true;
    var results := NoResults;
    var areas := store.Load(AreasFile);
    var formats := store.Load(FormatsFile);
    var glossary := store.Load(GlossaryFile);
    if areas.Throws? || formats.Throws? || glossary.Throws? {
      return Validation(false, results);
    }
    var ra := AreaValidator.ValidateAreas(areas.value);
    if ra.Throws? {
      return Validation(false, results);
    }
    results := results.(areas := Some(ra.value));
    if !ra.value.valid {
      allValid := false;
    }
    var rf := FormatValidator.ValidateFormats(formats.value, areas.value, urlOk);
    if rf.Throws? {
      return Validation(false, results);
    }
    results := results.(formats := Some(rf.value));
    if !rf.value.valid {
      allValid := false;
    }
    var rg := GlossaryValidator.ValidateGlossary(glossary.value, areas.value, urlOk);
    if rg.Throws? {
      return Validation(false, results);
    }
    results := results.(glossary := Some(rg.value));
    if !rg.value.valid {
      allValid := false;
    }
    r := Validation(allValid, results);
  }
}
