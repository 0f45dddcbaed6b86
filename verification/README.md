# BioinFormats data tooling and catalog search, modelled in Dafny

BioinFormats is a catalog of bioinformatics file formats: `areas.json`,
`formats.json` and `glossary.json`. Around these files there are two kinds
of code, and this project models both.

**Maintenance scripts.** These run under Node:
- three validators check every record of the three files;
- three sorters put each file in alphabetical order and check whether it
  already is;
- an orchestrator ties them together:
  - it validates all data;
  - it organizes the files that are out of order, after a backup;
  - it writes a Markdown report of inconsistencies;
  - it chooses the exit code.

**Client-side helpers.** The web front end uses:
- a ranked, accent-insensitive search over formats and glossary terms;
- a highlighter that marks every occurrence of the query in a text;
- a plain substring search;
- the loader that gathers the format records bundled with the site.

## How the model is organised

Each module follows one file of the repository. The loops of the source
are methods with loop invariants. Each method is proved equal to a
specification function, and the properties are proved as lemmas about that
function.

**Shared modules:**
- `Wrappers` (`Option`, `Outcome`);
- `Text` (`trim`, `indexOf`, number printing);
- `Seqs`;
- `JsonValues` (a parsed JSON value; property access, truthiness,
  `Object.keys`, `String(v)`, kebab-case). `Object.keys` follows the
  engine's own-key order: array-index keys in ascending numeric order
  first, then the other keys in the order they were created;
- `Issues` (every message a validator pushes, as a value, with its exact
  Portuguese text in `Render`);
- `Dedup` (the `seen` and `duplicate` sets);
- `RecordChecks` (the checks two or three validators share);
- `Sorting` (a stable insertion sort standing for `Array.prototype.sort`).

**Validators:** `AreaValidator`, `FormatValidator`, `GlossaryValidator`.
- A result is `Throws` where the JavaScript throws (a `TypeError` on a
  `null` record).
- Otherwise it is the `{valid, errors, warnings, stats}` object.

**Sorters:** `Sorters` models the three sorters together. A `Sorter` value
selects the sort key and the messages.

**File helpers:** `FileHandler.FileStore` is a class holding the files and
a log of copies and writes. Its methods are `loadJSON`, `saveJSON` and
`createBackup`.

**Orchestrator** (`organize-data.cjs`):
- `DataValidation` is `validateAllData`;
- `OrganizeData` is `organizeAllData`;
- `DataReport` is `generateReport`;
- `DataScript` is `main`.

Each is a method on the store, proved equal to a function over a `Disk`
value. Every exception ends in the step's `Outcome`.

**Client helpers:**
- `RankedSearch` covers `searchUtils.tsx`: `norm`, `tokenize`,
  `scoreStartsIncludes`, `searchFormats`, `searchGlossary`,
  `getUniqueAreas`;
- `Highlight` covers `highlightMatch`;
- `SimpleSearch` covers `searchUtils.ts`;
- `FormatLoader` covers `formatLoader.ts`.

**Parameters standing for things outside the model:**

| parameter | stands for |
|---|---|
| `urlOk` | the `new URL(...)` test |
| `numeric` | `localeCompare` with `{numeric: true, sensitivity: 'base'}` in `sort` |
| `plain` | plain `localeCompare` in `isSorted` |
| `cmp` | `localeCompare` in the client helpers |
| `fold` | lower-casing plus diacritic removal |
| `lower` | `toLowerCase` |
| `now` | the clock reading of one run |

## Model

| member | source | states |
|---|---|---|
| Text.TrimEmptyIff | src/utils/searchUtils.ts:26 | A query trims to the empty string exactly when it is all whitespace, so a blank query is the same as no query |
| Text.IndexFrom | src/utils/searchUtils.tsx:159 | `indexOf(t, pos)` gives -1 when `t` occurs nowhere at or after `pos`; otherwise it gives the first position at or after `pos` where `t` occurs |
| Text.ContainsIndex | src/utils/searchUtils.tsx:37 | `includes` holds exactly when `indexOf` from 0 is not -1 |
| Text.NatToStringInjective | scripts/organize-data.cjs:219-220 | Different counts print as different decimal strings |
| JsonValues.Get | scripts/validators/format-validator.cjs:30 | A property lookup finds a value exactly when the value is an object holding that key |
| JsonValues.ObjectKeysDistinct | scripts/validators/format-validator.cjs:142 | `Object.keys` of a parsed object lists each key once |
| JsonValues.OwnKeysSpec | scripts/validators/format-validator.cjs:142 | An object's own keys are exactly the keys it was created with, each listed once |
| JsonValues.ObjectKeysOrder | scripts/validators/format-validator.cjs:142 | `Object.keys` lists the array-index keys first, in increasing numeric value, and then the other keys in creation order |
| JsonValues.ObjectKeysExample | scripts/validators/format-validator.cjs:142 | An object created with keys "id", "name", "2", "1" lists them as "1", "2", "id", "name" |
| Dedup.SeenIff | scripts/validators/area-validator.cjs:33-39 | After the first n records, the `seen` set holds exactly the keys some of those records carry |
| Dedup.RepeatedIff | scripts/validators/area-validator.cjs:33-39 | The `duplicate` set holds exactly the keys carried by two different records |
| Dedup.RepeatedIsShared | scripts/validators/area-validator.cjs:76-85 | After the loop, the `duplicate` set equals the set of keys shared by two or more records, defined directly |
| Dedup.ThreeCopiesOneDuplicate | scripts/validators/area-validator.cjs:33-39 | Three records with one key count as one duplicate value, not two |
| RecordChecks.MissingFieldIff | scripts/validators/format-validator.cjs:25-33 | "campo obrigatório" is reported for field f exactly when f is required and the record's value for f is falsy |
| RecordChecks.MissingFieldsShape | scripts/validators/format-validator.cjs:25-33 | The required-field loop pushes only missing-field errors about this record, for listed fields |
| RecordChecks.MissingFieldsDistinct | scripts/validators/format-validator.cjs:25-33 | When no field is listed twice, the required-field loop never pushes the same error twice |
| RecordChecks.MissingFieldOnce | scripts/validators/format-validator.cjs:25-33 | When no field is listed twice, a missing field's error occurs exactly once, and a present or unlisted field's error never occurs |
| RecordChecks.CheckRequired | scripts/validators/format-validator.cjs:29-33 | The loop over the required fields pushes exactly the missing-field errors of the specification, in field order |
| RecordChecks.UnexpectedKeyIff | scripts/validators/format-validator.cjs:139-146 | "não é esperado" is reported for key k exactly when the record has key k and k is not an allowed field |
| RecordChecks.UnexpectedKeysShape | scripts/validators/format-validator.cjs:139-146 | The allowed-keys loop pushes only unexpected-field warnings, for the record's own keys outside the allowed list |
| RecordChecks.UnexpectedKeysDistinct | scripts/validators/format-validator.cjs:139-146 | Over keys listed once each, as `Object.keys` lists them, the allowed-keys loop never pushes the same warning twice |
| RecordChecks.UnexpectedKeyOnce | scripts/validators/format-validator.cjs:139-146 | Over keys listed once each, a key outside the allowed list is warned about exactly once, and any other key never |
| RecordChecks.CheckKeys | scripts/validators/format-validator.cjs:139-146 | The loop over `Object.keys(record)` pushes exactly the unexpected-field warnings of the specification |
| RecordChecks.NonArrayFieldIff | scripts/validators/format-validator.cjs:76-80 | "deve ser array" is reported for f exactly when f is one of the listed fields and its value is truthy but not an array |
| RecordChecks.CheckArrayFields | scripts/validators/format-validator.cjs:76-80 | The array-field loop pushes exactly the not-an-array errors of the specification |
| RecordChecks.KnownStringsIff | scripts/validators/format-validator.cjs:14 | The set of valid area names holds s exactly when some area record has that string under the key |
| RecordChecks.KnownAreas | scripts/validators/format-validator.cjs:14 | Building the valid-area set throws exactly when `validAreas` is not an array or holds a `null`; the unknown-area test is active exactly when the area list is non-empty |
| RecordChecks.CollectKnownAreas | scripts/validators/format-validator.cjs:14 | The `map` over `validAreas` computes the known set and throws in the same cases as the specification |
| RecordChecks.UnknownAreaIff | scripts/validators/format-validator.cjs:65-71 | An unknown-area warning names string s exactly when the test is active, s is among the entries, and s is not a known area |
| RecordChecks.AreaEntryNotStringIff | scripts/validators/format-validator.cjs:65-71 | Entry j is reported as "deve ser string" exactly when it is among the visited entries and is not a string |
| RecordChecks.AreaRefsShape | scripts/validators/format-validator.cjs:65-71 | Area-entry errors are only not-a-string errors about this record, at visited positions |
| RecordChecks.CheckAreaRefs | scripts/validators/format-validator.cjs:65-71 | The loop over the area entries pushes exactly the errors and warnings of the specification, in entry order |
| RecordChecks.PipelineFindings | scripts/validators/format-validator.cjs:86-94 | A pipeline example gets no error exactly when it is an object with truthy `pipeline` and `explanation` |
| RecordChecks.PipelinesEmptyIff | scripts/validators/format-validator.cjs:83-96 | The pipeline list is error-free exactly when every example is |
| RecordChecks.PipelinesShape | scripts/validators/format-validator.cjs:83-96 | Pipeline errors are not-an-object or missing-field errors about this record, at a visited index |
| RecordChecks.CheckPipelines | scripts/validators/format-validator.cjs:83-96 | The loop over `pipeline_examples` pushes exactly the errors of the specification |
| RecordChecks.ReferenceFindingsIff | scripts/validators/format-validator.cjs:99-127 | Four iffs for one reference: not-an-object exactly when it is not an object; a missing `title`, `url` (or `type`, where checked) exactly when falsy; a bad-URL warning exactly when the URL is present and the URL test fails; a bad-type error exactly when the type is present and is not one of the four kinds |
| RecordChecks.ReferenceFindingsShape | scripts/validators/format-validator.cjs:99-127 | A reference's errors and warnings are only reference issues about this record and this reference index |
| RecordChecks.ReferencesAt | scripts/validators/format-validator.cjs:99-127 | An issue about reference j is in the whole list's findings exactly when it is in reference j's own findings |
| RecordChecks.ReferencesShape | scripts/validators/format-validator.cjs:99-127 | The reference list's errors and warnings are reference issues at visited indices |
| RecordChecks.CheckReferences | scripts/validators/format-validator.cjs:100-126 | The loop over `references` pushes exactly the findings of the specification |
| FormatValidator.ExtensionKey | scripts/validators/format-validator.cjs:36-46 | The duplicate test takes part exactly when the extension is truthy and a string, and it uses that string |
| FormatValidator.ValidateFormatsSpec | scripts/validators/format-validator.cjs:9-163 | The validator throws exactly when building the area set throws or a format record is `null`; a non-array gives the single "Formats deve ser um array" result; `valid` holds exactly when there is no error; the stats total is the record count |
| FormatValidator.ValidateFormats | scripts/validators/format-validator.cjs:9-163 | The imperative validator computes exactly `ValidateFormatsSpec` |
| FormatValidator.VisitFormats | scripts/validators/format-validator.cjs:21-147 | The `forEach` returns nothing (it throws) exactly when some record is `null`; otherwise it ends in the loop state of the specification |
| FormatValidator.CheckFormat | scripts/validators/format-validator.cjs:22-146 | The checks on one record push exactly that record's specified findings |
| FormatValidator.FormatFindingsShape | scripts/validators/format-validator.cjs:22-146 | A record's findings are all about that record; errors are of error kinds and warnings of warning kinds; unknown-area warnings appear only when the area test is active |
| FormatValidator.MissingInRecord | scripts/validators/format-validator.cjs:25-33 | A record reports field f missing exactly when f is required and its value is falsy, and then exactly once |
| FormatValidator.DuplicateInRecord | scripts/validators/format-validator.cjs:40-46 | A record reports its extension as duplicated exactly when it is a truthy string already seen |
| FormatValidator.LeadingDotInRecord | scripts/validators/format-validator.cjs:48-51 | A record warns about a leading dot exactly when its extension is a truthy string starting with `.` |
| FormatValidator.UnknownAreaInRecord | scripts/validators/format-validator.cjs:65-71 | A record warns about area s exactly when the test is active, s is not known, and s is an entry of its `area` array |
| FormatValidator.UnexpectedInRecord | scripts/validators/format-validator.cjs:139-146 | A record warns about key k exactly when it has key k outside the allowed list, and then exactly once |
| FormatValidator.FormatsUpToSets | scripts/validators/format-validator.cjs:12-13 | After n records, the loop's `seenExtensions` and `duplicateExtensions` equal `Seen` and `Repeated` of the extension keys |
| FormatValidator.FormatsUpToErrorsAt | scripts/validators/format-validator.cjs:21-147 | An error about record j is in the accumulated list exactly when j was visited and record j's own checks produced it |
| FormatValidator.FormatsUpToWarningsAt | scripts/validators/format-validator.cjs:21-147 | An accumulated warning about record j came from record j's own checks, and every such warning is kept |
| FormatValidator.ValidateFormatsShape | scripts/validators/format-validator.cjs:21-147 | In the result, every error and warning is about an existing format record; an unknown-area warning needs a non-empty area list |
| FormatValidator.ValidateFormatsMissing | scripts/validators/format-validator.cjs:25-33 | In the whole result, record j's missing-field error for f occurs once if j is a record, f is required and its value is falsy, and otherwise never |
| FormatValidator.FormatsUpToErrorCount | scripts/validators/format-validator.cjs:21-147 | After n records, an error about record j occurs as often as record j's own check pushed it if j < n, and never otherwise |
| FormatValidator.FormatsUpToWarningCount | scripts/validators/format-validator.cjs:21-147 | After n records, a warning about record j occurs as often as record j's own check pushed it if j < n, and never otherwise |
| FormatValidator.ValidateFormatsDuplicate | scripts/validators/format-validator.cjs:40-46 | Record j reports a duplicate extension exactly when an earlier record has the same string extension |
| FormatValidator.ValidateFormatsDuplicateCount | scripts/validators/format-validator.cjs:154-162 | The stats are the record count and the number of distinct extensions shared by two or more records |
| FormatValidator.ValidateFormatsLeadingDot | scripts/validators/format-validator.cjs:48-51 | Record j warns about a leading dot exactly when its extension is a string starting with `.` |
| FormatValidator.ValidateFormatsUnknownArea | scripts/validators/format-validator.cjs:65-71 | Record j warns about area s exactly when s is in its `area`, the area list is non-empty, and no area record has name s |
| FormatValidator.ValidateFormatsUnexpected | scripts/validators/format-validator.cjs:139-146 | In the whole result, record j's warning for key k occurs once if the record has key k outside the allowed list, and otherwise never |
| AreaValidator.ValidateAreasSpec | scripts/validators/area-validator.cjs:8-86 | The validator throws exactly when an area record is `null`; a non-array gives the single "Areas deve ser um array" result; `valid` holds exactly when there is no error; the stats total is the record count |
| AreaValidator.ValidateAreas | scripts/validators/area-validator.cjs:8-86 | The imperative validator computes exactly `ValidateAreasSpec` |
| AreaValidator.VisitAreas | scripts/validators/area-validator.cjs:21-69 | The loop throws exactly on a `null` record; otherwise it ends in the specified loop state |
| AreaValidator.CheckArea | scripts/validators/area-validator.cjs:22-68 | The checks on one area push exactly its specified findings |
| AreaValidator.RecordShape | scripts/validators/area-validator.cjs:22-68 | An area's findings are about that area: errors are missing, duplicate or not-a-string; warnings are kebab-case or unexpected-field |
| AreaValidator.MissingInRecord | scripts/validators/area-validator.cjs:25-26 | An area reports `id` or `name` missing exactly when that value is falsy |
| AreaValidator.KebabInRecord | scripts/validators/area-validator.cjs:29-31 | An area warns about its id exactly when the id is truthy and its string form is not kebab-case |
| AreaValidator.DuplicateIdInRecord | scripts/validators/area-validator.cjs:33-39 | An area reports a duplicate ID exactly when its truthy id is already in the seen set |
| AreaValidator.DuplicateNameInRecord | scripts/validators/area-validator.cjs:45-51 | An area reports a duplicate name exactly when its truthy name is already in the seen set |
| AreaValidator.NotStringInRecord | scripts/validators/area-validator.cjs:42-60 | An area reports `id` or `name` as not a string exactly when the value is truthy and not a string |
| AreaValidator.UnexpectedInRecord | scripts/validators/area-validator.cjs:63-68 | An area warns about key k exactly when k is neither `id` nor `name` |
| AreaValidator.AreasUpToSets | scripts/validators/area-validator.cjs:33-51 | The loop's four sets equal `Seen` and `Repeated` of the id keys and of the name keys |
| AreaValidator.AreasUpToErrorsAt | scripts/validators/area-validator.cjs:21-69 | An error about area j is accumulated exactly when area j's own checks produced it |
| AreaValidator.AreasUpToWarningsAt | scripts/validators/area-validator.cjs:21-69 | A warning about area j is accumulated exactly when area j's own checks produced it |
| AreaValidator.ValidateAreasShape | scripts/validators/area-validator.cjs:21-69 | Every error and warning of the result is about an existing area record and of the right kind |
| AreaValidator.ValidateAreasMissing | scripts/validators/area-validator.cjs:25-26 | Area j reports `id` or `name` missing exactly when that value is falsy |
| AreaValidator.ValidateAreasKebab | scripts/validators/area-validator.cjs:29-31 | Area j warns about its id exactly when the id is truthy and not kebab-case |
| AreaValidator.ValidateAreasDuplicateId | scripts/validators/area-validator.cjs:33-39 | Area j reports a duplicate ID exactly when an earlier area has an equal id key |
| AreaValidator.ValidateAreasDuplicateName | scripts/validators/area-validator.cjs:45-51 | Area j reports a duplicate name exactly when an earlier area has an equal name key |
| AreaValidator.ValidateAreasDuplicateCounts | scripts/validators/area-validator.cjs:76-85 | The stats are the record count and the numbers of distinct ids and names shared by two or more areas |
| AreaValidator.ValidateAreasNotString | scripts/validators/area-validator.cjs:42-60 | Area j reports a non-string `id` or `name` exactly when the value is truthy and not a string |
| AreaValidator.ValidateAreasUnexpected | scripts/validators/area-validator.cjs:63-68 | Area j warns about key k exactly when k is neither `id` nor `name` |
| GlossaryValidator.StringKey | scripts/validators/glossary-validator.cjs:48-53 | A term takes part in a duplicate test only with a non-empty string value |
| GlossaryValidator.ValidateGlossarySpec | scripts/validators/glossary-validator.cjs:9-173 | The validator throws exactly when building the area set throws or a term is `null`; a non-array gives the single "Glossary deve ser um array" result; `valid` holds exactly when there is no error; the stats total is the record count |
| GlossaryValidator.ValidateGlossary | scripts/validators/glossary-validator.cjs:9-173 | The imperative validator computes exactly `ValidateGlossarySpec` |
| GlossaryValidator.VisitGlossary | scripts/validators/glossary-validator.cjs:25-155 | The loop throws exactly on a `null` term; otherwise it ends in the specified loop state |
| GlossaryValidator.CheckTerm | scripts/validators/glossary-validator.cjs:26-154 | The checks on one term push exactly its specified findings |
| GlossaryValidator.CheckContent | scripts/validators/glossary-validator.cjs:93-146 | The checks on definition, area_ids, aliases, related and references push exactly the specified findings |
| GlossaryValidator.KeyDuplicateIff | scripts/validators/glossary-validator.cjs:48-53 | A key field reports a duplicate exactly when its non-empty string value is already seen |
| GlossaryValidator.KeyKebabIff | scripts/validators/glossary-validator.cjs:43-45 | `id` and `slug` warn about kebab-case exactly when the string value is not kebab-case |
| GlossaryValidator.ReferenceListShape | scripts/validators/glossary-validator.cjs:122-146 | The optional references produce only reference issues about this term, or "deve ser array quando presente" |
| GlossaryValidator.TermShape | scripts/validators/glossary-validator.cjs:26-154 | A term's findings are about that term, of the right kinds; unknown-area warnings need an active test |
| GlossaryValidator.MissingInTerm | scripts/validators/glossary-validator.cjs:29-35 | A term reports field f missing exactly when f is required and its value is falsy, and then exactly once |
| GlossaryValidator.KebabInTerm | scripts/validators/glossary-validator.cjs:43-45 | A term warns about its `id` or `slug` exactly when that non-empty string is not kebab-case |
| GlossaryValidator.DuplicateInTerm | scripts/validators/glossary-validator.cjs:48-88 | A term reports a duplicate id, term or slug exactly when that non-empty string is already in the field's seen set |
| GlossaryValidator.UnknownAreaInTerm | scripts/validators/glossary-validator.cjs:102-108 | A term warns about area id s exactly when the test is active, s is unknown, and s is an entry of its `area_ids` |
| GlossaryValidator.UnexpectedInTerm | scripts/validators/glossary-validator.cjs:149-154 | A term warns about key k exactly when it has key k outside the allowed list, and then exactly once |
| GlossaryValidator.GlossaryUpToSets | scripts/validators/glossary-validator.cjs:48-88 | For each of id, term and slug, the loop's seen and duplicate sets equal `Seen` and `Repeated` of that field's keys |
| GlossaryValidator.GlossaryUpToErrorsAt | scripts/validators/glossary-validator.cjs:25-155 | An error about term j is accumulated exactly when term j's own checks produced it |
| GlossaryValidator.GlossaryUpToWarningsAt | scripts/validators/glossary-validator.cjs:25-155 | A warning about term j is accumulated exactly when term j's own checks produced it |
| GlossaryValidator.ValidateGlossaryShape | scripts/validators/glossary-validator.cjs:25-155 | Every error and warning of the result is about an existing term and of the right kind |
| GlossaryValidator.ValidateGlossaryMissing | scripts/validators/glossary-validator.cjs:29-35 | In the whole result, term j's missing-field error for f occurs once if j is a term, f is required and its value is falsy, and otherwise never |
| GlossaryValidator.GlossaryUpToErrorCount | scripts/validators/glossary-validator.cjs:25-155 | After n terms, an error about term j occurs as often as term j's own check pushed it if j < n, and never otherwise |
| GlossaryValidator.GlossaryUpToWarningCount | scripts/validators/glossary-validator.cjs:25-155 | After n terms, a warning about term j occurs as often as term j's own check pushed it if j < n, and never otherwise |
| GlossaryValidator.ValidateGlossaryKebab | scripts/validators/glossary-validator.cjs:43-80 | Term j warns about `id` or `slug` exactly when that non-empty string is not kebab-case |
| GlossaryValidator.ValidateGlossaryDuplicate | scripts/validators/glossary-validator.cjs:48-88 | Term j reports a duplicate id, term or slug exactly when an earlier term has the same non-empty string |
| GlossaryValidator.ValidateGlossaryDuplicateCounts | scripts/validators/glossary-validator.cjs:162-172 | The stats are the record count and the numbers of distinct ids, terms and slugs shared by two or more terms |
| GlossaryValidator.ValidateGlossaryUnknownArea | scripts/validators/glossary-validator.cjs:102-108 | Term j warns about area id s exactly when s is in its `area_ids`, the area list is non-empty, and no area has id s |
| GlossaryValidator.ValidateGlossaryUnexpected | scripts/validators/glossary-validator.cjs:149-154 | In the whole result, term j's warning for key k occurs once if the term has key k outside the allowed list, and otherwise never |
| Sorting.SortBy | scripts/sorters/area-sorter.cjs:11-20 | The sort returns a permutation of its input |
| Sorting.SortByStable | scripts/sorters/area-sorter.cjs:11-20 | With a transitive comparator, records that compare equal to a given one keep their relative order: the sort is stable, as `Array.prototype.sort` is |
| Sorting.SortBySorted | scripts/sorters/area-sorter.cjs:11-20 | With an asymmetric comparator, the sort's output is in order |
| Sorting.SortedFixpoint | scripts/sorters/area-sorter.cjs:11-20 | Sorting a list already in order leaves it unchanged |
| Sorting.SortByIdempotent | scripts/sorters/area-sorter.cjs:11-20 | Sorting twice gives what sorting once gives |
| Sorting.InsertKeepsSorted | scripts/sorters/area-sorter.cjs:11-20 | Inserting into an ordered list keeps it ordered |
| Sorters.Sort | scripts/sorters/area-sorter.cjs:6-21 | A non-array throws the sorter's message; an array throws exactly when it has two or more records and some key is not comparable; otherwise the result is a permutation of the records |
| Sorters.SortStable | scripts/sorters/area-sorter.cjs:11-20 | Records whose keys compare equal under a transitive collation stay in their file order |
| Sorters.SortMembers | scripts/sorters/format-sorter.cjs:11-20 | The sorted list holds exactly the input records |
| Sorters.SortOrdered | scripts/sorters/glossary-sorter.cjs:11-20 | Adjacent sorted records are in numeric `localeCompare` order of their keys |
| Sorters.SortEmptyFirst | scripts/sorters/area-sorter.cjs:13-19 | When the empty key compares first, records with a missing key come before all others |
| Sorters.SortIdempotent | scripts/sorters/area-sorter.cjs:6-21 | Sorting a sorted file again changes nothing |
| Sorters.Fallback | scripts/sorters/area-sorter.cjs:13-14 | The sort key falls back to `''` exactly when the field is falsy |
| Sorters.IsSortedResult | scripts/sorters/area-sorter.cjs:28-31 | A non-array or a list of at most one record counts as sorted |
| Sorters.IsSortedIff | scripts/sorters/area-sorter.cjs:28-43 | For comparable records, `isSorted` answers true exactly when every adjacent pair is in plain `localeCompare` order |
| Sorters.IsSorted | scripts/sorters/area-sorter.cjs:28-43 | The early-exit loop computes exactly `IsSortedResult` |
| Sorters.ScanSettles | scripts/sorters/area-sorter.cjs:33-40 | Once the scan has returned false or thrown, later records do not change the answer |
| Sorters.CheckAfterSort | scripts/sorters/area-sorter.cjs:6-43 | If the plain comparison agrees with the numeric one on the file's keys, the check accepts what the sort produced |
| Sorters.CheckAfterSortCanFail | scripts/sorters/area-sorter.cjs:16-37 | With names "v10" and "v2", the numeric sort swaps them, yet the plain check rejects the result |
| FileHandler.LoadJson | scripts/utils/file-handler.cjs:9-20 | Loading succeeds exactly when the file exists and parses, and then yields the parsed value |
| FileHandler.BackupPath | scripts/utils/file-handler.cjs:59-60 | The backup path is the original path followed by `.backup.` and the stamp |
| FileHandler.Sanitize | scripts/utils/file-handler.cjs:59 | The stamp has no `:` or `.` and keeps every other character in place |
| FileHandler.SaveIn | scripts/utils/file-handler.cjs:28-47 | Saving sets that file's contents and leaves every other file as it was |
| FileHandler.BackupIn | scripts/utils/file-handler.cjs:54-64 | A backup throws exactly when the file is missing; otherwise it copies the file to the backup path, returns that path, and leaves other files as they were |
| FileHandler.FileStore.Load | scripts/utils/file-handler.cjs:9-20 | `loadJSON` on the store returns what `LoadJson` gives on its files |
| FileHandler.FileStore.Save | scripts/utils/file-handler.cjs:28-47 | `saveJSON` changes the store exactly as `SaveIn` says |
| FileHandler.FileStore.CreateBackup | scripts/utils/file-handler.cjs:54-64 | `createBackup` changes the store as `BackupIn` says, or not at all when it throws |
| DataValidation.ValidateAll | scripts/organize-data.cjs:36-123 | A valid verdict means all three results exist and are valid |
| DataValidation.ValidateAllValidIff | scripts/organize-data.cjs:39-120 | The verdict is valid exactly when the three files load, no validator throws, and all three results are valid |
| DataValidation.ValidateAllResults | scripts/organize-data.cjs:45-91 | The results are filled in order (areas, formats, glossary), and each one present is its validator's result on the loaded files |
| DataValidation.ValidHasStats | scripts/organize-data.cjs:39-122 | After a valid verdict, every result carries stats |
| DataValidation.ValidateAllData | scripts/organize-data.cjs:36-123 | `validateAllData` on the store computes exactly `ValidateAll` |
| DataReport.ReportOkIff | scripts/organize-data.cjs:224-253 | The report can be built exactly when all three results exist and carry stats |
| DataReport.ValidReports | scripts/organize-data.cjs:203-287 | After a valid verdict the report never throws |
| DataReport.ReportSummary | scripts/organize-data.cjs:212-220 | The summary lines give the overall status and the totals of errors and warnings over the three datasets |
| DataReport.ReportOrder | scripts/organize-data.cjs:224-228 | The report has the sections Áreas, Formatos and Glossário, in that order |
| DataReport.SectionSubsections | scripts/organize-data.cjs:236-252 | A section has "### Erros" exactly when its dataset has errors, and "### Avisos" exactly when it has warnings |
| DataReport.ReportSuggestions | scripts/organize-data.cjs:255-277 | The suggestions section appears exactly when there is some error or warning; "Erros Críticos" appears exactly with errors; "Melhorias Recomendadas" exactly with warnings |
| DataReport.ReportListsIssues | scripts/organize-data.cjs:239-250 | Every error and every warning of every dataset appears in the report as a bullet |
| DataReport.GenerateReportEffect | scripts/organize-data.cjs:203-287 | A report that throws writes nothing |
| DataReport.GenerateReport | scripts/organize-data.cjs:203-287 | `generateReport` changes the store exactly as `GenerateReportEffect` says |
| DataReport.BuildSection | scripts/organize-data.cjs:225-252 | The per-dataset loop body builds exactly that dataset's section lines |
| DataReport.AppendBullets | scripts/organize-data.cjs:239-241 | The bullet loop appends one line per issue, in order |
| OrganizeData.Prepare | scripts/organize-data.cjs:136-144 | Loading and checking succeed exactly when all three files load and all three checks return |
| OrganizeData.BackupIsNotData | scripts/utils/file-handler.cjs:60 | A backup path is never one of the data files |
| OrganizeData.BackupsDiffer | scripts/utils/file-handler.cjs:60 | Two datasets never share a backup path within one run |
| OrganizeData.OrganizeOutcome | scripts/organize-data.cjs:128-198 | `organizeAllData` throws exactly when a load or check throws or a needed sort throws; it touches nothing if loading fails; it returns true exactly when some file was out of order; no file disappears |
| OrganizeData.OrganizeFiles | scripts/organize-data.cjs:150-184 | After a successful run, each out-of-order file holds its sorted records and its backup holds the old contents; each file in order is unchanged |
| OrganizeData.OrganizeOthers | scripts/organize-data.cjs:128-198 | Files other than the data files and their backups are untouched |
| OrganizeData.OrganizeLog | scripts/organize-data.cjs:150-184 | The copies and writes happen in the planned order: per dataset, backup first, then save |
| OrganizeData.OrganizeIdle | scripts/organize-data.cjs:186-187 | When every check says sorted, nothing is written and the result is false |
| OrganizeData.OrganizeSettles | scripts/organize-data.cjs:128-198 | When the check's comparator agrees with the sort's, a second run finds nothing to do |
| OrganizeData.BlockOutcome | scripts/organize-data.cjs:151-160 | One dataset's block throws exactly when an earlier one threw or its sort throws, and sets `anyChanges` exactly when its file is out of order |
| OrganizeData.OrganizeAllData | scripts/organize-data.cjs:128-198 | `organizeAllData` on the store changes it exactly as `Organize` says |
| OrganizeData.OrganizeDataset | scripts/organize-data.cjs:153-158 | Backing up, sorting and saving one file changes the store as `OrganizeOne` says |
| DataScript.RunScript | scripts/organize-data.cjs:292-335 | The exit code is always 0 or 1 |
| DataScript.RunMissingFile | scripts/organize-data.cjs:298-303 | A missing data file exits with 1 and changes nothing |
| DataScript.RunExitCode | scripts/organize-data.cjs:323-334 | The exit code is 0 exactly when all files exist, the data are valid, and organizing (when it runs) succeeds |
| DataScript.RunKeepsData | scripts/organize-data.cjs:309-317 | With `--validate-only`, or invalid data without `--force`, the data files are untouched |
| DataScript.RunOrganizes | scripts/organize-data.cjs:309-311 | When organizing runs, the data files end as `organizeAllData` leaves them |
| DataScript.RunWritesReport | scripts/organize-data.cjs:319-320 | When the earlier steps succeed, the report file holds the report lines joined by newlines |
| DataScript.Run | scripts/organize-data.cjs:292-335 | `main` on the store returns the code and leaves the state `RunScript` gives |
| RankedSearch.Norm | src/utils/searchUtils.tsx:8-13 | `norm` is empty exactly when the folded text is all whitespace |
| RankedSearch.Tokens | src/utils/searchUtils.tsx:16-26 | A blank query has no tokens; every token is non-empty and occurs in the normalized query |
| RankedSearch.QuotedPhrase | src/utils/searchUtils.tsx:15-23 | A phrase in single or double quotes becomes one token, trimmed |
| RankedSearch.RawTokensStep | src/utils/searchUtils.tsx:22-24 | Each regex match adds its trimmed capture, and the loop stops when no match remains |
| RankedSearch.Tokenize | src/utils/searchUtils.tsx:16-26 | The `exec` loop produces exactly `Tokens` |
| RankedSearch.ScoreStartsIncludes | src/utils/searchUtils.tsx:31-40 | The scoring loop computes exactly `Score` |
| RankedSearch.ScoreBounds | src/utils/searchUtils.tsx:31-40 | With 0 ≤ wIn ≤ wStart, the score lies between 0 and wStart per token |
| RankedSearch.ScorePositive | src/utils/searchUtils.tsx:34-38 | The score is positive exactly when some non-empty token occurs in the normalized value |
| RankedSearch.FormatScorePositive | src/utils/searchUtils.tsx:65-95 | A format's score is never negative; it is positive exactly when its name or extension equals the query, or some token occurs in a scored field |
| RankedSearch.AreaFilter | src/utils/searchUtils.tsx:52-60 | The area filter keeps the catalog's order; with no selection it keeps everything; otherwise it keeps a format exactly when some `area` or `area_ids` entry contains the normalized selection |
| RankedSearch.SearchFormatsUnranked | src/utils/searchUtils.tsx:62 | With no tokens, the result is the area-filtered formats, sorted by name |
| RankedSearch.SearchFormatsRanked | src/utils/searchUtils.tsx:65-100 | With tokens, the result is the area-filtered formats with a positive score, each once; it is ordered by score descending, ties by name |
| RankedSearch.ExactMatchFound | src/utils/searchUtils.tsx:90-92 | A format whose name or extension equals the query always appears in the result |
| RankedSearch.RankedPermutation | src/utils/searchUtils.tsx:97-100 | Filtering, sorting and mapping back give a permutation of the positive-score items |
| RankedSearch.RankedMembers | src/utils/searchUtils.tsx:97-100 | An item is in the ranking exactly when its score is positive |
| RankedSearch.RankedOrder | src/utils/searchUtils.tsx:97-100 | The ranking is by score descending, ties by key in `localeCompare` order |
| RankedSearch.TermScorePositive | src/utils/searchUtils.tsx:117-126 | A term's score is never negative; it is positive exactly when the term equals the query or some token occurs in term, aliases or definition |
| RankedSearch.SearchGlossaryResult | src/utils/searchUtils.tsx:113-133 | A blank query returns all terms; otherwise the result is the positive-score terms, each once; an exact term match is always included; the order is by score descending, ties by term |
| RankedSearch.UniqueAreasSortedSpec | src/utils/searchUtils.tsx:104-108 | `getUniqueAreas` lists every area name of the formats once each, and in `localeCompare` order |
| Highlight.IndexMap | src/utils/searchUtils.tsx:146-152 | Every index-map entry is a position of the original text, and the map never decreases |
| Highlight.IndexMapLength | src/utils/searchUtils.tsx:146-153 | The index map has one entry per character of the normalized text |
| Highlight.BuildIndex | src/utils/searchUtils.tsx:146-153 | The per-character loop builds exactly the normalized text and its index map |
| Highlight.NormTextNoSpace | src/utils/searchUtils.tsx:148-153 | When no character folds to more than one character, the normalized text contains no white space, because `norm` trims each character separately |
| Highlight.SpacedQueryUnmarked | src/utils/searchUtils.tsx:140-164 | A query whose normalized form keeps inner white space never matches, so the text comes back as one plain piece |
| Highlight.SpacedQueryExample | src/utils/searchUtils.tsx:140-164 | With no folding, the query "a b" is not marked in the text "a b" |
| Highlight.MatchesSpec | src/utils/searchUtils.tsx:156-163 | The matches are occurrences of the query, in increasing non-overlapping order; every occurrence the left-to-right scan reaches is found |
| Highlight.FindMatches | src/utils/searchUtils.tsx:156-163 | The `indexOf` loop produces exactly `MatchesFrom` |
| Highlight.RangesWithin | src/utils/searchUtils.tsx:167-171 | The matches mapped back to original indices are non-empty ranges within the text |
| Highlight.MergeSeparated | src/utils/searchUtils.tsx:175-180 | Merging ranges in the text gives ranges in the text that are strictly apart |
| Highlight.MergeCovers | src/utils/searchUtils.tsx:174-180 | For ranges sorted by start, merging covers exactly the positions the ranges covered |
| Highlight.MergedRanges | src/utils/searchUtils.tsx:167-180 | After mapping, sorting and merging, the ranges are apart, lie within the text, and cover exactly the matched positions |
| Highlight.MergeRanges | src/utils/searchUtils.tsx:175-180 | The merge loop computes exactly `Merge` |
| Highlight.PiecesSpell | src/utils/searchUtils.tsx:183-194 | For separated ranges within the text, the plain and marked pieces spell the original text |
| Highlight.Assemble | src/utils/searchUtils.tsx:183-194 | The assembly loop produces exactly `Pieces` |
| Highlight.HighlightSpec | src/utils/searchUtils.tsx:139-197 | A blank query or no match gives the text unmarked; in every case the pieces spell the original text |
| Highlight.HighlightMatch | src/utils/searchUtils.tsx:139-197 | `highlightMatch` computes exactly `Highlight` |
| SimpleSearch.SearchFormatsSpec | src/utils/searchUtils.ts:11-63 | The result keeps the catalog's order; a format is in it exactly when its `area` holds the selection (if any) and, for a non-blank query, the lowercase term occurs in one of its fields |
| SimpleSearch.BlankQuery | src/utils/searchUtils.ts:26-29 | A blank query filters by area only |
| SimpleSearch.UniqueAreas | src/utils/searchUtils.ts:71-80 | The nested loop yields the first-seen list of all area entries |
| SimpleSearch.UniqueAreasSpec | src/utils/searchUtils.ts:71-80 | The area names come once each, in first-appearance order, and they are exactly the names some format lists |
| Seqs.FirstSeenOrder | src/utils/searchUtils.ts:71-80 | The first-seen list, which is what a `Set` iterates, orders values by where each first appears in the input |
| FormatLoader.LoadAllFormats | src/utils/formatLoader.ts:19-31 | The loader computes exactly `AllFormats` |
| FormatLoader.LoadedCount | src/utils/formatLoader.ts:22-27 | A record is kept as often as the module map holds it with a non-empty extension |
| FormatLoader.AllFormatsSpec | src/utils/formatLoader.ts:19-31 | The loaded formats are exactly the records with an extension, with their multiplicities, in extension order |
| FormatLoader.StripDot | src/utils/formatLoader.ts:40 | At most one leading dot is removed |
| FormatLoader.FormatByExtensionSpec | src/utils/formatLoader.ts:38-42 | The lookup finds nothing exactly when no loaded format's lowercased extension equals the query; otherwise it returns the first that does |
| FormatLoader.AreasFromFormats | src/utils/formatLoader.ts:48-57 | `getAreasFromFormats` computes the sorted first-seen area list of the loaded formats |
| FormatLoader.AreasFromFormatsSpec | src/utils/formatLoader.ts:48-57 | The area names are distinct and sorted, and are exactly the areas of the loaded records |

## Left out

- Logging: the `logger` calls and the console output are not modelled.
- Clock: the clock is one parameter `now` per run, standing for the ISO
  timestamp. The report header and the backup stamps use the same value.
- Filesystem: file contents are a map in memory.
  - Directory creation and write failures of `saveJSON` are not modelled.
  - The exact text `JSON.stringify` writes is not modelled; a saved file
    holds the value.
- Parse errors: the message `JSON.parse` gives on malformed text is a fixed
  placeholder.
- `urlOk` stands for the `new URL(...)` test. URL parsing is not modelled.
- Comparators: `localeCompare` appears as the parameters `numeric`, `plain`
  and `cmp`.
  - Only asymmetry is assumed (a > b implies not b > a).
  - Collation order itself is not modelled.
- Text folding: `toLocaleLowerCase`, NFD normalisation and the removal of
  diacritics appear as the parameter `fold`.
  - `norm` is `Trim` after `fold`.
- Sorters.Sort: a throw is approximated. The model throws exactly when
  there are two or more records and some record is `null` or has a truthy
  non-string key. Real engines may throw for fewer comparisons.
- RecordChecks.MissingFieldIff, RecordChecks.UnexpectedKeyIff: each states
  only membership. The exact counts are in `RecordChecks.MissingFieldOnce`
  and `RecordChecks.UnexpectedKeyOnce`, which need the field list and the
  key list to be free of repetitions. `Required`, `Allowed` and
  `Object.keys` are.
- Optional fields: absent optional fields of `FileFormat`, `GlossaryTerm`
  and `Reference` are `""` or `[]`.
- SimpleSearch.SearchFormatsSpec: in `searchUtils.ts`, a format without an
  `area` array throws in JavaScript. The model reads it as an empty list.
- Highlight.HighlightMatch: returns pieces, not JSX.
  - The React elements, their keys and class names are left out.
  - The merge loop's in-place update of `last.end` through an alias is
    modelled as replacing the last range.
- Highlight: a query with inner white space, such as "a b", is never
  marked, even in a text that contains it. This is the program's own
  behaviour: `normalized` is built from characters normalized one at a
  time, and `norm` trims each of them, while `norm(query)` keeps inner
  spaces. `Highlight.SpacedQueryUnmarked` states it.
- Highlight: strings are sequences of characters. Code points and UTF-16
  units are not distinguished, so `Array.from` and `slice` index the same
  sequence.
- FormatLoader.LoadAllFormats: the `import.meta.glob` module map is the
  input `modules`.
- Glob and YAML: the bundler's file globbing and the YAML parsing are not
  modelled.
- Sorters.CheckAfterSort: holds only where the two comparators agree.
  `sort` uses the numeric collation and `isSorted` the plain one.
  `Sorters.CheckAfterSortCanFail` gives names ("v10", "v2") where a freshly
  sorted file is still reported as unsorted. `OrganizeData.OrganizeSettles`
  therefore requires agreement (`Agrees`).
- Numbers in data files are integers. JSON fractions and exponents are not
  modelled.
- `process.exit` is the returned code; nothing after it runs.
