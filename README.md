# Enriching a SARIF report with OSPS assessment results

This project models, in Dafny, the post-processing step of the OSPS Baseline
assessment action: `enrich_sarif.py` takes the SARIF 2.1.0 document produced by
the assessment and the assessment's own YAML report. It repairs the document so
that code scanning accepts it, then adds one SARIF result per qualifying
assessment whose rule id is new. The model has two parts.

- **The level classifier** (`SarifLevel`). This is a pure function from a
  verdict such as `Failed`, `needs review` or `Passed` to one of the four values
  of a result's `level` property (`error`, `warning`, `note`, `none`; OASIS
  SARIF v2.1.0, section 3.27.10). Letter case is ignored.
- **The enrichment** (`Enrich`). This is imperative: class `SarifDocument`
  holds the document and its method `Enrich` updates it in place. The method:
  1. makes sure `runs`, `runs[0]` and `runs[0].results` exist, inserting a
     default run when there is none;
  2. records the rule ids already present;
  3. puts a placeholder physical location (`README.md`) on every result that
     has no locations, and on every location that has no physical location;
  4. walks suites, then control evaluations, then assessments, and appends a
     result for each assessment that qualifies and whose rule id
     `control_id/requirement_id` is new;
  5. defaults the driver name and removes `driver.rules`;
  6. returns the final number of results.

  Its loops live in `BackfillLocationList`, `BackfillLocations`,
  `Merge.MergeControl` and `Merge.MergeAssessments`. Each of these methods is
  proved equal to a specification function: `BackfilledLocations`,
  `BackfilledResults` and `Merge.Fold`. The last two are over the flattened
  report: `Assessments.AssessmentItems` and `Assessments.ReportItems` list
  the assessments in the order the nested loops visit them.

The specification side has two definitions of which assessments get added:
- `Merge.Fold` is the loop's own step function.
- `Merge.Selected`, built on `Merge.Admitted`, is an independent reference definition. An
  item is admitted when it qualifies, its rule id is not pre-existing, and no
  earlier item qualified with the same rule id.

`Merge.FoldResults` proves the two agree. From there the lemmas in `Enrich` prove:
- the original results form a prefix of the final list;
- the appended rule ids are fresh;
- the count is exact;
- every result ends up with a physical location;
- the other runs and the driver behave as the code says;
- enriching twice with the same report changes nothing.

Modules: `Options` (the optional value used for absent keys), `SarifLevel`,
`SarifModel` (the SARIF subset, back-fill and driver normalisation),
`Assessments` (the report's shape and its flattening into visiting order),
`Merge` and `Enrich`.

The model follows the code. Rule ids are collected from every existing result,
but duplicates among the existing results are kept. Only new results are
deduplicated. The test `result != "Not Run"` is case-sensitive. So `not run`
qualifies and is classified as `none`.

## Model

| member | source | states |
|---|---|---|
| `SarifLevel.Lower` | enrich_sarif.py:18 | the lower-cased verdict has the input's length and each character lower-cased (ASCII) |
| `SarifLevel.MapResultToSarifLevel` | enrich_sarif.py:16-26 | the classifier is total and always returns one of error, warning, note, none |
| `SarifLevel.ErrorExactly` | enrich_sarif.py:18-20 | level is error if and only if the verdict equals failed or error ignoring case |
| `SarifLevel.WarningExactly` | enrich_sarif.py:21-22 | level is warning if and only if the verdict equals warn, warning or needs review ignoring case |
| `SarifLevel.NoteExactly` | enrich_sarif.py:23-24 | level is note if and only if the verdict equals passed or pass ignoring case |
| `SarifLevel.NoneOtherwise` | enrich_sarif.py:18-26 | level is none if and only if the verdict is missing or none of the seven keywords (the empty string included) |
| `SarifLevel.CaseInsensitive` | enrich_sarif.py:18 | two verdicts equal up to letter case get the same level |
| `SarifModel.BackfillLocation` | enrich_sarif.py:73-79 | afterwards the location has a physical location; one already present is kept unchanged, and a missing one becomes the README.md placeholder |
| `SarifModel.BackfilledLocations` | enrich_sarif.py:73-79 | the list keeps its length and order; every location has a physical location; existing ones are kept and each missing one becomes the README.md placeholder |
| `SarifModel.BackfillResult` | enrich_sarif.py:64-79 | afterwards the result is located; rule id, level and message are unchanged; a missing or empty list becomes the single placeholder location; otherwise each location j is location j back-filled: its physical location is kept when present and becomes the README.md placeholder when missing, and its logical locations are kept; a located result is unchanged |
| `SarifModel.BackfilledResults` | enrich_sarif.py:60-79 | the list keeps its length; every result is located and keeps its rule id; a result that was already located is unchanged |
| `SarifModel.RuleIdSetMembers` | enrich_sarif.py:57-62 | a string is a collected rule id if and only if some result has it as rule id |
| `SarifModel.BackfillKeepsRuleIds` | enrich_sarif.py:59-79 | the back-fill leaves the set of rule ids unchanged |
| `SarifModel.BackfillIdempotent` | enrich_sarif.py:64-79 | results that are all located are left unchanged by the back-fill |
| `SarifModel.NormalisedDriver` | enrich_sarif.py:131-136 | afterwards the name is non-empty; an empty or missing name becomes OSPS Security Assessment and a non-empty one is kept; the version is kept and rules are absent |
| `SarifModel.NormalisedTool` | enrich_sarif.py:131-136 | the results are untouched; without tool.driver the tool is unchanged; with one, only the driver is replaced by the normalised driver |
| `SarifModel.NormalisedDriverIdempotent` | enrich_sarif.py:131-136 | normalising the driver twice is the same as once |
| `SarifModel.NormalisedToolIdempotent` | enrich_sarif.py:130-136 | normalising a normalised run again changes nothing, whatever its results |
| `Assessments.AssessmentItems` | enrich_sarif.py:94-99 | a control without assessments gives nothing; otherwise one item per assessment, in order, each tagged with the control id (the empty string when absent) |
| `Assessments.ReportItems` | enrich_sarif.py:82-93 | a missing or unreadable report, or one without evaluation_suites, gives no assessments |
| `Assessments.ControlsItemsMembers` | enrich_sarif.py:93-96 | an item is visited for a list of control evaluations if and only if it is an assessment of one of them |
| `Assessments.SuitesItemsMembers` | enrich_sarif.py:91-93 | an item is visited for a list of suites if and only if it is visited for one of them |
| `Assessments.ReportItemsMembers` | enrich_sarif.py:90-99 | the visited items are exactly the assessments of the control evaluations of the report's suites, tagged with their control id |
| `Merge.NotRunCaseSensitive` | enrich_sarif.py:101 | exactly Not Run is filtered out while not run qualifies and gets level none; a missing or empty requirement id or verdict never qualifies |
| `Merge.ItemRuleId` | enrich_sarif.py:102 | the rule id is the control id, a slash and the requirement id (empty when absent), with lengths adding up |
| `Merge.MessageText` | enrich_sarif.py:114 | the message is the assessment's own when non-empty, otherwise requirement id, a colon and space, and the verdict |
| `Merge.NewResult` | enrich_sarif.py:106-126 | a created result is located; it carries the rule id, the classifier's level, the message text and exactly one location: the README.md placeholder with one logical location naming the rule id |
| `Merge.StepAppendsOne` | enrich_sarif.py:101-128 | one assessment keeps the list as a prefix and the known ids, and appends a result if and only if it qualifies with a rule id not yet known, never more than one |
| `Merge.FoldKeepsPrefix` | enrich_sarif.py:96-128 | the loop keeps its starting list as a prefix, appends at most one result per assessment and loses no known rule id |
| `Merge.FoldAppend` | enrich_sarif.py:91-96 | running the loop over two lists in turn is running it over their concatenation |
| `Merge.FoldRuleIds` | enrich_sarif.py:101-128 | the known rule ids grow by exactly the rule ids of the qualifying assessments |
| `Merge.FoldResults` | enrich_sarif.py:96-128 | the loop keeps the list it starts with as a prefix and appends exactly the admitted assessments' results, in order |
| `Merge.SelectedCount` | enrich_sarif.py:101-128 | the number appended equals the number of distinct qualifying rule ids not already known |
| `Merge.SelectedNone` | enrich_sarif.py:104-105 | nothing is appended when every qualifying rule id is already known |
| `Merge.SelectedFromAdmitted` | enrich_sarif.py:101-127 | each appended result is the result of an assessment that qualifies, has a new rule id and is the first with that rule id |
| `Merge.AdmittedIsSelected` | enrich_sarif.py:101-127 | every such assessment has its result appended |
| `Merge.FoldFresh` | enrich_sarif.py:101-128 | when the known ids are the results' ids, the loop keeps it so, and every appended result has a rule id no earlier result has |
| `Merge.FoldNextControl` | enrich_sarif.py:93-96 | looping over one more control evaluation continues the loop with that control's assessments |
| `Merge.FoldNextSuite` | enrich_sarif.py:91-96 | looping over one more suite continues the loop with that suite's assessments |
| `Merge.MergeControl` | enrich_sarif.py:94-128 | the loop over one control's assessments computes the results list and rule-id set that the step function gives |
| `Merge.MergeAssessments` | enrich_sarif.py:90-128 | the loops over suites and control evaluations compute the results list and rule-id set that the step function gives for the whole report |
| `Enrich.WithResults` | enrich_sarif.py:52-54 | a run with a results list is unchanged; a run without one gets an empty list and nothing else changes |
| `Enrich.PreparedRuns` | enrich_sarif.py:34-54 | afterwards runs are non-empty and the first run has a results list; missing or empty runs become the single default run; otherwise the number of runs is kept, the first run only gains an empty results list when it had none, and the others are unchanged |
| `Enrich.OriginalResults` | enrich_sarif.py:50-56 | the results the first run starts with are empty when runs are missing or empty, or when the first run has no results list |
| `Enrich.OriginalResultsOfFirstRun` | enrich_sarif.py:50-56 | when the first run has a results list, the original results are exactly that list |
| `Enrich.EnrichedRun` | enrich_sarif.py:59-139 | the enriched first run has the normalised tool and a results list no shorter than the original |
| `Enrich.EnrichDoc` | enrich_sarif.py:34-139 | the enriched document keeps the prepared number of runs, its first run has results, and the runs after the first are the prepared ones |
| `Enrich.BackfillLocationList` | enrich_sarif.py:73-79 | the loop over a result's locations gives the back-filled list |
| `Enrich.BackfillOne` | enrich_sarif.py:64-79 | one iteration's back-fill gives the back-filled result |
| `Enrich.BackfillLocations` | enrich_sarif.py:59-79 | the loop over existing results gives the back-filled list and the set of their rule ids |
| `Enrich.SarifDocument.constructor` | enrich_sarif.py:31-32 | the object holds the given document |
| `Enrich.SarifDocument.Enrich` | enrich_sarif.py:29-145 | the new document is the enrichment of the old one; the count returned is the original result count plus the number of distinct new qualifying rule ids |
| `Enrich.EnrichResults` | enrich_sarif.py:50-139 | after enrichment runs[0] has results: the back-filled originals in order, followed by the reference selection of new assessments |
| `Enrich.EnrichLocated` | enrich_sarif.py:59-126 | every result of runs[0] has a non-empty locations list and every location has a physical location |
| `Enrich.OriginalResultsKept` | enrich_sarif.py:56-79 | each original result stays at its index with its rule id, level and message, and with every physical location it already had |
| `Enrich.AddedResultShape` | enrich_sarif.py:101-126 | each appended result is exactly the result made for an admitted assessment (rule id control_id/requirement_id, the classifier's level, its message or requirement: result, one README.md location naming the rule id) |
| `Enrich.AdmittedAppended` | enrich_sarif.py:101-127 | every admitted assessment's result is among the appended ones |
| `Enrich.AddedRuleIdsFresh` | enrich_sarif.py:57-128 | appended results have pairwise distinct rule ids, none equal to a pre-existing rule id |
| `Enrich.ResultCount` | enrich_sarif.py:82-145 | the final count is the original count plus the distinct new qualifying rule ids; a missing report appends nothing |
| `Enrich.FirstRunInserted` | enrich_sarif.py:35-54 | a document without runs ends with one run: driver OSPS Security Assessment 1.0.0 without rules, holding only the new results |
| `Enrich.OtherRunsUntouched` | enrich_sarif.py:50-56 | the number of runs is kept and the runs after the first are unchanged |
| `Enrich.DriverNormalised` | enrich_sarif.py:130-136 | with a tool.driver, an empty or missing name is defaulted, a non-empty one is kept, the version is kept and rules are absent |
| `Enrich.ToolKeptWithoutDriver` | enrich_sarif.py:131 | without a tool.driver the first run's tool is left exactly as it was |
| `Enrich.EnrichedRunFixed` | enrich_sarif.py:59-136 | a located, normalised first run that already holds every qualifying rule id is unchanged by enrichment |
| `Enrich.EnrichFixedPoint` | enrich_sarif.py:34-139 | a document whose first run is like that is unchanged by enrichment |
| `Enrich.EnrichIdempotent` | enrich_sarif.py:104-136 | enriching an enriched document again with the same report changes nothing; in particular nothing more is appended |

## Left out

- Reading and writing files: `json.load`, `json.dump` and its indentation. The document is an in-memory object handed to `SarifDocument`.
- YAML parsing, the existence check on the report path and the caught read error. All of them become the `Option<Report>` parameter, where `None` stands for a missing, unreadable or empty report.
- The error message printed on a bad report, the command-line entry point and its success message.
- Keys the script never reads or writes. They pass through unchanged and are not represented. Examples: `version`, `$schema`, `region` inside a physical location, and the content of a rule descriptor, which is reduced to its id.
- Explicit JSON or YAML `null` values and non-string scalars. An absent key is `None`. The script would render `control_id: null` as the text `None` in a rule id; the model has no such value.
- Crashes of the script on ill-typed input, such as `locations: null` or a non-list `runs`. The model's types exclude these shapes.
- Unicode case mapping. `SarifLevel.Lower` lower-cases ASCII letters only, while `str.lower` also maps other letters. The seven keywords are ASCII.
- Aliasing between `all_results` and `run["results"]`, and the in-place mutation of nested dictionaries. Nested parts are values that the method rebuilds and writes back into the document. Nothing can observe the document between these steps.
- The code-scanning upload, SARIF validation before upload, the Docker invocation and the action's workflow wiring. They are steps of the action's workflow and of the external assessment image, not of `enrich_sarif.py`, so they are not part of this model.
