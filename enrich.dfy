/**
 * Enrichment of a SARIF document with an assessment report: make sure the
 * first run and its results exist, give every result and location a
 * physical location, append one result per new qualifying assessment,
 * default the driver name and drop `driver.rules`.
 */
module Enrich {
  import opened Options
  import opened SarifModel
  import opened Assessments
  import opened Merge

  function WithResults(run: Run): (run': Run)
    ensures run.results.Some? ==> run' == run
    ensures run.results.None? ==> run' == run.(results := Some([]))
  {
    if run.results.None? then run.(results := Some([])) else run
  }

  /** The runs once `runs`, `runs[0]` and `runs[0].results` are guaranteed to exist. */
  function PreparedRuns(d: Doc): (runs: seq<Run>)
    ensures |runs| > 0 && runs[0].results.Some?
    ensures d.runs.None? || d.runs.value == [] ==> runs == [DefaultRun]
    ensures d.runs.Some? && d.runs.value != [] ==>
      |runs| == |d.runs.value| && runs[0] == WithResults(d.runs.value[0]) && runs[1..] == d.runs.value[1..]
  {
    var rs := if d.runs.None? || |d.runs.value| == 0 then [DefaultRun] else d.runs.value;
    [WithResults(rs[0])] + rs[1..]
  }

  /** The results the first run starts with (none when the list was missing). */
  function OriginalResults(d: Doc): (rs: seq<Result>)
    ensures d.runs.None? || d.runs.value == [] ==> rs == []
    ensures d.runs.Some? && d.runs.value != [] && d.runs.value[0].results.None? ==> rs == []
  {
    PreparedRuns(d)[0].results.value
  }

  /** The first run after back-fill, merge and driver normalisation. */
  function EnrichedRun(run: Run, report: Option<Report>): (run': Run)
    requires run.results.Some?
    ensures run'.tool == NormalisedTool(run).tool
    ensures run'.results.Some? && |run.results.value| <= |run'.results.value|
  {
    var original := run.results.value;
    var start := MergeState(BackfilledResults(original), RuleIdSet(original));
    FoldKeepsPrefix(start, ReportItems(report));
    NormalisedTool(run).(results := Some(Fold(start, ReportItems(report)).results))
  }

  /** The document after enrichment. */
  function EnrichDoc(d: Doc, report: Option<Report>): (d': Doc)
    ensures d'.runs.Some? && |d'.runs.value| == |PreparedRuns(d)| && d'.runs.value[0].results.Some?
    ensures d'.runs.value[1..] == PreparedRuns(d)[1..]
  {
    var runs := PreparedRuns(d);
    Doc(Some([EnrichedRun(runs[0], report)] + runs[1..]))
  }

  /** The first run of an enriched document exists and has a results list. */
  predicate HasFirstRun(d: Doc) {
    d.runs.Some? && |d.runs.value| > 0 && d.runs.value[0].results.Some?
  }

  function FirstResults(d: Doc): seq<Result>
    requires HasFirstRun(d)
  {
    d.runs.value[0].results.value
  }

  /** The inner loop: give each location without one the placeholder physical location. */
  method BackfillLocationList(locations: seq<Location>) returns (patched: seq<Location>)
    ensures patched == BackfilledLocations(locations)
  {
    patched := locations;
    var j := 0;
    while j < |patched|
      invariant 0 <= j <= |patched| == |locations|
      invariant forall m :: 0 <= m < j ==> patched[m] == BackfillLocation(locations[m])
      invariant forall m :: j <= m < |patched| ==> patched[m] == locations[m]
    {
      if patched[j].physicalLocation.None? {
        patched := patched[j := patched[j].(physicalLocation := Some(PlaceholderPhysical))];
      }
      j := j + 1;
    }
  }

  /** The back-fill of one result's locations, in the body of the loop over results. */
  method BackfillOne(result: Result) returns (patched: Result)
    ensures patched == BackfillResult(result)
  {
    patched := result;
    if result.locations.None? || |result.locations.value| == 0 {
      patched := result.(locations := Some([PlaceholderLocation]));
    } else {
      var locations := BackfillLocationList(result.locations.value);
      patched := result.(locations := Some(locations));
    }
  }

  /** The loop over existing results: collect rule ids and back-fill locations. */
  method BackfillLocations(results: seq<Result>) returns (patched: seq<Result>, ruleIds: set<string>)
    ensures patched == BackfilledResults(results)
    ensures ruleIds == RuleIdSet(results)
  {
    patched, ruleIds := results, {};
    var i := 0;
    while i < |patched|
      invariant 0 <= i <= |patched| == |results|
      invariant ruleIds == RuleIdSet(results[..i])
      invariant forall k :: 0 <= k < i ==> patched[k] == BackfillResult(results[k])
      invariant forall k :: i <= k < |results| ==> patched[k] == results[k]
    {
      var result := patched[i];
      assert results[..i + 1][..i] == results[..i];
      assert RuleIdSet(results[..i + 1]) == RuleIdSet(results[..i]) + RuleIdsOf(results[i]);
      if result.ruleId.Some? {
        ruleIds := ruleIds + {result.ruleId.value};
      }
      result := BackfillOne(result);
      patched := patched[i := result];
      i := i + 1;
    }
    assert results[..i] == results;
  }

  /** The SARIF document, updated in place. */
  class SarifDocument {
    var runs: Option<seq<Run>>

    constructor (d: Doc)
      ensures Value() == d
    {
      runs := d.runs;
    }

    function Value(): Doc
      reads this
    {
      Doc(runs)
    }

    /** Enrich the document with `report` (`None`: missing or unreadable) and return the result count. */
    method Enrich(report: Option<Report>) returns (count: nat)
      modifies this
      ensures Value() == EnrichDoc(old(Value()), report)
      ensures count == |OriginalResults(old(Value()))| +
                       |QualifyingIds(ReportItems(report)) - RuleIdSet(OriginalResults(old(Value())))|
    {
      ghost var d := Value();
      if runs.None? {
        runs := Some([]);
      }
      if |runs.value| == 0 {
        runs := Some([DefaultRun]);
      }
      var run := runs.value[0];
      if run.results.None? {
        run := run.(results := Some([]));
        runs := Some([run] + runs.value[1..]);
      }
      assert runs.value == PreparedRuns(d);
      var allResults, existingRuleIds := BackfillLocations(run.results.value);
      if report.Some? && report.value.evaluationSuites.Some? {
        allResults, existingRuleIds := MergeAssessments(allResults, existingRuleIds, report.value.evaluationSuites.value);
      }
      if run.tool.Some? && run.tool.value.driver.Some? {
        var driver := run.tool.value.driver.value;
        if driver.name.None? || driver.name.value == "" {
          driver := driver.(name := Some(DefaultDriverName));
        }
        if driver.rules.Some? {
          driver := driver.(rules := None);
        }
        run := run.(tool := Some(run.tool.value.(driver := Some(driver))));
      }
      run := run.(results := Some(allResults));
      runs := Some([run] + runs.value[1..]);
      count := |allResults|;
      ResultCount(d, report);
    }
  }

  /** The final results are the back-filled originals followed by the reference selection. */
  lemma EnrichResults(d: Doc, report: Option<Report>)
    ensures HasFirstRun(EnrichDoc(d, report))
    ensures FirstResults(EnrichDoc(d, report)) ==
      BackfilledResults(OriginalResults(d)) + Selected(ReportItems(report), RuleIdSet(OriginalResults(d)))
  {
    var orig := OriginalResults(d);
    FoldResults(MergeState(BackfilledResults(orig), RuleIdSet(orig)), ReportItems(report));
  }

  /** After enrichment every result of the first run has locations, each with a physical location. */
  lemma EnrichLocated(d: Doc, report: Option<Report>)
    ensures HasFirstRun(EnrichDoc(d, report))
    ensures forall i :: 0 <= i < |FirstResults(EnrichDoc(d, report))| ==> Located(FirstResults(EnrichDoc(d, report))[i])
  {
    EnrichResults(d, report);
    var orig := OriginalResults(d);
    var sel := Selected(ReportItems(report), RuleIdSet(orig));
    var rs := FirstResults(EnrichDoc(d, report));
    forall i | 0 <= i < |rs| ensures Located(rs[i]) {
      if i >= |orig| {
        SelectedFromAdmitted(ReportItems(report), RuleIdSet(orig), i - |orig|);
      }
    }
  }

  /**
   * The original results keep their order, rule id, level and message, and
   * every physical location they already had.
   */
  lemma OriginalResultsKept(d: Doc, report: Option<Report>, i: int)
    requires 0 <= i < |OriginalResults(d)|
    ensures HasFirstRun(EnrichDoc(d, report)) && i < |FirstResults(EnrichDoc(d, report))|
    ensures var r, r' := OriginalResults(d)[i], FirstResults(EnrichDoc(d, report))[i];
      r'.ruleId == r.ruleId && r'.level == r.level && r'.messageText == r.messageText && Located(r') &&
      (r.locations.Some? && r.locations.value != [] ==>
        |r'.locations.value| == |r.locations.value| &&
        forall j :: 0 <= j < |r.locations.value| && HasPhysical(r.locations.value[j]) ==>
          r'.locations.value[j] == r.locations.value[j])
  {
    EnrichResults(d, report);
  }

  /** Each appended result is the result made for an admitted assessment. */
  lemma AddedResultShape(d: Doc, report: Option<Report>, j: int)
    requires HasFirstRun(EnrichDoc(d, report))
    requires |OriginalResults(d)| <= j < |FirstResults(EnrichDoc(d, report))|
    ensures exists p ::
              && 0 <= p < |ReportItems(report)|
              && Admitted(ReportItems(report), RuleIdSet(OriginalResults(d)), p)
              && FirstResults(EnrichDoc(d, report))[j] == NewResult(ReportItems(report)[p])
  {
    var orig, items := OriginalResults(d), ReportItems(report);
    var sel := Selected(items, RuleIdSet(orig));
    EnrichResults(d, report);
    assert FirstResults(EnrichDoc(d, report))[j] == sel[j - |orig|];
    SelectedFromAdmitted(items, RuleIdSet(orig), j - |orig|);
    var p :| 0 <= p < |items| && Admitted(items, RuleIdSet(orig), p) && sel[j - |orig|] == NewResult(items[p]);
  }

  /** Every admitted assessment is among the appended results. */
  lemma AdmittedAppended(d: Doc, report: Option<Report>, p: int)
    requires 0 <= p < |ReportItems(report)| && Admitted(ReportItems(report), RuleIdSet(OriginalResults(d)), p)
    ensures HasFirstRun(EnrichDoc(d, report))
    ensures |OriginalResults(d)| <= |FirstResults(EnrichDoc(d, report))|
    ensures NewResult(ReportItems(report)[p]) in FirstResults(EnrichDoc(d, report))[|OriginalResults(d)|..]
  {
    EnrichResults(d, report);
    AdmittedIsSelected(ReportItems(report), RuleIdSet(OriginalResults(d)), p);
    var rs := FirstResults(EnrichDoc(d, report));
    assert rs[|OriginalResults(d)|..] == Selected(ReportItems(report), RuleIdSet(OriginalResults(d)));
  }

  /** Appended results have pairwise distinct rule ids, none of them a pre-existing one. */
  lemma AddedRuleIdsFresh(d: Doc, report: Option<Report>)
    ensures HasFirstRun(EnrichDoc(d, report))
    ensures FreshRuleIdsFrom(FirstResults(EnrichDoc(d, report)), |OriginalResults(d)|)
  {
    var orig := OriginalResults(d);
    BackfillKeepsRuleIds(orig);
    FoldFresh(MergeState(BackfilledResults(orig), RuleIdSet(orig)), ReportItems(report));
  }

  /** The count: original results plus one per distinct new qualifying rule id; none added without a report. */
  lemma ResultCount(d: Doc, report: Option<Report>)
    ensures HasFirstRun(EnrichDoc(d, report))
    ensures |FirstResults(EnrichDoc(d, report))| ==
      |OriginalResults(d)| + |QualifyingIds(ReportItems(report)) - RuleIdSet(OriginalResults(d))|
    ensures report.None? ==> |FirstResults(EnrichDoc(d, report))| == |OriginalResults(d)|
  {
    EnrichResults(d, report);
    SelectedCount(ReportItems(report), RuleIdSet(OriginalResults(d)));
  }

  /** A document without runs gets exactly one run: the default driver, holding only the new results. */
  lemma FirstRunInserted(d: Doc, report: Option<Report>)
    requires d.runs.None? || d.runs.value == []
    ensures EnrichDoc(d, report).runs == Some([Run(
      Some(Tool(Some(Driver(Some("OSPS Security Assessment"), Some("1.0.0"), None)))),
      Some(Selected(ReportItems(report), {})))])
  {
    EnrichResults(d, report);
    assert PreparedRuns(d) == [DefaultRun];
    assert OriginalResults(d) == [];
    assert RuleIdSet([]) == {};
    assert NormalisedTool(DefaultRun) == DefaultRun;
    assert EnrichDoc(d, report).runs.value == [EnrichedRun(DefaultRun, report)];
    var st := MergeState(BackfilledResults([]), RuleIdSet([]));
    assert st == MergeState([], {});
    FoldResults(st, ReportItems(report));
    assert Fold(st, ReportItems(report)).results == Selected(ReportItems(report), {});
  }

  /** Runs after the first are untouched. */
  lemma OtherRunsUntouched(d: Doc, report: Option<Report>)
    requires d.runs.Some? && d.runs.value != []
    ensures EnrichDoc(d, report).runs.Some?
    ensures |EnrichDoc(d, report).runs.value| == |d.runs.value|
    ensures EnrichDoc(d, report).runs.value[1..] == d.runs.value[1..]
  {
  }

  /** With a `tool.driver`, the name is defaulted when empty, kept otherwise, and `rules` is gone. */
  lemma DriverNormalised(d: Doc, report: Option<Report>)
    requires d.runs.Some? && d.runs.value != []
    requires d.runs.value[0].tool.Some? && d.runs.value[0].tool.value.driver.Some?
    ensures var run := EnrichDoc(d, report).runs.value[0];
      var driver0 := d.runs.value[0].tool.value.driver.value;
      run.tool.Some? && run.tool.value.driver.Some? &&
      var dr := run.tool.value.driver.value;
      dr.rules.None? && dr.version == driver0.version &&
      dr.name == (if driver0.name.None? || driver0.name.value == "" then Some("OSPS Security Assessment") else driver0.name)
  {
  }

  /** For a document that already has a first run with a results list, the original results are those. */
  lemma OriginalResultsOfFirstRun(d: Doc)
    requires HasFirstRun(d)
    ensures OriginalResults(d) == FirstResults(d)
  {
  }

  /** Without a `tool.driver`, the first run's `tool` is left exactly as it was. */
  lemma ToolKeptWithoutDriver(d: Doc, report: Option<Report>)
    requires d.runs.Some? && d.runs.value != []
    requires d.runs.value[0].tool.None? || d.runs.value[0].tool.value.driver.None?
    ensures EnrichDoc(d, report).runs.value[0].tool == d.runs.value[0].tool
  {
  }

  /** A first run that is already enriched is a fixed point of the run-level enrichment. */
  lemma EnrichedRunFixed(run: Run, report: Option<Report>)
    requires run.results.Some?
    requires forall i :: 0 <= i < |run.results.value| ==> Located(run.results.value[i])
    requires QualifyingIds(ReportItems(report)) <= RuleIdSet(run.results.value)
    requires NormalisedTool(run) == run
    ensures EnrichedRun(run, report) == run
  {
    var rs := run.results.value;
    BackfillIdempotent(rs);
    SelectedNone(ReportItems(report), RuleIdSet(rs));
    FoldResults(MergeState(rs, RuleIdSet(rs)), ReportItems(report));
    assert Fold(MergeState(BackfilledResults(rs), RuleIdSet(rs)), ReportItems(report)).results == rs;
  }

  /** A document whose first run is already enriched is a fixed point of the enrichment. */
  lemma EnrichFixedPoint(d: Doc, report: Option<Report>)
    requires HasFirstRun(d)
    requires forall i :: 0 <= i < |FirstResults(d)| ==> Located(FirstResults(d)[i])
    requires QualifyingIds(ReportItems(report)) <= RuleIdSet(FirstResults(d))
    requires NormalisedTool(d.runs.value[0]) == d.runs.value[0]
    ensures EnrichDoc(d, report) == d
  {
    assert PreparedRuns(d) == d.runs.value;
    EnrichedRunFixed(d.runs.value[0], report);
  }

  /** Enriching an enriched document with the same report changes nothing. */
  lemma EnrichIdempotent(d: Doc, report: Option<Report>)
    ensures EnrichDoc(EnrichDoc(d, report), report) == EnrichDoc(d, report)
  {
    var d1 := EnrichDoc(d, report);
    var orig := OriginalResults(d);
    var items := ReportItems(report);
    var st := MergeState(BackfilledResults(orig), RuleIdSet(orig));
    EnrichLocated(d, report);
    BackfillKeepsRuleIds(orig);
    FoldFresh(st, items);
    FoldRuleIds(st, items);
    assert QualifyingIds(items) <= RuleIdSet(FirstResults(d1));
    var run0 := PreparedRuns(d)[0];
    assert d1.runs.value[0] == NormalisedTool(run0).(results := Some(Fold(st, items).results));
    NormalisedToolIdempotent(run0, Some(Fold(st, items).results));
    EnrichFixedPoint(d1, report);
  }
}
