/**
 * Merging assessments into the results of the first run: each qualifying
 * assessment whose rule id `control_id/requirement_id` is not yet known
 * becomes a new result at the end of the list.
 */
module Merge {
  import opened Options
  import opened SarifLevel
  import opened SarifModel
  import opened Assessments

  const NotRun := "Not Run"

  /** Non-empty requirement id, non-empty verdict, and a verdict other than exactly "Not Run". */
  predicate Qualifies(a: Assessment) {
    a.requirementId.Some? && a.requirementId.value != "" &&
    a.result.Some? && a.result.value != "" && a.result.value != NotRun
  }

  /**
   * The filter tests the verdict "Not Run" with its exact spelling: any other
   * spelling qualifies and is then classified as `none`, and a missing or
   * empty requirement id or verdict never qualifies.
   */
  lemma NotRunCaseSensitive(req: string, message: Option<string>)
    requires req != ""
    ensures !Qualifies(Assessment(Some(req), Some(NotRun), message))
    ensures Qualifies(Assessment(Some(req), Some("not run"), message))
    ensures MapResultToSarifLevel(Some("not run")) == "none"
    ensures forall a: Assessment :: a.requirementId.GetOr("") == "" || a.result.GetOr("") == "" ==> !Qualifies(a)
  {
  }

  /** `control_id/requirement_id`, each part taken as `""` when absent. */
  function ItemRuleId(x: Item): (id: string)
    ensures var req := x.assessment.requirementId.GetOr("");
      |id| == |x.controlId| + 1 + |req| &&
      id[..|x.controlId|] == x.controlId && id[|x.controlId|] == '/' && id[|x.controlId| + 1..] == req
  {
    x.controlId + "/" + x.assessment.requirementId.GetOr("")
  }

  /** The message: the assessment's own when non-empty, otherwise "requirement: verdict". */
  function MessageText(a: Assessment): (text: string)
    ensures a.message.Some? && a.message.value != "" ==> text == a.message.value
    ensures a.message.None? || a.message.value == "" ==>
      text == a.requirementId.GetOr("") + ": " + a.result.GetOr("")
  {
    if a.message.Some? && a.message.value != "" then a.message.value
    else a.requirementId.GetOr("") + ": " + a.result.GetOr("")
  }

  /**
   * The SARIF result created for an assessment: its rule id, the classified
   * level, the message, and one placeholder location whose logical location
   * names the rule id.
   */
  function NewResult(x: Item): (r: Result)
    ensures Located(r)
    ensures r.ruleId == Some(ItemRuleId(x))
    ensures r.level == Some(MapResultToSarifLevel(x.assessment.result))
    ensures r.messageText == Some(MessageText(x.assessment))
    ensures r.locations == Some([Location(Some(PhysicalLocation(Some(PlaceholderUri))),
                                          Some([LogicalLocation(r.ruleId)]))])
  {
    var ruleId := ItemRuleId(x);
    Result(
      Some(ruleId),
      Some(MapResultToSarifLevel(x.assessment.result)),
      Some(MessageText(x.assessment)),
      Some([Location(Some(PlaceholderPhysical), Some([LogicalLocation(Some(ruleId))]))]))
  }

  /** The rule ids of the qualifying items. */
  function QualifyingIds(items: seq<Item>): set<string> {
    if items == [] then {}
    else
      var x := items[|items| - 1];
      QualifyingIds(items[..|items| - 1]) + (if Qualifies(x.assessment) then {ItemRuleId(x)} else {})
  }

  /** The results list being built and the set of rule ids seen so far. */
  datatype MergeState = MergeState(results: seq<Result>, ruleIds: set<string>)

  /** One iteration of the innermost loop. */
  function Step(st: MergeState, x: Item): MergeState {
    if Qualifies(x.assessment) && ItemRuleId(x) !in st.ruleIds then
      MergeState(st.results + [NewResult(x)], st.ruleIds + {ItemRuleId(x)})
    else st
  }

  /**
   * One iteration keeps the list as a prefix and the known ids, and appends
   * exactly one result when the assessment qualifies with a new rule id,
   * none otherwise.
   */
  lemma StepAppendsOne(st: MergeState, x: Item)
    ensures var st' := Step(st, x);
      |st.results| <= |st'.results| <= |st.results| + 1 && st'.results[..|st.results|] == st.results &&
      st.ruleIds <= st'.ruleIds &&
      (|st'.results| == |st.results| + 1 <==> Qualifies(x.assessment) && ItemRuleId(x) !in st.ruleIds)
  {
  }

  /** The loop over `items`, from state `st`. */
  function Fold(st: MergeState, items: seq<Item>): MergeState {
    if items == [] then st else Step(Fold(st, items[..|items| - 1]), items[|items| - 1])
  }

  /** The loop only appends: the starting list stays a prefix, at most one result per item, no known id lost. */
  lemma {:induction false} FoldKeepsPrefix(st: MergeState, items: seq<Item>)
    ensures |st.results| <= |Fold(st, items).results| <= |st.results| + |items|
    ensures Fold(st, items).results[..|st.results|] == st.results
    ensures st.ruleIds <= Fold(st, items).ruleIds
    decreases |items|
  {
    if items != [] {
      var mid := Fold(st, items[..|items| - 1]);
      FoldKeepsPrefix(st, items[..|items| - 1]);
      StepAppendsOne(mid, items[|items| - 1]);
      assert Fold(st, items).results[..|st.results|] == Fold(st, items).results[..|mid.results|][..|st.results|];
    }
  }

  /**
   * Reference definition: item `p` is added when it qualifies, its rule id
   * is not among the `known` ones and no earlier item qualified with it.
   */
  predicate Admitted(items: seq<Item>, known: set<string>, p: int)
    requires 0 <= p < |items|
  {
    Qualifies(items[p].assessment) && ItemRuleId(items[p]) !in known &&
    ItemRuleId(items[p]) !in QualifyingIds(items[..p])
  }

  /** The new results made from the admitted items, in order. */
  function Selected(items: seq<Item>, known: set<string>): seq<Result> {
    if items == [] then []
    else
      Selected(items[..|items| - 1], known) +
      (if Admitted(items, known, |items| - 1) then [NewResult(items[|items| - 1])] else [])
  }

  /** Every result from `k` on has a rule id that no earlier result has. */
  predicate FreshRuleIdsFrom(rs: seq<Result>, k: nat) {
    forall j :: k <= j < |rs| ==>
      rs[j].ruleId.Some? && forall i :: 0 <= i < j ==> rs[i].ruleId != rs[j].ruleId
  }

  lemma {:induction false} FoldAppend(st: MergeState, a: seq<Item>, b: seq<Item>)
    ensures Fold(st, a + b) == Fold(Fold(st, a), b)
    decreases |b|
  {
    if b == [] {
      assert a + b == a;
    } else {
      var b' := b[..|b| - 1];
      assert (a + b)[..|a + b| - 1] == a + b';
      assert (a + b)[|a + b| - 1] == b[|b| - 1];
      FoldAppend(st, a, b');
    }
  }

  /** The known rule ids grow by exactly the qualifying items' rule ids. */
  lemma {:induction false} FoldRuleIds(st: MergeState, items: seq<Item>)
    ensures Fold(st, items).ruleIds == st.ruleIds + QualifyingIds(items)
    decreases |items|
  {
    if items != [] {
      FoldRuleIds(st, items[..|items| - 1]);
    }
  }

  /** The loop appends exactly the reference selection, after the results it started with. */
  lemma {:induction false} FoldResults(st: MergeState, items: seq<Item>)
    ensures Fold(st, items).results == st.results + Selected(items, st.ruleIds)
    decreases |items|
  {
    if items != [] {
      var prefix := items[..|items| - 1];
      FoldResults(st, prefix);
      FoldRuleIds(st, prefix);
    }
  }

  /** As many results are added as there are distinct new qualifying rule ids. */
  lemma {:induction false} SelectedCount(items: seq<Item>, known: set<string>)
    ensures |Selected(items, known)| == |QualifyingIds(items) - known|
    decreases |items|
  {
    if items != [] {
      var n := |items| - 1;
      var prefix, x := items[..n], items[n];
      SelectedCount(prefix, known);
      assert items[..n] == prefix;
      var before := QualifyingIds(prefix) - known;
      if Admitted(items, known, n) {
        assert QualifyingIds(items) - known == before + {ItemRuleId(x)};
      } else {
        assert QualifyingIds(items) - known == before;
      }
    }
  }

  /** Nothing is added when every qualifying rule id is already known. */
  lemma {:induction false} SelectedNone(items: seq<Item>, known: set<string>)
    requires QualifyingIds(items) <= known
    ensures Selected(items, known) == []
    decreases |items|
  {
    if items != [] {
      SelectedNone(items[..|items| - 1], known);
    }
  }

  /** Every appended result is the result of an admitted item. */
  lemma {:induction false} SelectedFromAdmitted(items: seq<Item>, known: set<string>, j: int)
    requires 0 <= j < |Selected(items, known)|
    ensures exists p :: 0 <= p < |items| && Admitted(items, known, p) && Selected(items, known)[j] == NewResult(items[p])
    decreases |items|
  {
    var n := |items| - 1;
    var prefix := items[..n];
    if j < |Selected(prefix, known)| {
      SelectedFromAdmitted(prefix, known, j);
      var p :| 0 <= p < |prefix| && Admitted(prefix, known, p) && Selected(prefix, known)[j] == NewResult(prefix[p]);
      AdmittedInPrefix(items, known, p);
    } else {
      assert Admitted(items, known, n);
    }
  }

  /** Every admitted item has its result among the appended ones. */
  lemma {:induction false} AdmittedIsSelected(items: seq<Item>, known: set<string>, p: int)
    requires 0 <= p < |items| && Admitted(items, known, p)
    ensures NewResult(items[p]) in Selected(items, known)
    decreases |items|
  {
    var n := |items| - 1;
    var prefix := items[..n];
    if p < n {
      AdmittedInPrefix(items, known, p);
      AdmittedIsSelected(prefix, known, p);
    }
  }

  /** Whether an item is admitted depends only on the items up to it. */
  lemma AdmittedInPrefix(items: seq<Item>, known: set<string>, p: int)
    requires 0 <= p < |items| - 1
    ensures Admitted(items[..|items| - 1], known, p) == Admitted(items, known, p)
  {
    assert items[..|items| - 1][..p] == items[..p];
  }

  /**
   * When the known rule ids are those of the results, the loop keeps it so,
   * and every result it appends carries a rule id no earlier result has.
   */
  lemma {:induction false} FoldFresh(st: MergeState, items: seq<Item>)
    requires st.ruleIds == RuleIdSet(st.results)
    ensures Fold(st, items).ruleIds == RuleIdSet(Fold(st, items).results)
    ensures FreshRuleIdsFrom(Fold(st, items).results, |st.results|)
    decreases |items|
  {
    if items != [] {
      var prefix, x := items[..|items| - 1], items[|items| - 1];
      FoldFresh(st, prefix);
      var mid := Fold(st, prefix);
      FoldResults(st, prefix);
      if Qualifies(x.assessment) && ItemRuleId(x) !in mid.ruleIds {
        var rs := mid.results + [NewResult(x)];
        assert rs[..|rs| - 1] == mid.results;
        assert RuleIdSet(rs) == mid.ruleIds + {ItemRuleId(x)};
        RuleIdSetMembers(mid.results, ItemRuleId(x));
        forall i | 0 <= i < |mid.results|
          ensures rs[i].ruleId != Some(ItemRuleId(x))
        {
          assert rs[i] == mid.results[i];
        }
      }
    }
  }

  /** Folding over one more control evaluation folds over its assessments. */
  lemma FoldNextControl(st: MergeState, cs: seq<Control>, j: int)
    requires 0 <= j < |cs|
    ensures Fold(st, ControlsItems(cs[..j + 1])) == Fold(Fold(st, ControlsItems(cs[..j])), AssessmentItems(cs[j]))
  {
    assert cs[..j + 1][..j] == cs[..j];
    FoldAppend(st, ControlsItems(cs[..j]), AssessmentItems(cs[j]));
  }

  /** Folding over one more suite folds over its control evaluations. */
  lemma FoldNextSuite(st: MergeState, ss: seq<Suite>, i: int)
    requires 0 <= i < |ss|
    ensures Fold(st, SuitesItems(ss[..i + 1])) == Fold(Fold(st, SuitesItems(ss[..i])), SuiteItems(ss[i]))
  {
    assert ss[..i + 1][..i] == ss[..i];
    FoldAppend(st, SuitesItems(ss[..i]), SuiteItems(ss[i]));
  }

  /** The innermost loop, over the assessments of one control evaluation. */
  method MergeControl(results: seq<Result>, ruleIds: set<string>, control: Control)
    returns (all: seq<Result>, ids: set<string>)
    ensures MergeState(all, ids) == Fold(MergeState(results, ruleIds), AssessmentItems(control))
  {
    ghost var start := MergeState(results, ruleIds);
    ghost var items := AssessmentItems(control);
    all, ids := results, ruleIds;
    var controlId := control.controlId.GetOr("");
    if control.assessments.Some? {
      var assessments := control.assessments.value;
      var k := 0;
      while k < |assessments|
        invariant 0 <= k <= |assessments| == |items|
        invariant MergeState(all, ids) == Fold(start, items[..k])
      {
        ghost var before := MergeState(all, ids);
        var assessment := assessments[k];
        var reqId := assessment.requirementId.GetOr("");
        var result := assessment.result.GetOr("");
        var message := assessment.message.GetOr("");
        assert items[k] == Item(controlId, assessment);
        assert Qualifies(assessment) <==> reqId != "" && result != "" && result != NotRun;
        assert ItemRuleId(items[k]) == controlId + "/" + reqId;
        if reqId != "" && result != "" && result != NotRun {
          var ruleId := controlId + "/" + reqId;
          if ruleId !in ids {
            var level := MapResultToSarifLevel(Some(result));
            var text := if message != "" then message else reqId + ": " + result;
            var sarifResult := Result(
              Some(ruleId), Some(level), Some(text),
              Some([Location(Some(PlaceholderPhysical), Some([LogicalLocation(Some(ruleId))]))]));
            assert sarifResult == NewResult(items[k]);
            all := all + [sarifResult];
            ids := ids + {ruleId};
          }
        }
        assert MergeState(all, ids) == Step(before, items[k]);
        assert items[..k + 1][..k] == items[..k];
        k := k + 1;
      }
      assert items[..k] == items;
    }
  }

  /** The outer two loops, over suites and their control evaluations. */
  method MergeAssessments(results: seq<Result>, ruleIds: set<string>, suites: seq<Suite>)
    returns (all: seq<Result>, ids: set<string>)
    ensures MergeState(all, ids) == Fold(MergeState(results, ruleIds), SuitesItems(suites))
  {
    ghost var start := MergeState(results, ruleIds);
    all, ids := results, ruleIds;
    var i := 0;
    while i < |suites|
      invariant 0 <= i <= |suites|
      invariant MergeState(all, ids) == Fold(start, SuitesItems(suites[..i]))
    {
      ghost var beforeSuite := MergeState(all, ids);
      var suite := suites[i];
      if suite.controlEvaluations.Some? {
        var controls := suite.controlEvaluations.value;
        var j := 0;
        while j < |controls|
          invariant 0 <= j <= |controls|
          invariant MergeState(all, ids) == Fold(beforeSuite, ControlsItems(controls[..j]))
        {
          all, ids := MergeControl(all, ids, controls[j]);
          FoldNextControl(beforeSuite, controls, j);
          j := j + 1;
        }
        assert controls[..j] == controls;
      }
      FoldNextSuite(start, suites, i);
      i := i + 1;
    }
    assert suites[..i] == suites;
  }
}
