/**
 * The parsed assessment report: evaluation suites, their control
 * evaluations and each control's assessments. Every property is optional
 * (`None` is an absent key), as `dict.get` and the `in` tests read them.
 */
module Assessments {
  import opened Options

  datatype Assessment = Assessment(requirementId: Option<string>, result: Option<string>, message: Option<string>)

  datatype Control = Control(controlId: Option<string>, assessments: Option<seq<Assessment>>)

  datatype Suite = Suite(controlEvaluations: Option<seq<Control>>)

  datatype Report = Report(evaluationSuites: Option<seq<Suite>>)

  /** One assessment together with the id of the control it belongs to (`""` when absent). */
  datatype Item = Item(controlId: string, assessment: Assessment)

  /** The assessments of one control, in order. */
  function AssessmentItems(c: Control): (items: seq<Item>)
    ensures c.assessments.None? ==> items == []
    ensures c.assessments.Some? ==> |items| == |c.assessments.value|
    ensures forall k :: 0 <= k < |items| ==>
      items[k].controlId == c.controlId.GetOr("") && items[k].assessment == c.assessments.value[k]
  {
    if c.assessments.None? then []
    else
      var list := c.assessments.value;
      seq(|list|, k requires 0 <= k < |list| => Item(c.controlId.GetOr(""), list[k]))
  }

  /** The assessments of a list of controls, in the order the nested loops visit them. */
  function ControlsItems(cs: seq<Control>): seq<Item> {
    if cs == [] then [] else ControlsItems(cs[..|cs| - 1]) + AssessmentItems(cs[|cs| - 1])
  }

  function SuiteItems(s: Suite): seq<Item> {
    if s.controlEvaluations.None? then [] else ControlsItems(s.controlEvaluations.value)
  }

  function SuitesItems(ss: seq<Suite>): seq<Item> {
    if ss == [] then [] else SuitesItems(ss[..|ss| - 1]) + SuiteItems(ss[|ss| - 1])
  }

  /** Every assessment of the report in visiting order; none for a missing or unreadable report. */
  function ReportItems(report: Option<Report>): (items: seq<Item>)
    ensures report.None? || report.value.evaluationSuites.None? ==> items == []
  {
    if report.None? || report.value.evaluationSuites.None? then []
    else SuitesItems(report.value.evaluationSuites.value)
  }

  /** An item is visited for a list of controls exactly when it is an assessment of one of them. */
  lemma {:induction false} ControlsItemsMembers(cs: seq<Control>, x: Item)
    ensures x in ControlsItems(cs) <==> exists j :: 0 <= j < |cs| && x in AssessmentItems(cs[j])
    decreases |cs|
  {
    if cs != [] {
      var prefix := cs[..|cs| - 1];
      ControlsItemsMembers(prefix, x);
      assert forall j :: 0 <= j < |prefix| ==> prefix[j] == cs[j];
    }
  }

  /** An item is visited for a list of suites exactly when it is an assessment of one of their controls. */
  lemma {:induction false} SuitesItemsMembers(ss: seq<Suite>, x: Item)
    ensures x in SuitesItems(ss) <==> exists i :: 0 <= i < |ss| && x in SuiteItems(ss[i])
    decreases |ss|
  {
    if ss != [] {
      var prefix := ss[..|ss| - 1];
      SuitesItemsMembers(prefix, x);
      assert forall i :: 0 <= i < |prefix| ==> prefix[i] == ss[i];
    }
  }

  /**
   * The report's items are exactly the assessments of the controls of its
   * suites, each tagged with its control id.
   */
  lemma ReportItemsMembers(report: Option<Report>, x: Item)
    ensures x in ReportItems(report) <==>
      && report.Some? && report.value.evaluationSuites.Some?
      && exists i, j :: 0 <= i < |report.value.evaluationSuites.value| &&
           var s := report.value.evaluationSuites.value[i];
           s.controlEvaluations.Some? && 0 <= j < |s.controlEvaluations.value| &&
           x in AssessmentItems(s.controlEvaluations.value[j])
  {
    if report.Some? && report.value.evaluationSuites.Some? {
      var ss := report.value.evaluationSuites.value;
      SuitesItemsMembers(ss, x);
      forall i | 0 <= i < |ss| && ss[i].controlEvaluations.Some? {
        ControlsItemsMembers(ss[i].controlEvaluations.value, x);
      }
    }
  }
}
