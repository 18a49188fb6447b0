/**
 * The part of a SARIF 2.1.0 document that the enrichment reads or writes.
 * Every property is optional (`None` is an absent key); properties the
 * enrichment never touches are not represented.
 */
module SarifModel {
  import opened Options

  /** `physicalLocation`, reduced to `artifactLocation.uri`. */
  datatype PhysicalLocation = PhysicalLocation(artifactUri: Option<string>)

  datatype LogicalLocation = LogicalLocation(fullyQualifiedName: Option<string>)

  datatype Location = Location(
    physicalLocation: Option<PhysicalLocation>,
    logicalLocations: Option<seq<LogicalLocation>>)

  /** A SARIF `result`; `messageText` is `message.text`. */
  datatype Result = Result(
    ruleId: Option<string>,
    level: Option<string>,
    messageText: Option<string>,
    locations: Option<seq<Location>>)

  /** `tool.driver`; `rules` is reduced to the rule ids it lists. */
  datatype Driver = Driver(name: Option<string>, version: Option<string>, rules: Option<seq<string>>)

  datatype Tool = Tool(driver: Option<Driver>)

  datatype Run = Run(tool: Option<Tool>, results: Option<seq<Result>>)

  datatype Doc = Doc(runs: Option<seq<Run>>)

  const PlaceholderUri := "README.md"
  const DefaultDriverName := "OSPS Security Assessment"
  const DefaultDriverVersion := "1.0.0"

  /** The repository-level location used wherever a physical location is missing. */
  const PlaceholderPhysical := PhysicalLocation(Some(PlaceholderUri))
  const PlaceholderLocation := Location(Some(PlaceholderPhysical), None)

  /** The run inserted into a document that has none. */
  const DefaultRun := Run(Some(Tool(Some(Driver(Some(DefaultDriverName), Some(DefaultDriverVersion), None)))), Some([]))

  predicate HasPhysical(l: Location) {
    l.physicalLocation.Some?
  }

  /** A result that code scanning accepts: at least one location, each with a physical location. */
  predicate Located(r: Result) {
    r.locations.Some? && |r.locations.value| > 0 &&
    forall j :: 0 <= j < |r.locations.value| ==> HasPhysical(r.locations.value[j])
  }

  function BackfillLocation(l: Location): (l': Location)
    ensures HasPhysical(l')
    ensures HasPhysical(l) ==> l' == l
    ensures !HasPhysical(l) ==> l' == l.(physicalLocation := Some(PlaceholderPhysical))
  {
    if l.physicalLocation.None? then l.(physicalLocation := Some(PlaceholderPhysical)) else l
  }

  /** Every location back-filled, in order. */
  function BackfilledLocations(locs: seq<Location>): (locs': seq<Location>)
    ensures |locs'| == |locs|
    ensures forall j :: 0 <= j < |locs| ==> HasPhysical(locs'[j])
    ensures forall j :: 0 <= j < |locs| && HasPhysical(locs[j]) ==> locs'[j] == locs[j]
    ensures forall j :: 0 <= j < |locs| && !HasPhysical(locs[j]) ==>
      locs'[j] == locs[j].(physicalLocation := Some(PlaceholderPhysical))
  {
    seq(|locs|, j requires 0 <= j < |locs| => BackfillLocation(locs[j]))
  }

  /** A result after the placeholder back-fill. */
  function BackfillResult(r: Result): (r': Result)
    ensures Located(r')
    ensures r'.ruleId == r.ruleId && r'.level == r.level && r'.messageText == r.messageText
    ensures Located(r) ==> r' == r
    ensures r.locations.None? || r.locations.value == [] ==> r'.locations == Some([PlaceholderLocation])
    ensures r.locations.Some? && r.locations.value != [] ==>
      |r'.locations.value| == |r.locations.value| &&
      forall j :: 0 <= j < |r.locations.value| ==>
        r'.locations.value[j] == BackfillLocation(r.locations.value[j]) &&
        (HasPhysical(r.locations.value[j]) ==> r'.locations.value[j] == r.locations.value[j]) &&
        (!HasPhysical(r.locations.value[j]) ==>
           r'.locations.value[j].physicalLocation == Some(PhysicalLocation(Some(PlaceholderUri)))) &&
        r'.locations.value[j].logicalLocations == r.locations.value[j].logicalLocations
  {
    if r.locations.None? || |r.locations.value| == 0 then
      r.(locations := Some([PlaceholderLocation]))
    else
      var locs' := BackfilledLocations(r.locations.value);
      assert Located(r) ==> locs' == r.locations.value;
      r.(locations := Some(locs'))
  }

  /** Every result back-filled, in order. */
  function BackfilledResults(rs: seq<Result>): (rs': seq<Result>)
    ensures |rs'| == |rs|
    ensures forall i :: 0 <= i < |rs| ==> Located(rs'[i]) && rs'[i].ruleId == rs[i].ruleId
    ensures forall i :: 0 <= i < |rs| && Located(rs[i]) ==> rs'[i] == rs[i]
  {
    seq(|rs|, i requires 0 <= i < |rs| => BackfillResult(rs[i]))
  }

  function RuleIdsOf(r: Result): set<string> {
    if r.ruleId.Some? then {r.ruleId.value} else {}
  }

  /** The rule ids present among `rs`. */
  function RuleIdSet(rs: seq<Result>): set<string> {
    if rs == [] then {} else RuleIdSet(rs[..|rs| - 1]) + RuleIdsOf(rs[|rs| - 1])
  }

  /** A string is a collected rule id exactly when some result has it as its rule id. */
  lemma {:induction false} RuleIdSetMembers(rs: seq<Result>, x: string)
    ensures x in RuleIdSet(rs) <==> exists i :: 0 <= i < |rs| && rs[i].ruleId == Some(x)
    decreases |rs|
  {
    if rs != [] {
      var prefix := rs[..|rs| - 1];
      RuleIdSetMembers(prefix, x);
      assert forall i :: 0 <= i < |prefix| ==> prefix[i] == rs[i];
    }
  }

  /** The back-fill changes no rule id, so the set of rule ids is the same. */
  lemma BackfillKeepsRuleIds(rs: seq<Result>)
    ensures RuleIdSet(BackfilledResults(rs)) == RuleIdSet(rs)
  {
    var bs := BackfilledResults(rs);
    forall x ensures x in RuleIdSet(bs) <==> x in RuleIdSet(rs) {
      RuleIdSetMembers(bs, x);
      RuleIdSetMembers(rs, x);
      if x in RuleIdSet(rs) {
        var i :| 0 <= i < |rs| && rs[i].ruleId == Some(x);
        assert bs[i].ruleId == Some(x);
      }
    }
  }

  /** Back-filling twice is back-filling once; located results are left alone. */
  lemma BackfillIdempotent(rs: seq<Result>)
    requires forall i :: 0 <= i < |rs| ==> Located(rs[i])
    ensures BackfilledResults(rs) == rs
  {
  }

  /** `tool.driver` after the name default and the removal of `rules`. */
  function NormalisedDriver(d: Driver): (d': Driver)
    ensures d'.name.Some? && d'.name.value != ""
    ensures d.name.Some? && d.name.value != "" ==> d'.name == d.name
    ensures d.name.None? || d.name.value == "" ==> d'.name == Some(DefaultDriverName)
    ensures d'.version == d.version && d'.rules.None?
  {
    var name := if d.name.None? || d.name.value == "" then Some(DefaultDriverName) else d.name;
    d.(name := name, rules := None)
  }

  /** Normalising a normalised driver changes nothing. */
  lemma NormalisedDriverIdempotent(d: Driver)
    ensures NormalisedDriver(NormalisedDriver(d)) == NormalisedDriver(d)
  {
  }

  /** The run with its driver normalised when it has `tool.driver`, untouched otherwise. */
  function NormalisedTool(run: Run): (run': Run)
    ensures run'.results == run.results
    ensures run.tool.None? || run.tool.value.driver.None? ==> run'.tool == run.tool
    ensures run.tool.Some? && run.tool.value.driver.Some? ==>
      run'.tool == Some(run.tool.value.(driver := Some(NormalisedDriver(run.tool.value.driver.value))))
  {
    if run.tool.Some? && run.tool.value.driver.Some? then
      run.(tool := Some(run.tool.value.(driver := Some(NormalisedDriver(run.tool.value.driver.value)))))
    else run
  }

  /** Normalising a normalised run, whatever its results, changes nothing. */
  lemma NormalisedToolIdempotent(run: Run, results: Option<seq<Result>>)
    ensures NormalisedTool(NormalisedTool(run).(results := results)) == NormalisedTool(run).(results := results)
  {
    if run.tool.Some? && run.tool.value.driver.Some? {
      NormalisedDriverIdempotent(run.tool.value.driver.value);
    }
  }
}
