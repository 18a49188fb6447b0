/**
 * The classifier that turns an assessment verdict into one of the four
 * values of a SARIF result's `level` property: "error", "warning", "note"
 * and "none", ignoring letter case.
 */
module SarifLevel {
  import opened Options

  /** ASCII lower-casing of one character. */
  function LowerChar(c: char): char {
    if 'A' <= c <= 'Z' then (c as int + 32) as char else c
  }

  /** ASCII lower-casing of a string, character by character. */
  function Lower(s: string): (r: string)
    ensures |r| == |s|
    ensures forall i :: 0 <= i < |s| ==> r[i] == LowerChar(s[i])
  {
    if s == [] then [] else [LowerChar(s[0])] + Lower(s[1..])
  }

  /** Two strings that agree once both are lower-cased. */
  predicate EqualsIgnoreCase(s: string, t: string) {
    |s| == |t| && forall i :: 0 <= i < |s| ==> LowerChar(s[i]) == LowerChar(t[i])
  }

  predicate IsErrorWord(s: string) {
    EqualsIgnoreCase(s, "failed") || EqualsIgnoreCase(s, "error")
  }

  predicate IsWarningWord(s: string) {
    EqualsIgnoreCase(s, "warn") || EqualsIgnoreCase(s, "warning") || EqualsIgnoreCase(s, "needs review")
  }

  predicate IsNoteWord(s: string) {
    EqualsIgnoreCase(s, "passed") || EqualsIgnoreCase(s, "pass")
  }

  /** The verdict classifier; `None` is a missing verdict. */
  function MapResultToSarifLevel(result: Option<string>): (level: string)
    ensures level == "error" || level == "warning" || level == "note" || level == "none"
  {
    var lowered := if result.Some? && result.value != "" then Lower(result.value) else "";
    if lowered == "failed" || lowered == "error" then "error"
    else if lowered == "warn" || lowered == "warning" || lowered == "needs review" then "warning"
    else if lowered == "passed" || lowered == "pass" then "note"
    else "none"
  }

  /** Lower-casing `s` yields the all-lower-case word `t` exactly when `s` equals `t` ignoring case. */
  lemma LowerMatches(s: string, t: string)
    requires forall i :: 0 <= i < |t| ==> LowerChar(t[i]) == t[i]
    ensures Lower(s) == t <==> EqualsIgnoreCase(s, t)
  {
    if EqualsIgnoreCase(s, t) {
      assert forall i :: 0 <= i < |s| ==> Lower(s)[i] == t[i];
    }
  }

  /** The seven keywords, each compared with `s` ignoring case. */
  lemma LowerMatchesKeywords(s: string)
    ensures Lower(s) == "failed" <==> EqualsIgnoreCase(s, "failed")
    ensures Lower(s) == "error" <==> EqualsIgnoreCase(s, "error")
    ensures Lower(s) == "warn" <==> EqualsIgnoreCase(s, "warn")
    ensures Lower(s) == "warning" <==> EqualsIgnoreCase(s, "warning")
    ensures Lower(s) == "needs review" <==> EqualsIgnoreCase(s, "needs review")
    ensures Lower(s) == "passed" <==> EqualsIgnoreCase(s, "passed")
    ensures Lower(s) == "pass" <==> EqualsIgnoreCase(s, "pass")
  {
    LowerMatches(s, "failed");
    LowerMatches(s, "error");
    LowerMatches(s, "warn");
    LowerMatches(s, "warning");
    LowerMatches(s, "needs review");
    LowerMatches(s, "passed");
    LowerMatches(s, "pass");
  }

  /** "error" exactly for `failed` or `error`, in any letter case. */
  lemma ErrorExactly(result: Option<string>)
    ensures MapResultToSarifLevel(result) == "error" <==> result.Some? && IsErrorWord(result.value)
  {
    if result.Some? { LowerMatchesKeywords(result.value); }
  }

  /** "warning" exactly for `warn`, `warning` or `needs review`, in any letter case. */
  lemma WarningExactly(result: Option<string>)
    ensures MapResultToSarifLevel(result) == "warning" <==> result.Some? && IsWarningWord(result.value)
  {
    if result.Some? { LowerMatchesKeywords(result.value); }
  }

  /** "note" exactly for `passed` or `pass`, in any letter case. */
  lemma NoteExactly(result: Option<string>)
    ensures MapResultToSarifLevel(result) == "note" <==> result.Some? && IsNoteWord(result.value)
  {
    if result.Some? { LowerMatchesKeywords(result.value); }
  }

  /** "none" for a missing verdict and for every string that is none of the seven keywords. */
  lemma NoneOtherwise(result: Option<string>)
    ensures MapResultToSarifLevel(result) == "none" <==>
      result.None? || !(IsErrorWord(result.value) || IsWarningWord(result.value) || IsNoteWord(result.value))
  {
    if result.Some? { LowerMatchesKeywords(result.value); }
  }

  /** Verdicts that differ only in letter case get the same level. */
  lemma CaseInsensitive(s: string, t: string)
    requires EqualsIgnoreCase(s, t)
    ensures MapResultToSarifLevel(Some(s)) == MapResultToSarifLevel(Some(t))
  {
    assert Lower(s) == Lower(t);
  }
}
