/**
 * The placeholder report evaluation `evaluateSubmission` (ui/app.js lines
 * 105-111) and the report text the submit form hands it (lines 152-157).
 */
module Submission {
  import opened Wrappers

  /** The characters JavaScript's `String.prototype.trim` strips: ECMAScript WhiteSpace and LineTerminator. */
  predicate IsJsWhitespace(c: char) {
    c == '\t' || c == '\n' || c == '\U{000B}' || c == '\U{000C}' || c == '\r' || c == ' '
    || c == '\U{00A0}' || c == '\U{1680}' || ('\U{2000}' <= c <= '\U{200A}')
    || c == '\U{2028}' || c == '\U{2029}' || c == '\U{202F}' || c == '\U{205F}'
    || c == '\U{3000}' || c == '\U{FEFF}'
  }

  predicate AllWhitespace(s: string) {
    forall i :: 0 <= i < |s| ==> IsJsWhitespace(s[i])
  }

  /** Strips leading whitespace: what is dropped is all whitespace and what is kept does not start with it. */
  function TrimStart(s: string): (r: string)
    ensures |r| <= |s| && r == s[|s| - |r|..]
    ensures AllWhitespace(s[..|s| - |r|])
    ensures r != [] ==> !IsJsWhitespace(r[0])
  {
    if s != [] && IsJsWhitespace(s[0]) then
      var r := TrimStart(s[1..]);
      assert s[..|s| - |r|] == [s[0]] + s[1..][..|s| - 1 - |r|];
      r
    else s
  }

  /** Strips trailing whitespace: what is dropped is all whitespace and what is kept does not end with it. */
  function TrimEnd(s: string): (r: string)
    ensures |r| <= |s| && r == s[..|r|]
    ensures AllWhitespace(s[|r|..])
    ensures r != [] ==> !IsJsWhitespace(r[|r| - 1])
  {
    if s != [] && IsJsWhitespace(s[|s| - 1]) then
      var r := TrimEnd(s[..|s| - 1]);
      assert s[|r|..] == s[..|s| - 1][|r|..] + [s[|s| - 1]];
      r
    else s
  }

  lemma BlankPrefixAndTail(s: string, i: nat)
    requires i <= |s| && AllWhitespace(s[..i]) && AllWhitespace(s[i..])
    ensures AllWhitespace(s)
  {
    forall j | 0 <= j < |s| ensures IsJsWhitespace(s[j]) {
      if j < i { assert s[j] == s[..i][j]; } else { assert s[j] == s[i..][j - i]; }
    }
  }

  lemma TrimBothEnds(s: string, i: nat, u: string, r: string)
    requires i <= |s| && u == s[i..] && AllWhitespace(s[..i])
    requires |r| <= |u| && r == u[..|r|] && AllWhitespace(u[|r|..])
    ensures i + |r| <= |s| && r == s[i..i + |r|]
    ensures AllWhitespace(s[i + |r|..])
    ensures r == [] ==> AllWhitespace(s)
  {
    assert s[i + |r|..] == u[|r|..];
    if r == [] { BlankPrefixAndTail(s, i); }
  }

  /** How many whitespace characters `trim` strips from the front of `s`. */
  function Lead(s: string): (n: nat)
    ensures n <= |s| && AllWhitespace(s[..n])
    ensures n < |s| ==> !IsJsWhitespace(s[n])
  {
    |s| - |TrimStart(s)|
  }

  /**
   * `s.trim()`: the slice of `s` left after dropping a blank run at each end,
   * with whitespace at neither of its own ends; empty exactly when `s` is all
   * whitespace.
   */
  function Trim(s: string): (r: string)
    ensures Lead(s) + |r| <= |s| && r == s[Lead(s)..Lead(s) + |r|]
    ensures AllWhitespace(s[..Lead(s)]) && AllWhitespace(s[Lead(s) + |r|..])
    ensures r != [] ==> !IsJsWhitespace(r[0]) && !IsJsWhitespace(r[|r| - 1])
    ensures r == [] <==> AllWhitespace(s)
  {
    var u := TrimStart(s);
    var r := TrimEnd(u);
    TrimBothEnds(s, Lead(s), u, r);
    r
  }

  /** The object `evaluateSubmission` returns; `advanceTo` is missing on rejection. */
  datatype SubmissionResult = SubmissionResult(ok: bool, message: string, advanceTo: Option<nat>)

  const RejectedMessage := "Submission rejected: missing hypothesis."
  const AcceptedMessage := "Submission accepted. Additional material located."

  /**
   * `evaluateSubmission(text)`: rejected exactly when the text (a missing
   * text read as empty) is blank after trimming; otherwise accepted, always
   * with target level 1. There is no level cap.
   */
  function EvaluateSubmission(text: Option<string>): (r: SubmissionResult)
    ensures !r.ok <==> AllWhitespace(text.GetOr(""))
    ensures !r.ok ==> r.message == RejectedMessage && r.advanceTo.None?
    ensures r.ok ==> r.message == AcceptedMessage && r.advanceTo == Some(1)
  {
    var h := Trim(text.GetOr(""));
    if h == [] then SubmissionResult(false, RejectedMessage, None)
    else SubmissionResult(true, AcceptedMessage, Some(1))
  }

  /** `[facts, tl, hyp, conf].join("\n")`. */
  function ReportText(facts: string, timeline: string, hypothesis: string, confidence: string): string {
    facts + "\n" + timeline + "\n" + hypothesis + "\n" + confidence
  }

  /** The values the form's confidence selector offers. */
  predicate IsConfidenceOption(c: string) {
    c == "Low" || c == "Medium" || c == "High"
  }

  lemma AllWhitespaceConcat(a: string, b: string)
    ensures AllWhitespace(a + b) <==> AllWhitespace(a) && AllWhitespace(b)
  {
    if AllWhitespace(a + b) {
      forall i | 0 <= i < |b| ensures IsJsWhitespace(b[i]) {
        assert b[i] == (a + b)[|a| + i];
      }
      forall i | 0 <= i < |a| ensures IsJsWhitespace(a[i]) {
        assert a[i] == (a + b)[i];
      }
    }
  }

  /** A report is rejected exactly when all four fields are blank: the separators are themselves whitespace. */
  lemma ReportRejectedIffBlank(facts: string, timeline: string, hypothesis: string, confidence: string)
    ensures !EvaluateSubmission(Some(ReportText(facts, timeline, hypothesis, confidence))).ok
        <==> AllWhitespace(facts) && AllWhitespace(timeline) && AllWhitespace(hypothesis) && AllWhitespace(confidence)
  {
    var nl := "\n";
    assert AllWhitespace(nl);
    AllWhitespaceConcat(facts, nl);
    AllWhitespaceConcat(facts + nl, timeline);
    AllWhitespaceConcat(facts + nl + timeline, nl);
    AllWhitespaceConcat(facts + nl + timeline + nl, hypothesis);
    AllWhitespaceConcat(facts + nl + timeline + nl + hypothesis, nl);
    AllWhitespaceConcat(facts + nl + timeline + nl + hypothesis + nl, confidence);
  }

  /**
   * The confidence selector always supplies a non-blank value, so a report
   * filed from the form is always accepted, with target level 1: the
   * rejection branch cannot be reached from the form.
   */
  lemma FormReportAccepted(facts: string, timeline: string, hypothesis: string, confidence: string)
    requires IsConfidenceOption(confidence)
    ensures EvaluateSubmission(Some(ReportText(facts, timeline, hypothesis, confidence))).ok
    ensures EvaluateSubmission(Some(ReportText(facts, timeline, hypothesis, confidence))).advanceTo == Some(1)
  {
    ReportRejectedIffBlank(facts, timeline, hypothesis, confidence);
    assert !IsJsWhitespace(confidence[0]);
  }
}
