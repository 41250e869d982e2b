/**
 * The clearance level: its storage under a fixed key (ui/app.js lines 1-11)
 * and the read-max-write update of the file-report handler (lines 151-170).
 */
module Progress {
  import opened Wrappers
  import opened Submission

  predicate IsDigit(c: char) {
    '0' <= c <= '9'
  }

  predicate AllDigits(s: string) {
    forall i :: 0 <= i < |s| ==> IsDigit(s[i])
  }

  function DigitChar(d: nat): (c: char)
    requires d < 10
    ensures IsDigit(c)
  {
    (48 + d) as char
  }

  /** `String(n)` for a non-negative integer: its canonical decimal form. */
  function NatToDecimal(n: nat): (r: string)
    ensures r != [] && AllDigits(r)
    ensures |r| > 1 ==> r[0] != '0'
    decreases n
  {
    if n < 10 then [DigitChar(n)]
    else NatToDecimal(n / 10) + [DigitChar(n % 10)]
  }

  /** `Number(s)` for a string of decimal digits (an empty string reads as 0). */
  function DecimalToNat(s: string): nat
    requires AllDigits(s)
  {
    if s == [] then 0
    else DecimalToNat(s[..|s| - 1]) * 10 + ((s[|s| - 1] as int) - 48)
  }

  /** Writing a level and reading it back gives the level: the decimal codec round-trips. */
  lemma {:induction false} DecimalRoundTrip(n: nat)
    ensures DecimalToNat(NatToDecimal(n)) == n
    decreases n
  {
    if n >= 10 {
      var r := NatToDecimal(n);
      assert r[..|r| - 1] == NatToDecimal(n / 10);
      DecimalRoundTrip(n / 10);
    }
  }

  /**
   * The page's storage, as far as the level is concerned: the text stored
   * under the key "case_progress_v1", or `None` when the key is absent.
   */
  class ClearanceStore {
    var item: Option<string>

    /** Every value the store holds was written as a decimal level. */
    ghost predicate Valid()
      reads this
    {
      item.Some? ==> AllDigits(item.value)
    }

    /** The level the stored text denotes; an absent key denotes 0. */
    ghost function Level(): nat
      reads this
      requires Valid()
    {
      if item.None? then 0 else DecimalToNat(item.value)
    }

    /** The store as the page finds it on load. */
    constructor (initial: Option<string>)
      requires initial.Some? ==> AllDigits(initial.value)
      ensures Valid() && item == initial
    {
      item := initial;
    }

    /** `getProgress()`: `Number(item || "0")`; an absent or empty value reads as 0. */
    method GetProgress() returns (n: nat)
      requires Valid()
      ensures n == Level()
      ensures item.None? ==> n == 0
    {
      var text := if item.None? || item.value == "" then "0" else item.value;
      assert DecimalToNat("0") == 0 == DecimalToNat("");
      n := DecimalToNat(text);
    }

    /** `setProgress(n)`: stores `String(n)`; reading back afterwards gives `n`. */
    method SetProgress(n: nat)
      modifies this
      ensures Valid() && item == Some(NatToDecimal(n))
      ensures Level() == n
    {
      item := Some(NatToDecimal(n));
      DecimalRoundTrip(n);
    }

    /** `resetProgress()`: removes the key, so the level reads 0; the new state does not depend on the old one, so a second reset changes nothing. */
    method ResetProgress()
      modifies this
      ensures Valid() && item == None
      ensures Level() == 0
    {
      item := None;
    }
  }

  function Max(a: nat, b: nat): nat {
    if a >= b then a else b
  }

  /**
   * `Math.max(stored, advanceTo ?? stored)`: the level after an accepted
   * report. It never falls below the stored level, it is the stored level
   * when no target is given, and otherwise it is the larger of the two.
   */
  function Advance(stored: nat, advanceTo: Option<nat>): (r: nat)
    ensures r >= stored
    ensures advanceTo.None? ==> r == stored
    ensures advanceTo.Some? ==> r >= advanceTo.value && (r == stored || r == advanceTo.value)
  {
    Max(stored, advanceTo.GetOr(stored))
  }

  /** Applying the same advancement twice gives the level applying it once does. */
  lemma AdvanceIdempotent(stored: nat, advanceTo: Option<nat>)
    ensures Advance(Advance(stored, advanceTo), advanceTo) == Advance(stored, advanceTo)
  {
  }

  /**
   * The "file report" click handler, given the four form field values: an
   * unaccepted report leaves the store untouched; an accepted one stores the
   * advanced level and returns it. Either way the level never decreases, and
   * a report filed with one of the selector's confidence values always
   * raises the level to at least 1.
   */
  method FileReport(store: ClearanceStore, facts: string, timeline: string, hypothesis: string, confidence: string)
    returns (result: SubmissionResult, newLevel: Option<nat>)
    requires store.Valid()
    modifies store
    ensures store.Valid()
    ensures result == EvaluateSubmission(Some(ReportText(facts, timeline, hypothesis, confidence)))
    ensures !result.ok ==> store.item == old(store.item) && newLevel.None?
    ensures result.ok ==> newLevel == Some(store.Level())
    ensures result.ok ==> store.item == Some(NatToDecimal(newLevel.value))
    ensures result.ok ==> store.Level() == Advance(old(store.Level()), result.advanceTo)
    ensures store.Level() >= old(store.Level())
    ensures IsConfidenceOption(confidence) ==> result.ok && store.Level() >= 1
  {
    if IsConfidenceOption(confidence) {
      FormReportAccepted(facts, timeline, hypothesis, confidence);
    }
    result := EvaluateSubmission(Some(ReportText(facts, timeline, hypothesis, confidence)));
    if !result.ok {
      newLevel := None;
      return;
    }
    // Both reads of the store in the handler see the same value, so one read serves both.
    var stored := store.GetProgress();
    var level := Max(stored, result.advanceTo.GetOr(stored));
    store.SetProgress(level);
    newLevel := Some(level);
  }
}
