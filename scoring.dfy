/**
 * Answer scoring shared by the two test drivers (test/overall_test.py and test/unit_test.py):
 * `evaluate_answer` in its two variants. Both files define `extract_hts_code` with the
 * same pattern; it is `AnswerPatterns.ExtractHtsCode`.
 */
module Scoring {
  import opened Wrappers
  import opened PyText
  import opened AnswerPatterns

  /** `code.replace(".", "")`. */
  function RemoveDots(s: string): (r: string)
    ensures forall k :: 0 <= k < |r| ==> r[k] != '.'
    ensures |r| <= |s|
    ensures (forall k :: 0 <= k < |s| ==> s[k] != '.') ==> r == s
  {
    if s == [] then []
    else if s[0] == '.' then RemoveDots(s[1..])
    else [s[0]] + RemoveDots(s[1..])
  }

  /** Removing dots commutes with concatenation, so dots never decide a comparison. */
  lemma {:induction false} RemoveDotsAppend(a: string, b: string)
    ensures RemoveDots(a + b) == RemoveDots(a) + RemoveDots(b)
  {
    if a != [] {
      assert (a + b)[0] == a[0] && (a + b)[1..] == a[1..] + b;
      RemoveDotsAppend(a[1..], b);
    } else {
      assert a + b == b;
    }
  }

  /** The acceptance test: after removing dots, either code is a prefix of the other. */
  predicate CodesAgree(extracted: string, expected: string) {
    var x, e := RemoveDots(extracted), RemoveDots(expected);
    StartsWith(x, e) || StartsWith(e, x)
  }

  /** The acceptance test does not care which code is the extracted one. */
  lemma CodesAgreeSymmetric(x: string, e: string)
    ensures CodesAgree(x, e) <==> CodesAgree(e, x)
  {
  }

  /** A more specific code (the expected digits followed by more) is accepted, and so is a less specific one. */
  lemma {:induction false} MoreSpecificAccepted(expected: string, extra: string)
    ensures CodesAgree(expected + extra, expected)
    ensures CodesAgree(expected, expected + extra)
  {
    RemoveDotsAppend(expected, extra);
    var e := RemoveDots(expected);
    assert (e + RemoveDots(extra))[..|e|] == e;
  }

  /** `(correct, reason)` as returned by `evaluate_answer`. */
  datatype Verdict = Verdict(correct: bool, reason: string)

  const EmptyAnswer := "Empty answer"
  const NoCodeFound := "No HTS code found"

  /**
   * `evaluate_answer` of test/overall_test.py, where `None` stands for an ambiguous query
   * that any code answers. A blank answer and an answer without a code are rejected with
   * fixed reasons; otherwise the verdict is the prefix test, and the reason names both codes.
   */
  function EvaluateAnswer(answer: string, expected: Option<string>): (v: Verdict)
    ensures Blank(answer) ==> v == Verdict(false, EmptyAnswer)
    ensures !Blank(answer) && ExtractHtsCode(answer).None? ==> v == Verdict(false, NoCodeFound)
    ensures v.correct <==>
      && !Blank(answer)
      && ExtractHtsCode(answer).Some?
      && (expected.None? || CodesAgree(ExtractHtsCode(answer).value, expected.value))
    ensures v.correct && expected.Some? ==> StartsWith(v.reason, "Matched: ")
    ensures !v.correct && !Blank(answer) && ExtractHtsCode(answer).Some? ==> StartsWith(v.reason, "Mismatch: ")
  {
    if Blank(answer) then Verdict(false, EmptyAnswer)
    else
      match ExtractHtsCode(answer)
      case None => Verdict(false, NoCodeFound)
      case Some(code) =>
        match expected
        case None => Verdict(true, "Returned a valid code for ambiguous query: " + code)
        case Some(exp) =>
          var pair := code + " vs " + exp;
          if CodesAgree(code, exp) then StartsWithConcat("Matched: ", pair); Verdict(true, "Matched: " + pair)
          else StartsWithConcat("Mismatch: ", pair); Verdict(false, "Mismatch: " + pair)
  }

  /** `evaluate_answer` of test/unit_test.py: the same checks without the `None` branch. */
  function EvaluateAnswerUnit(answer: string, expected: string): (v: Verdict)
    ensures v == EvaluateAnswer(answer, Some(expected))
  {
    if Blank(answer) then Verdict(false, EmptyAnswer)
    else
      match ExtractHtsCode(answer)
      case None => Verdict(false, NoCodeFound)
      case Some(code) =>
        var pair := code + " vs " + expected;
        if CodesAgree(code, expected) then Verdict(true, "Matched: " + pair)
        else Verdict(false, "Mismatch: " + pair)
  }

  /** A dot anywhere in either code never changes the verdict. */
  lemma DotsIgnored(x: string, y: string, e: string)
    ensures CodesAgree(x + "." + y, e) == CodesAgree(x + y, e)
    ensures CodesAgree(e, x + "." + y) == CodesAgree(e, x + y)
  {
    RemoveDotsAppend(x + ".", y);
    RemoveDotsAppend(x, ".");
    RemoveDotsAppend(x, y);
    assert RemoveDots(".") == [] by {
      assert "."[1..] == [];
    }
    assert RemoveDots(x) + [] == RemoveDots(x);
  }
}
