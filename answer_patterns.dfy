/**
 * The three fixed regular expressions applied to LLM answers, written as scanners with
 * the semantics of Python's `re.search`: the leftmost position where the pattern matches,
 * greedy `\s*` and `[...]+`, lazy `.*?` stopped by the first satisfied lookahead.
 *
 *   `HTS Code:\s*([0-9\.]+)`                          (agents/myagent.py and both test drivers)
 *   `Justification:\s*(.*?)(?=Reference:|$)` DOTALL   (agents/myagent.py)
 *   `Reference:\s*(.*?)(?=\n|$)`                      (agents/myagent.py)
 *
 * `\s` in a `str` pattern matches exactly the characters of `str.isspace`, so it is `IsSpace`.
 */
module AnswerPatterns {
  import opened Wrappers
  import opened PyText

  const HtsLabel := "HTS Code:"
  const JustificationLabel := "Justification:"
  const ReferenceLabel := "Reference:"

  /** The character class `[0-9\.]`. */
  predicate CodeChar(c: char) {
    '0' <= c <= '9' || c == '.'
  }

  /** How far the greedy `[0-9\.]+` reaches from `i`. */
  function SkipCode(s: string, i: nat): (j: nat)
    requires i <= |s|
    ensures i <= j <= |s|
    ensures forall k :: i <= k < j ==> CodeChar(s[k])
    ensures j == |s| || !CodeChar(s[j])
    decreases |s| - i
  {
    if i < |s| && CodeChar(s[i]) then SkipCode(s, i + 1) else i
  }

  /** The leftmost occurrence of `p` in `s` at or after `from`. */
  function FindText(s: string, p: string, from: nat): (r: Option<nat>)
    ensures r.Some? ==> from <= r.value && OccursAt(s, r.value, p)
    ensures r.Some? ==> forall k :: from <= k < r.value ==> !OccursAt(s, k, p)
    ensures r.None? ==> forall k: nat :: from <= k ==> !OccursAt(s, k, p)
    decreases |s| - from
  {
    if from + |p| > |s| then None
    else if s[from..from + |p|] == p then Some(from)
    else FindText(s, p, from + 1)
  }

  // ---------------------------------------------------------------------------
  // HTS Code:\s*([0-9\.]+)

  /**
   * The HTS pattern matches at `p`: the label is there and, after the longest run of
   * whitespace, at least one code character follows. (Giving back whitespace to `\s*`
   * cannot help, since a whitespace character is never a code character.)
   */
  predicate HtsMatchAt(s: string, p: nat) {
    OccursAt(s, p, HtsLabel) && var w := SkipSpace(s, p + |HtsLabel|); w < |s| && CodeChar(s[w])
  }

  /** Group 1 of the HTS pattern matched at `p`: the maximal run of code characters after the whitespace. */
  function HtsGroupAt(s: string, p: nat): (g: string)
    requires HtsMatchAt(s, p)
    ensures |g| > 0 && forall k :: 0 <= k < |g| ==> CodeChar(g[k])
    ensures var w := SkipSpace(s, p + |HtsLabel|);
      && OccursAt(s, w, g)
      && (w + |g| == |s| || !CodeChar(s[w + |g|]))
  {
    var w := SkipSpace(s, p + |HtsLabel|);
    s[w..SkipCode(s, w)]
  }

  /** The leftmost position at or after `from` where the HTS pattern matches. */
  function FirstHtsMatch(s: string, from: nat): (r: Option<nat>)
    ensures r.Some? ==> from <= r.value && HtsMatchAt(s, r.value)
    ensures r.Some? ==> forall q :: from <= q < r.value ==> !HtsMatchAt(s, q)
    ensures r.None? ==> forall q: nat :: from <= q ==> !HtsMatchAt(s, q)
    decreases |s| - from
  {
    if from + |HtsLabel| > |s| then None
    else if HtsMatchAt(s, from) then Some(from)
    else FirstHtsMatch(s, from + 1)
  }

  /** `extract_hts_code(answer)`: group 1 of the leftmost match of the HTS pattern, or None. */
  function ExtractHtsCode(answer: string): Option<string> {
    match FirstHtsMatch(answer, 0)
    case None => None
    case Some(p) => Some(HtsGroupAt(answer, p))
  }

  /**
   * A code is found exactly when the pattern matches somewhere; it is then group 1 of the
   * leftmost match, a non-empty run of digits and dots that the answer does not continue.
   */
  lemma ExtractHtsCodeSpec(answer: string)
    ensures ExtractHtsCode(answer).Some? <==> exists p: nat :: HtsMatchAt(answer, p)
    ensures ExtractHtsCode(answer).Some? ==> exists p: nat ::
      && HtsMatchAt(answer, p)
      && (forall q :: 0 <= q < p ==> !HtsMatchAt(answer, q))
      && ExtractHtsCode(answer).value == HtsGroupAt(answer, p)
    ensures ExtractHtsCode(answer).Some? ==>
      var code := ExtractHtsCode(answer).value;
      |code| > 0 && forall k :: 0 <= k < |code| ==> CodeChar(code[k])
  {
  }

  /**
   * An answer that begins with the label, one space and a code followed by a character
   * that is not a code character yields exactly that code.
   */
  lemma ExtractLeadingCode(code: string, rest: string)
    requires |code| > 0 && forall k :: 0 <= k < |code| ==> CodeChar(code[k])
    requires |rest| > 0 && !CodeChar(rest[0])
    ensures ExtractHtsCode(HtsLabel + " " + code + rest) == Some(code)
  {
    var s := HtsLabel + " " + code + rest;
    var w := |HtsLabel| + 1;
    assert s[..|HtsLabel|] == HtsLabel;
    assert OccursAt(s, 0, HtsLabel);
    assert s[w] == code[0];
    assert SkipSpace(s, |HtsLabel| + 1) == w;
    assert SkipSpace(s, |HtsLabel|) == w;
    assert HtsMatchAt(s, 0);
    assert forall k :: 0 <= k < |code| ==> s[w + k] == code[k];
    assert s[w + |code|] == rest[0];
    assert SkipCode(s, w) == w + |code| by {
      SkipCodeRun(s, w, w + |code|);
    }
    assert s[w..w + |code|] == code;
  }

  /** A run of code characters ended by a non-code character is exactly what `SkipCode` skips. */
  lemma {:induction false} SkipCodeRun(s: string, i: nat, j: nat)
    requires i <= j < |s|
    requires forall k :: i <= k < j ==> CodeChar(s[k])
    requires !CodeChar(s[j])
    ensures SkipCode(s, i) == j
    decreases j - i
  {
    if i < j {
      SkipCodeRun(s, i + 1, j);
    }
  }

  // ---------------------------------------------------------------------------
  // Justification:\s*(.*?)(?=Reference:|$)   with re.DOTALL

  /** Where the lazy group may stop: before `Reference:`, or where `$` holds (the end, or before a final newline). */
  predicate JustificationStop(s: string, q: nat) {
    q == |s| || (q + 1 == |s| && s[q] == '\n') || OccursAt(s, q, ReferenceLabel)
  }

  /** The first stopping point at or after `q`. */
  function JustificationEnd(s: string, q: nat): (e: nat)
    requires q <= |s|
    ensures q <= e <= |s| && JustificationStop(s, e)
    ensures forall k :: q <= k < e ==> !JustificationStop(s, k)
    decreases |s| - q
  {
    if JustificationStop(s, q) then q else JustificationEnd(s, q + 1)
  }

  /** Group 1 of the Justification pattern, when it matches. */
  function JustificationGroup(answer: string): Option<string> {
    match FindText(answer, JustificationLabel, 0)
    case None => None
    case Some(p) =>
      var w := SkipSpace(answer, p + |JustificationLabel|);
      Some(answer[w..JustificationEnd(answer, w)])
  }

  /**
   * The Justification pattern matches exactly when the label occurs (the lazy group can
   * always stop at the end); the group lies inside the answer, does not start with
   * whitespace and never contains a `Reference:` label.
   */
  lemma JustificationGroupSpec(answer: string)
    ensures JustificationGroup(answer).Some? <==> IsInfix(JustificationLabel, answer)
    ensures JustificationGroup(answer).Some? ==>
      var g := JustificationGroup(answer).value;
      && IsInfix(g, answer)
      && !IsInfix(ReferenceLabel, g)
      && (g != [] ==> !IsSpace(g[0]))
  {
    match FindText(answer, JustificationLabel, 0)
    case None =>
    case Some(p) =>
      var w := SkipSpace(answer, p + |JustificationLabel|);
      var e := JustificationEnd(answer, w);
      assert OccursAt(answer, w, answer[w..e]);
      NoStopInside(answer, w, e);
  }

  /** A stretch with no stopping point in it holds no `Reference:` label. */
  lemma NoStopInside(s: string, w: nat, e: nat)
    requires w <= e <= |s|
    requires forall k :: w <= k < e ==> !JustificationStop(s, k)
    ensures !IsInfix(ReferenceLabel, s[w..e])
  {
    var g := s[w..e];
    forall k: nat | k + |ReferenceLabel| <= |g|
      ensures !OccursAt(g, k, ReferenceLabel)
    {
      SliceWindow(s, w, e, k, |ReferenceLabel|);
      assert !JustificationStop(s, w + k);
    }
  }

  /** A window of a slice is the window of the whole string shifted by the slice's start. */
  lemma SliceWindow(s: string, a: nat, b: nat, k: nat, n: nat)
    requires a <= b <= |s| && k + n <= b - a
    ensures s[a..b][k..k + n] == s[a + k..a + k + n]
  {
    var x, y := s[a..b][k..k + n], s[a + k..a + k + n];
    assert |x| == |y|;
    forall i | 0 <= i < n
      ensures x[i] == y[i]
    {
      assert x[i] == s[a..b][k + i] == s[a + k + i];
    }
  }

  // ---------------------------------------------------------------------------
  // Reference:\s*(.*?)(?=\n|$)

  /** The first newline at or after `q`, or the end: where `(.*?)(?=\n|$)` stops without DOTALL. */
  function LineEnd(s: string, q: nat): (e: nat)
    requires q <= |s|
    ensures q <= e <= |s| && (e == |s| || s[e] == '\n')
    ensures forall k :: q <= k < e ==> s[k] != '\n'
    decreases |s| - q
  {
    if q == |s| || s[q] == '\n' then q else LineEnd(s, q + 1)
  }

  /** Group 1 of the Reference pattern, when it matches. */
  function ReferenceGroup(answer: string): Option<string> {
    match FindText(answer, ReferenceLabel, 0)
    case None => None
    case Some(p) =>
      var w := SkipSpace(answer, p + |ReferenceLabel|);
      Some(answer[w..LineEnd(answer, w)])
  }

  /**
   * The Reference pattern matches exactly when the label occurs; the group is the rest of
   * the line after the whitespace that follows the label (which may span blank lines), so
   * it lies inside the answer, holds no newline and does not start with whitespace.
   */
  lemma ReferenceGroupSpec(answer: string)
    ensures ReferenceGroup(answer).Some? <==> IsInfix(ReferenceLabel, answer)
    ensures ReferenceGroup(answer).Some? ==>
      var g := ReferenceGroup(answer).value;
      && IsInfix(g, answer)
      && (forall k :: 0 <= k < |g| ==> g[k] != '\n')
      && (g != [] ==> !IsSpace(g[0]))
  {
    match FindText(answer, ReferenceLabel, 0)
    case None =>
    case Some(p) =>
      var w := SkipSpace(answer, p + |ReferenceLabel|);
      assert OccursAt(answer, w, answer[w..LineEnd(answer, w)]);
  }
}
