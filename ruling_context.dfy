/**
 * The numbered context block that both agents (agents/myagent.py and agents/react_agent.py)
 * build from the search results before prompting the LLM; the two loops are identical.
 */
module RulingContext {
  import opened Wrappers
  import opened PyText
  import opened PyJson
  import opened EmbedStore
  import opened Retrieval

  /** How much of a result's text an entry may quote. */
  const ExcerptLength := 500

  /** `text[:500].strip()` for a string field; the empty string for anything else (which raises instead). */
  function ExcerptOf(text: Value): string {
    if text.Str? then Strip(Take(text.s, ExcerptLength)) else []
  }

  /**
   * An excerpt is at most 500 characters long, is a piece of the first 500 characters of
   * the text, and neither starts nor ends with whitespace.
   */
  lemma ExcerptBounds(text: Value)
    requires text.Str?
    ensures var e := ExcerptOf(text);
      && |e| <= ExcerptLength && IsInfix(e, Take(text.s, ExcerptLength))
      && (e == [] || (!IsSpace(e[0]) && !IsSpace(e[|e| - 1])))
  {
    var t := Take(text.s, ExcerptLength);
    assert OccursAt(t, StripStart(t), Strip(t));
  }

  /** The first two lines of an entry: `[i] title (date)` and `URL: url`. */
  function Header(i: nat, r: SearchResult): string {
    "[" + NatToString(i) + "] " + (Display(r.title) + " (" + Display(r.date) + ")\n" + "URL: " + Display(r.url) + "\n")
  }

  /** What closes every entry. */
  const EntryEnd := "...\n\n"

  /** The entry for result number `i`: header lines, excerpt and an ellipsis. */
  function EntryText(i: nat, r: SearchResult): string {
    Header(i, r) + ExcerptOf(r.text) + EntryEnd
  }

  /** The entry's f-string: formatting any value succeeds, but slicing a text that is not a string raises TypeError. */
  function Entry(i: nat, r: SearchResult): Result<string, PyError> {
    if r.text.Str? then Success(EntryText(i, r)) else Failure(TypeError)
  }

  /**
   * The text after a loop that appends the outcomes one after the other and stops at the
   * first one that raised.
   */
  function Collect(outcomes: seq<Result<string, PyError>>): Result<string, PyError> {
    if outcomes == [] then Success("")
    else
      match Collect(outcomes[..|outcomes| - 1])
      case Failure(e) => Failure(e)
      case Success(context) =>
        match outcomes[|outcomes| - 1]
        case Failure(e) => Failure(e)
        case Success(text) => Success(context + text)
  }

  /** The outcome of formatting each result, numbered from 1. */
  function EntryOutcomes(results: seq<SearchResult>): (os: seq<Result<string, PyError>>)
    ensures |os| == |results|
    ensures forall j :: 0 <= j < |results| ==> os[j] == Entry(j + 1, results[j])
  {
    seq(|results|, j requires 0 <= j < |results| => Entry(j + 1, results[j]))
  }

  /** The context after the loop has seen `results`. */
  function ContextOf(results: seq<SearchResult>): Result<string, PyError> {
    Collect(EntryOutcomes(results))
  }

  /** The context loop: `context += ...` once per result, numbered with `enumerate(results, 1)`. */
  method BuildContext(results: seq<SearchResult>) returns (r: Result<string, PyError>)
    ensures r == ContextOf(results)
  {
    var context := "";
    for n := 0 to |results|
      invariant ContextOf(results[..n]) == Success(context)
    {
      EntryOutcomesSnoc(results, n);
      var entry := Entry(n + 1, results[n]);
      if entry.Failure? {
        ContextStops(results, n + 1);
        return Failure(entry.error);
      }
      context := context + entry.value;
    }
    assert results[..|results|] == results;
    return Success(context);
  }

  lemma EntryOutcomesSnoc(results: seq<SearchResult>, n: nat)
    requires n < |results|
    ensures EntryOutcomes(results[..n + 1]) == EntryOutcomes(results[..n]) + [Entry(n + 1, results[n])]
  {
    var a, b := EntryOutcomes(results[..n + 1]), EntryOutcomes(results[..n]) + [Entry(n + 1, results[n])];
    forall j | 0 <= j < n + 1
      ensures a[j] == b[j]
    {
    }
  }

  /** Once an entry has raised, the later results do not matter. */
  lemma {:induction false} ContextStops(results: seq<SearchResult>, n: nat)
    requires n <= |results| && ContextOf(results[..n]).Failure?
    ensures ContextOf(results) == ContextOf(results[..n])
    decreases |results| - n
  {
    if n < |results| {
      EntryOutcomesSnoc(results, n);
      ContextStops(results, n + 1);
    } else {
      assert results[..n] == results;
    }
  }

  lemma {:induction false} ConcatSnoc(pieces: seq<string>, x: string)
    ensures Concat(pieces + [x]) == Concat(pieces) + x
  {
    if pieces == [] {
      assert pieces + [x] == [x] && [x][1..] == [];
    } else {
      assert (pieces + [x])[1..] == pieces[1..] + [x];
      ConcatSnoc(pieces[1..], x);
    }
  }

  /** The text of an outcome that did not raise. */
  function Text(e: Result<string, PyError>): string {
    if e.Success? then e.value else ""
  }

  /** The texts of a list of outcomes. */
  function OutcomeTexts(outcomes: seq<Result<string, PyError>>): (ts: seq<string>)
    ensures |ts| == |outcomes|
    ensures forall j :: 0 <= j < |outcomes| ==> ts[j] == Text(outcomes[j])
  {
    seq(|outcomes|, j requires 0 <= j < |outcomes| => Text(outcomes[j]))
  }

  /**
   * Collecting succeeds exactly when every outcome does, fails with some outcome's error
   * otherwise, and on success is the texts in order, one after the other.
   */
  lemma {:induction false} CollectSpec(outcomes: seq<Result<string, PyError>>)
    ensures Collect(outcomes).Success? <==> forall j :: 0 <= j < |outcomes| ==> outcomes[j].Success?
    ensures Collect(outcomes).Failure? ==> Failure(Collect(outcomes).error) in outcomes
    ensures Collect(outcomes).Success? ==> Collect(outcomes).value == Concat(OutcomeTexts(outcomes))
  {
    if outcomes != [] {
      var n := |outcomes| - 1;
      var init := outcomes[..n];
      CollectSpec(init);
      assert forall j :: 0 <= j < n ==> init[j] == outcomes[j];
      var ts, ts' := OutcomeTexts(outcomes), OutcomeTexts(init);
      assert ts == ts' + [Text(outcomes[n])];
      ConcatSnoc(ts', Text(outcomes[n]));
    }
  }

  /** The entry texts for results 1, 2, ... in result order. */
  function Entries(results: seq<SearchResult>): (es: seq<string>)
    ensures |es| == |results|
    ensures forall j :: 0 <= j < |results| ==> es[j] == EntryText(j + 1, results[j])
  {
    seq(|results|, j requires 0 <= j < |results| => EntryText(j + 1, results[j]))
  }

  /**
   * The context is made exactly when every result's text is a string (otherwise the loop
   * raises TypeError), and is then the entries for results 1, 2, ... in result order.
   */
  lemma ContextSpec(results: seq<SearchResult>)
    ensures ContextOf(results).Success? <==> forall j :: 0 <= j < |results| ==> results[j].text.Str?
    ensures ContextOf(results).Failure? ==> ContextOf(results).error == TypeError
    ensures ContextOf(results).Success? ==> ContextOf(results).value == Concat(Entries(results))
  {
    var os := EntryOutcomes(results);
    CollectSpec(os);
    if ContextOf(results).Success? {
      assert OutcomeTexts(os) == Entries(results);
    }
  }

  /**
   * Each entry starts with its number in brackets, ends with the ellipsis, and in between
   * the header quotes at most 500 characters of the result's text: a stripped piece of
   * its first 500 characters.
   */
  lemma EntryShape(i: nat, r: SearchResult)
    requires r.text.Str?
    ensures Entry(i, r).Success?
    ensures StartsWith(Entry(i, r).value, "[" + NatToString(i) + "] ")
    ensures var e, x := Entry(i, r).value, ExcerptOf(r.text);
      && e == Header(i, r) + x + EntryEnd
      && |x| <= ExcerptLength && IsInfix(x, Take(r.text.s, ExcerptLength))
  {
    ExcerptBounds(r.text);
    var x := ExcerptOf(r.text);
    var prefix := "[" + NatToString(i) + "] ";
    var rest := Display(r.title) + " (" + Display(r.date) + ")\n" + "URL: " + Display(r.url) + "\n";
    Associate(prefix, rest, x, EntryEnd);
    StartsWithConcat(prefix, rest + x + EntryEnd);
  }
}
