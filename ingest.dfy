/**
 * Normalisation of the rulings returned by the CBP CROSS search API
 * (ingest/scrape_cbp.py): `simplify_ruling` and the `summary` filter of the main block.
 * The HTTP request and the JSONL file writer are outside the model; the raw
 * rulings arrive here as records.
 */
module Ingest {
  import opened Wrappers
  import opened PyText
  import opened PyJson

  const RulingUrlBase := "https://rulings.cbp.gov/rulings/"

  /** The six keys of a simplified ruling. */
  const SimplifiedKeys: set<string> := {"url", "title", "date", "text", "hts_no", "document_number"}

  /** `raw.get(key, "").strip()`: a missing key gives `""`; a field that is not a string has no `strip`. */
  function StrippedField(raw: Record, key: string): (r: Result<string, PyError>)
    ensures r.Failure? <==> key in raw && !raw[key].Str?
    ensures r.Failure? ==> r.error == AttributeError
    ensures r.Success? ==> r.value == Strip(GetOr(raw, key, Str("")).s)
  {
    match GetOr(raw, key, Str(""))
    case Str(s) => Success(Strip(s))
    case _ => Failure(AttributeError)
  }

  /** `simplify_ruling(r)`: the field mapping from an API ruling to a stored ruling. */
  function SimplifyRuling(raw: Record): Result<Record, PyError>
  {
    var url := RulingUrlBase + Display(GetOr(raw, "slug", Str("")));
    match StrippedField(raw, "title")
    case Failure(e) => Failure(e)
    case Success(title) =>
      match StrippedField(raw, "summary")
      case Failure(e) => Failure(e)
      case Success(text) =>
        Success(map[
          "url" := Str(url),
          "title" := Str(title),
          "date" := GetOr(raw, "dateIssued", Str("")),
          "text" := Str(text),
          "hts_no" := GetOr(raw, "htsNo", Str("")),
          "document_number" := GetOr(raw, "documentNumber", Str(""))
        ])
  }

  /**
   * Simplification succeeds exactly when the title and the summary are strings (or
   * absent); the result has exactly the six keys, each read with its default.
   */
  lemma SimplifyRulingSpec(raw: Record)
    ensures SimplifyRuling(raw).Success? <==> StrippedField(raw, "title").Success? && StrippedField(raw, "summary").Success?
    ensures SimplifyRuling(raw).Failure? ==> SimplifyRuling(raw).error == AttributeError
    ensures SimplifyRuling(raw).Success? ==> SimplifyRuling(raw).value.Keys == SimplifiedKeys
    ensures SimplifyRuling(raw).Success? ==>
      && SimplifyRuling(raw).value["url"] == Str(RulingUrlBase + Display(GetOr(raw, "slug", Str(""))))
      && SimplifyRuling(raw).value["title"] == Str(StrippedField(raw, "title").value)
      && SimplifyRuling(raw).value["date"] == GetOr(raw, "dateIssued", Str(""))
      && SimplifyRuling(raw).value["text"] == Str(StrippedField(raw, "summary").value)
      && SimplifyRuling(raw).value["hts_no"] == GetOr(raw, "htsNo", Str(""))
      && SimplifyRuling(raw).value["document_number"] == GetOr(raw, "documentNumber", Str(""))
  {
    SimplifyRulingError(raw);
  }

  /** The only exception `simplify_ruling` raises is AttributeError. */
  lemma SimplifyRulingError(raw: Record)
    ensures SimplifyRuling(raw).Failure? ==> SimplifyRuling(raw).error == AttributeError
  {
  }

  /** A simplified ruling's title and text are strings with no whitespace at either end. */
  predicate Clean(rec: Record) {
    && "title" in rec && rec["title"].Str? && Strip(rec["title"].s) == rec["title"].s
    && "text" in rec && rec["text"].Str? && Strip(rec["text"].s) == rec["text"].s
  }

  /** `s.strip()` leaves nothing more to strip. */
  lemma StripIdempotent(s: string)
    ensures Strip(Strip(s)) == Strip(s)
  {
    var r := Strip(s);
    if r != [] {
      assert SkipSpace(r, 0) == 0;
      assert SkipSpaceBack(r, |r|, 0) == |r|;
    }
  }

  /** Every ruling that `simplify_ruling` accepts is clean and links into the rulings site. */
  lemma SimplifiedIsClean(raw: Record)
    requires SimplifyRuling(raw).Success?
    ensures Clean(SimplifyRuling(raw).value)
    ensures var url := SimplifyRuling(raw).value["url"]; url.Str? && StartsWith(url.s, RulingUrlBase)
  {
    SimplifyRulingSpec(raw);
    StripIdempotent(GetOr(raw, "title", Str("")).s);
    StripIdempotent(GetOr(raw, "summary", Str("")).s);
    var url := SimplifyRuling(raw).value["url"].s;
    assert url[..|RulingUrlBase|] == RulingUrlBase;
  }

  /** The raw rulings the main block keeps: those whose `summary` is truthy, in order. */
  function Summarised(raws: seq<Record>): (kept: seq<Record>)
    ensures |kept| <= |raws|
    ensures forall x :: x in kept <==> x in raws && Truthy(Get(x, "summary"))
  {
    if raws == [] then []
    else if Truthy(Get(raws[0], "summary")) then [raws[0]] + Summarised(raws[1..])
    else Summarised(raws[1..])
  }

  /**
   * The filter keeps the original order: filtering a concatenation is concatenating the
   * filtered parts.
   */
  lemma {:induction false} SummarisedAppend(a: seq<Record>, b: seq<Record>)
    ensures Summarised(a + b) == Summarised(a) + Summarised(b)
  {
    if a == [] {
      assert a + b == b;
    } else {
      var head := if Truthy(Get(a[0], "summary")) then [a[0]] else [];
      assert (a + b)[0] == a[0];
      assert (a + b)[1..] == a[1..] + b;
      calc {
        Summarised(a + b);
        head + Summarised(a[1..] + b);
        { SummarisedAppend(a[1..], b); }
        head + (Summarised(a[1..]) + Summarised(b));
        (head + Summarised(a[1..])) + Summarised(b);
        Summarised(a) + Summarised(b);
      }
    }
  }

  /** `[simplify_ruling(r) for r in raw_rulings if r.get("summary")]`; the first failure propagates. */
  function SimplifyAll(raws: seq<Record>): Result<seq<Record>, PyError>
  {
    if raws == [] then Success([])
    else if !Truthy(Get(raws[0], "summary")) then SimplifyAll(raws[1..])
    else
      match SimplifyRuling(raws[0])
      case Failure(e) => Failure(e)
      case Success(x) =>
        match SimplifyAll(raws[1..])
        case Failure(e) => Failure(e)
        case Success(rest) => Success([x] + rest)
  }

  /** Every ruling of `raws` can be simplified. */
  ghost predicate AllSimplifiable(raws: seq<Record>) {
    forall i :: 0 <= i < |raws| ==> SimplifyRuling(raws[i]).Success?
  }

  /** Filtering while simplifying is simplifying what the filter keeps. */
  lemma {:induction false} SimplifyAllIsFilterThenMap(raws: seq<Record>)
    ensures SimplifyAll(raws) == SimplifyEach(Summarised(raws))
  {
    if raws != [] {
      SimplifyAllIsFilterThenMap(raws[1..]);
      if Truthy(Get(raws[0], "summary")) {
        var kept := Summarised(raws);
        assert kept[1..] == Summarised(raws[1..]);
        assert Outcomes(kept)[0] == SimplifyRuling(raws[0]);
        assert Outcomes(kept)[1..] == Outcomes(kept[1..]);
      }
    }
  }

  /** The outcome of `simplify_ruling` on each element, in order. */
  function Outcomes(xs: seq<Record>): (rs: seq<Result<Record, PyError>>)
    ensures |rs| == |xs|
  {
    seq(|xs|, i requires 0 <= i < |xs| => SimplifyRuling(xs[i]))
  }

  /** Evaluating outcomes left to right as a list display does: the first exception propagates. */
  function Sequence<T>(rs: seq<Result<T, PyError>>): Result<seq<T>, PyError>
  {
    if rs == [] then Success([])
    else
      match rs[0]
      case Failure(e) => Failure(e)
      case Success(x) =>
        match Sequence(rs[1..])
        case Failure(e) => Failure(e)
        case Success(rest) => Success([x] + rest)
  }

  /**
   * The list is built exactly when every outcome is a value, and then holds those values
   * in order; otherwise the exception raised is one of the outcomes'.
   */
  lemma {:induction false} SequenceSpec<T>(rs: seq<Result<T, PyError>>)
    ensures Sequence(rs).Success? <==> forall i :: 0 <= i < |rs| ==> rs[i].Success?
    ensures Sequence(rs).Success? ==>
      && |Sequence(rs).value| == |rs|
      && forall i :: 0 <= i < |rs| ==> Sequence(rs).value[i] == rs[i].value
    ensures Sequence(rs).Failure? ==>
      exists i :: 0 <= i < |rs| && rs[i].Failure? && rs[i].error == Sequence(rs).error
  {
    if rs != [] {
      var rest := rs[1..];
      SequenceSpec(rest);
      assert forall i :: 1 <= i < |rs| ==> rs[i] == rest[i - 1];
      if Sequence(rs).Failure? && rs[0].Success? {
        var i :| 0 <= i < |rest| && rest[i].Failure? && rest[i].error == Sequence(rs).error;
        assert rs[i + 1] == rest[i];
      }
    }
  }

  /** `simplify_ruling` over every element, stopping at the first failure. */
  function SimplifyEach(xs: seq<Record>): Result<seq<Record>, PyError>
  {
    Sequence(Outcomes(xs))
  }

  /** Mapping succeeds exactly when every element can be simplified, and then maps pointwise. */
  lemma SimplifyEachSpec(xs: seq<Record>)
    ensures SimplifyEach(xs).Success? <==> AllSimplifiable(xs)
    ensures SimplifyEach(xs).Success? ==>
      && |SimplifyEach(xs).value| == |xs|
      && forall i :: 0 <= i < |xs| ==> SimplifyEach(xs).value[i] == SimplifyRuling(xs[i]).value
    ensures SimplifyEach(xs).Failure? ==> SimplifyEach(xs).error == AttributeError
  {
    var rs := Outcomes(xs);
    SequenceSpec(rs);
    assert forall i :: 0 <= i < |xs| ==> rs[i] == SimplifyRuling(xs[i]);
    if SimplifyEach(xs).Failure? {
      var i :| 0 <= i < |rs| && rs[i].Failure? && rs[i].error == SimplifyEach(xs).error;
      SimplifyRulingError(xs[i]);
    }
  }

  /**
   * The comprehension succeeds exactly when every ruling with a truthy summary can be
   * simplified, and then yields those rulings, simplified, in their original order.
   */
  lemma SimplifyAllSpec(raws: seq<Record>)
    ensures SimplifyAll(raws).Success? <==> AllSimplifiable(Summarised(raws))
    ensures SimplifyAll(raws).Success? ==>
      && |SimplifyAll(raws).value| == |Summarised(raws)|
      && forall i :: 0 <= i < |Summarised(raws)| ==>
           SimplifyAll(raws).value[i] == SimplifyRuling(Summarised(raws)[i]).value
    ensures SimplifyAll(raws).Failure? ==> SimplifyAll(raws).error == AttributeError
  {
    SimplifyAllIsFilterThenMap(raws);
    SimplifyEachSpec(Summarised(raws));
  }

  /** A whitespace-only summary is truthy, so the ruling is kept, with an empty `text`. */
  lemma BlankSummaryKept(raw: Record)
    requires "summary" in raw && raw["summary"].Str? && raw["summary"].s != [] && AllSpace(raw["summary"].s)
    requires StrippedField(raw, "title").Success?
    ensures Summarised([raw]) == [raw]
    ensures SimplifyAll([raw]) == Success([SimplifyRuling(raw).value])
    ensures SimplifyRuling(raw).value["text"] == Str("")
  {
    SimplifyRulingSpec(raw);
    assert [raw][0] == raw && [raw][1..] == [];
    assert Truthy(Get(raw, "summary"));
    assert SimplifyRuling(raw).Success?;
    assert SimplifyAll([raw][1..]) == Success([]);
    assert [SimplifyRuling(raw).value] + [] == [SimplifyRuling(raw).value];
  }
}
