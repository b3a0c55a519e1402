/**
 * The query-time retriever (retrieval/faiss_retriever.py): `CBPRetriever` holds the
 * metadata list saved by the index builder and a title column derived from it, and
 * `search` joins the positions returned by the vector index back to that metadata.
 *
 * The sentence encoder and the index's nearest-neighbour search are oracles fixed when the
 * retriever is built; the search oracle stands for row 0 of the `I` matrix, that is the
 * positions of the stored vectors nearest to the query, nearest first, padded with -1
 * when the index holds fewer than `k` vectors.
 */
module Retrieval {
  import opened Wrappers
  import opened PyJson
  import opened EmbedStore

  /** `index.search(embedding, k)`, row 0 of the position matrix. */
  type IndexSearch = (seq<Vector>, int) -> seq<int>

  /** One element of the list `search` returns: the dictionary with keys text, url, title and date. */
  datatype SearchResult = SearchResult(text: Value, url: Value, title: Value, date: Value)

  /** `[m["title"] for m in metadata]`, which raises KeyError on the first record without a title. */
  function TitleColumn(metadata: seq<Record>): (r: Result<seq<Value>, PyError>)
    ensures r.Success? <==> forall i :: 0 <= i < |metadata| ==> "title" in metadata[i]
    ensures r.Failure? ==> r.error == KeyError("title")
    ensures r.Success? ==>
      && |r.value| == |metadata|
      && forall i :: 0 <= i < |metadata| ==> r.value[i] == metadata[i]["title"]
  {
    if metadata == [] then Success([])
    else
      var last := metadata[|metadata| - 1];
      match TitleColumn(metadata[..|metadata| - 1])
      case Failure(e) => Failure(e)
      case Success(titles) =>
        if "title" in last then Success(titles + [last["title"]]) else Failure(KeyError("title"))
  }

  /**
   * Python's `xs[i]` on a list of length `n`: a non-negative `i` below `n` is itself, a
   * negative `i` down to minus `n` counts from the end, anything else raises IndexError.
   */
  function PyIndex(n: nat, i: int): (j: Option<nat>)
    ensures j.Some? <==> 0 <= i + n && i < n
    ensures j.Some? ==> j.value < n && (if i >= 0 then j.value == i else j.value == n + i)
  {
    if 0 <= i < n then Some(i) else if 0 <= i + n && i < 0 then Some(n + i) else None
  }

  /** The result dictionary for metadata entry `j`: its text is the title column, the other fields use `.get`. */
  function ResultAt(metadata: seq<Record>, texts: seq<Value>, j: nat): SearchResult
    requires |texts| == |metadata| && j < |metadata|
  {
    SearchResult(texts[j], Get(metadata[j], "url"), Get(metadata[j], "title"), Get(metadata[j], "date"))
  }

  /** The loop of `search` over the positions seen so far. */
  function Join(metadata: seq<Record>, texts: seq<Value>, positions: seq<int>): Result<seq<SearchResult>, PyError>
    requires |texts| == |metadata|
  {
    if positions == [] then Success([])
    else
      match Join(metadata, texts, positions[..|positions| - 1])
      case Failure(e) => Failure(e)
      case Success(results) =>
        var i := positions[|positions| - 1];
        if i < |metadata| then
          match PyIndex(|metadata|, i)
          case None => Failure(IndexError)
          case Some(j) => Success(results + [ResultAt(metadata, texts, j)])
        else Success(results)
  }

  /** The positions the `i < len(metadata)` guard lets through, in order. */
  function Kept(positions: seq<int>, n: nat): seq<int> {
    if positions == [] then []
    else Kept(positions[..|positions| - 1], n) + (if positions[|positions| - 1] < n then [positions[|positions| - 1]] else [])
  }

  /**
   * The guard keeps exactly the positions below `len(metadata)`, never more than the
   * index returned, and in the index's order (filtering a concatenation is concatenating
   * the filtered parts).
   */
  lemma {:induction false} KeptSpec(positions: seq<int>, n: nat, more: seq<int>)
    ensures |Kept(positions, n)| <= |positions|
    ensures forall i :: i in Kept(positions, n) <==> i in positions && i < n
    ensures Kept(positions + more, n) == Kept(positions, n) + Kept(more, n)
    decreases |positions| + |more|
  {
    if more != [] {
      var init := more[..|more| - 1];
      KeptSpec(positions, n, init);
      assert (positions + more)[..|positions + more| - 1] == positions + init;
      assert (positions + more)[|positions + more| - 1] == more[|more| - 1];
    } else {
      assert positions + more == positions;
      if positions != [] {
        var init := positions[..|positions| - 1];
        KeptSpec(init, n, []);
        assert positions == init + [positions[|positions| - 1]];
      }
    }
  }

  /**
   * `search` succeeds exactly when no position lies below `-len(metadata)`; it then returns
   * one result per kept position, in the same order, each joined to the metadata entry
   * that Python's indexing selects.
   */
  lemma {:induction false} JoinSpec(metadata: seq<Record>, texts: seq<Value>, positions: seq<int>)
    requires |texts| == |metadata|
    ensures Join(metadata, texts, positions).Success? <==> forall k :: 0 <= k < |positions| ==> positions[k] + |metadata| >= 0
    ensures Join(metadata, texts, positions).Failure? ==> Join(metadata, texts, positions).error == IndexError
    ensures Join(metadata, texts, positions).Success? ==>
      var rs, kept := Join(metadata, texts, positions).value, Kept(positions, |metadata|);
      && |rs| == |kept|
      && forall j :: 0 <= j < |rs| ==> PyIndex(|metadata|, kept[j]).Some? && rs[j] == ResultAt(metadata, texts, PyIndex(|metadata|, kept[j]).value)
  {
    if positions != [] {
      var init := positions[..|positions| - 1];
      JoinSpec(metadata, texts, init);
      assert forall k :: 0 <= k < |init| ==> init[k] == positions[k];
      KeptSpec(init, |metadata|, []);
    }
  }

  /**
   * When every position is a real index into the metadata, nothing is dropped and result
   * j is metadata entry `positions[j]`: the nearest-first order of the index is kept.
   */
  lemma {:induction false} InRangeJoined(metadata: seq<Record>, texts: seq<Value>, positions: seq<int>)
    requires |texts| == |metadata|
    requires forall k :: 0 <= k < |positions| ==> 0 <= positions[k] < |metadata|
    ensures Join(metadata, texts, positions).Success?
    ensures var rs := Join(metadata, texts, positions).value;
      && |rs| == |positions|
      && forall j :: 0 <= j < |rs| ==> rs[j] == ResultAt(metadata, texts, positions[j])
  {
    JoinSpec(metadata, texts, positions);
    KeptAll(positions, |metadata|);
  }

  lemma {:induction false} KeptAll(positions: seq<int>, n: nat)
    requires forall k :: 0 <= k < |positions| ==> positions[k] < n
    ensures Kept(positions, n) == positions
  {
    if positions != [] {
      KeptAll(positions[..|positions| - 1], n);
    }
  }

  /**
   * The -1 that the index uses as padding is not caught by the guard: Python reads it as
   * the last entry, so a lone -1 over non-empty metadata returns the last record.
   */
  lemma PaddingReadsLastEntry(metadata: seq<Record>, texts: seq<Value>)
    requires |texts| == |metadata| > 0
    ensures Join(metadata, texts, [-1]) == Success([ResultAt(metadata, texts, |metadata| - 1)])
  {
    assert [-1][..0] == [] && [-1][0] == -1;
    assert PyIndex(|metadata|, -1) == Some(|metadata| - 1);
    assert Join(metadata, texts, []) == Success([]);
    assert [] + [ResultAt(metadata, texts, |metadata| - 1)] == [ResultAt(metadata, texts, |metadata| - 1)];
  }

  /**
   * The retriever holds the saved metadata and, for each entry, its title in `chunkTexts`
   * (the title column that `__init__` builds).
   */
  class CBPRetriever {
    const model: Encoder
    const index: IndexSearch
    var metadata: seq<Record>
    var chunkTexts: seq<Value>

    /** `chunkTexts` is the title column of `metadata`: same length, same order. */
    ghost predicate Valid()
      reads this
    {
      && |chunkTexts| == |metadata|
      && forall i :: 0 <= i < |metadata| ==> "title" in metadata[i] && chunkTexts[i] == metadata[i]["title"]
    }

    constructor (model: Encoder, index: IndexSearch, metadata: seq<Record>)
      requires TitleColumn(metadata).Success?
      ensures Valid()
      ensures this.model == model && this.index == index
      ensures this.metadata == metadata && this.chunkTexts == TitleColumn(metadata).value
    {
      this.model := model;
      this.index := index;
      this.metadata := metadata;
      this.chunkTexts := TitleColumn(metadata).value;
    }

    /** What `search(query, k)` returns or raises. */
    function Searched(query: string, k: int): Result<seq<SearchResult>, PyError>
      reads this
      requires Valid()
    {
      Join(metadata, chunkTexts, index(model([query]), k))
    }

    /**
     * `search`: encodes the query, asks the index for `k` positions and appends one result
     * per position that passes the guard. It changes no field.
     */
    method Search(query: string, k: int) returns (r: Result<seq<SearchResult>, PyError>)
      requires Valid()
      ensures r == Join(metadata, chunkTexts, index(model([query]), k))
    {
      var embedding := model([query]);
      var positions := index(embedding, k);
      var results: seq<SearchResult> := [];
      for n := 0 to |positions|
        invariant Join(metadata, chunkTexts, positions[..n]) == Success(results)
      {
        assert positions[..n + 1][..n] == positions[..n];
        var i := positions[n];
        if i < |metadata| {
          if i + |metadata| < 0 {
            JoinStops(metadata, chunkTexts, positions, n + 1);
            return Failure(IndexError);
          }
          var j := if i >= 0 then i else |metadata| + i;
          var result := SearchResult(chunkTexts[j], Get(metadata[j], "url"), Get(metadata[j], "title"), Get(metadata[j], "date"));
          results := results + [result];
        }
      }
      assert positions[..|positions|] == positions;
      return Success(results);
    }
  }

  /** Once the loop has raised, the remaining positions do not matter. */
  lemma {:induction false} JoinStops(metadata: seq<Record>, texts: seq<Value>, positions: seq<int>, n: nat)
    requires |texts| == |metadata| && n <= |positions|
    requires Join(metadata, texts, positions[..n]).Failure?
    ensures Join(metadata, texts, positions) == Join(metadata, texts, positions[..n])
    decreases |positions| - n
  {
    if n < |positions| {
      assert positions[..n + 1][..n] == positions[..n];
      JoinStops(metadata, texts, positions, n + 1);
    } else {
      assert positions[..n] == positions;
    }
  }

  /**
   * Loading the retriever: the title column raises KeyError when some entry has no title;
   * otherwise a fresh retriever over the given metadata.
   */
  method OpenRetriever(model: Encoder, index: IndexSearch, metadata: seq<Record>) returns (r: Result<CBPRetriever, PyError>)
    ensures r.Failure? <==> exists i :: 0 <= i < |metadata| && "title" !in metadata[i]
    ensures r.Failure? ==> r.error == KeyError("title")
    ensures r.Success? ==> fresh(r.value) && r.value.Valid() && r.value.metadata == metadata
  {
    match TitleColumn(metadata)
    case Failure(e) =>
      r := Failure(e);
    case Success(_) =>
      var retriever := new CBPRetriever(model, index, metadata);
      r := Success(retriever);
  }

  /**
   * A search result's `text` is the title of its metadata entry, not the chunk body, and
   * its url, title and date are the entry's fields, None where the entry lacks them.
   */
  lemma ResultFields(retriever: CBPRetriever, j: nat)
    requires retriever.Valid() && j < |retriever.metadata|
    ensures var m, r := retriever.metadata[j], ResultAt(retriever.metadata, retriever.chunkTexts, j);
      && r.text == m["title"] && r.title == m["title"]
      && r.url == (if "url" in m then m["url"] else Null)
      && r.date == (if "date" in m then m["date"] else Null)
  {
  }

  /** With an index that returns at most `k` positions, `search` returns at most `k` results. */
  lemma AtMostK(metadata: seq<Record>, texts: seq<Value>, positions: seq<int>, k: int)
    requires |texts| == |metadata| && |positions| <= k
    requires Join(metadata, texts, positions).Success?
    ensures |Join(metadata, texts, positions).value| <= k
  {
    JoinSpec(metadata, texts, positions);
    KeptSpec(positions, |metadata|, []);
  }
}
