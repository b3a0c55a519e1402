/**
 * The offline index builder (embeddings/embed_and_store.py): reading the JSONL corpus,
 * cutting each ruling's text into fixed-width chunks, and producing the vector index and
 * the metadata list from one flat list of chunks.
 *
 * The sentence-embedding model is a parameter (`Encoder`); the FAISS index is modelled by
 * the sequence of vectors it holds after `index.add`; the two files written at the end are
 * the two components of the returned `Store`.
 */
module EmbedStore {
  import opened Wrappers
  import opened PyText
  import opened PyJson

  /** The default `chunk_size` of `chunk_ruling`, the one `embed_and_store` uses. */
  const DefaultChunkSize := 500

  // ---------------------------------------------------------------------------
  // load_rulings

  /** One line of the corpus file, as `json.loads(line.strip())` sees it. */
  datatype JsonLine =
    | Malformed              // json.loads raises
    | NotAnObject            // parses to a list or a scalar: `.get` raises AttributeError
    | Object(fields: Record)

  /** `obj.get("text")` is truthy. */
  predicate HasText(obj: Record) {
    Truthy(Get(obj, "text"))
  }

  /** The records that `load_rulings` keeps from one line. */
  function KeptFrom(line: JsonLine): seq<Record> {
    match line
    case Object(obj) => if HasText(obj) then [obj] else []
    case _ => []
  }

  /** The records that `load_rulings` returns for the lines read so far. */
  function Loaded(lines: seq<JsonLine>): seq<Record> {
    if lines == [] then [] else Loaded(lines[..|lines| - 1]) + KeptFrom(lines[|lines| - 1])
  }

  /** `load_rulings`: keeps, in file order, the parseable objects whose `text` is truthy. */
  method LoadRulings(lines: seq<JsonLine>) returns (rulings: seq<Record>)
    ensures rulings == Loaded(lines)
  {
    rulings := [];
    for n := 0 to |lines|
      invariant rulings == Loaded(lines[..n])
    {
      assert lines[..n + 1][..n] == lines[..n];
      match lines[n]
      case Object(obj) =>
        if HasText(obj) {
          rulings := rulings + [obj];
        }
      case _ =>
    }
    assert lines[..|lines|] == lines;
  }

  /** Reading two parts of a file one after the other gives the two results one after the other. */
  lemma {:induction false} LoadedAppend(a: seq<JsonLine>, b: seq<JsonLine>)
    ensures Loaded(a + b) == Loaded(a) + Loaded(b)
    decreases |b|
  {
    if b == [] {
      assert a + b == a;
    } else {
      var b', last := b[..|b| - 1], b[|b| - 1];
      assert b == b' + [last];
      assert a + b == (a + b') + [last];
      calc {
        Loaded(a + b);
        { LoadedSnoc(a + b', last); }
        Loaded(a + b') + KeptFrom(last);
        { LoadedAppend(a, b'); }
        Loaded(a) + Loaded(b') + KeptFrom(last);
        Loaded(a) + (Loaded(b') + KeptFrom(last));
        { LoadedSnoc(b', last); }
        Loaded(a) + Loaded(b);
      }
    }
  }

  /** Reading one more line adds what that line keeps. */
  lemma LoadedSnoc(lines: seq<JsonLine>, line: JsonLine)
    ensures Loaded(lines + [line]) == Loaded(lines) + KeptFrom(line)
  {
    assert (lines + [line])[..|lines|] == lines;
  }

  /**
   * A record is loaded exactly when some line parses to it and its `text` is truthy;
   * malformed and non-object lines are skipped, and nothing is invented.
   */
  lemma {:induction false} LoadedMembers(lines: seq<JsonLine>, r: Record)
    ensures r in Loaded(lines) <==> exists i :: 0 <= i < |lines| && lines[i] == Object(r) && HasText(r)
    ensures |Loaded(lines)| <= |lines|
  {
    if lines != [] {
      var init := lines[..|lines| - 1];
      LoadedMembers(init, r);
      if exists i :: 0 <= i < |lines| && lines[i] == Object(r) && HasText(r) {
        var i :| 0 <= i < |lines| && lines[i] == Object(r) && HasText(r);
        if i < |lines| - 1 {
          assert init[i] == lines[i];
        }
      }
      if r in Loaded(init) {
        var i :| 0 <= i < |init| && init[i] == Object(r) && HasText(r);
        assert lines[i] == init[i];
      }
    }
  }

  // ---------------------------------------------------------------------------
  // chunk_ruling

  function Min(a: int, b: int): int {
    if a < b then a else b
  }

  /** The pieces `text[i:i+size]` for `i` in `range(from, len(text), size)`. */
  function SplitFrom(text: string, size: nat, from: nat): seq<string>
    requires size > 0
    decreases |text| - from
  {
    if from >= |text| then [] else [text[from..Min(from + size, |text|)]] + SplitFrom(text, size, from + size)
  }

  /** The fixed-width, non-overlapping pieces of `text`, left to right. */
  function Split(text: string, size: nat): seq<string>
    requires size > 0
  {
    SplitFrom(text, size, 0)
  }

  /** The concatenation of a list of strings, `"".join(pieces)`. */
  function Concat(pieces: seq<string>): string {
    if pieces == [] then [] else pieces[0] + Concat(pieces[1..])
  }

  /** The text field of a chunk, `chunk["text"]` (the empty string when it is not a string). */
  function TextOf(rec: Record): string {
    if "text" in rec && rec["text"].Str? then rec["text"].s else ""
  }

  /** A copy of the parent ruling carrying one piece of its text and the piece's position. */
  function ChunkRecord(ruling: Record, piece: string, id: nat): Record {
    ruling["text" := Str(piece)]["chunk_id" := Num(id)]
  }

  /** The chunk records for a list of pieces, numbered from 0. */
  function ChunkRecords(ruling: Record, pieces: seq<string>): (cs: seq<Record>)
    ensures |cs| == |pieces|
  {
    seq(|pieces|, j requires 0 <= j < |pieces| => ChunkRecord(ruling, pieces[j], j))
  }

  /**
   * What `chunk_ruling(ruling, size)` returns or raises: `ruling["text"]` raises KeyError
   * when absent and `len` TypeError when it is not a string; a text that fits is returned
   * as the ruling itself; `range` with step 0 raises ValueError; a negative step gives no
   * chunks at all.
   */
  function Chunked(ruling: Record, size: int): Result<seq<Record>, PyError> {
    if "text" !in ruling then Failure(KeyError("text"))
    else if !ruling["text"].Str? then Failure(TypeError)
    else
      var text := ruling["text"].s;
      if |text| <= size then Success([ruling])
      else if size == 0 then Failure(ValueError)
      else if size < 0 then Success([])
      else Success(ChunkRecords(ruling, Split(text, size)))
  }

  lemma MulDivCancel(j: nat, size: nat)
    requires size > 0
    ensures (j * size) / size == j
  {
    var q := (j * size) / size;
    var rem := (j * size) % size;
    assert j * size == q * size + rem && 0 <= rem < size;
    if q < j {
      MulMono(q + 1, j, size);
      assert false;
    } else if q > j {
      MulMono(j + 1, q, size);
      assert false;
    }
  }

  /** `chunk_ruling`: builds the chunk list by appending one copy per piece. */
  method ChunkRuling(ruling: Record, size: int) returns (r: Result<seq<Record>, PyError>)
    ensures r == Chunked(ruling, size)
  {
    if "text" !in ruling {
      return Failure(KeyError("text"));
    }
    if !ruling["text"].Str? {
      return Failure(TypeError);
    }
    var text := ruling["text"].s;
    if |text| <= size {
      return Success([ruling]);
    }
    if size == 0 {
      return Failure(ValueError);
    }
    if size < 0 {
      return Success([]);
    }
    var chunks: seq<Record> := [];
    ghost var pieces: seq<string> := [];
    var i := 0;
    while i < |text|
      invariant i == |chunks| * size
      invariant |pieces| == |chunks|
      invariant Split(text, size) == pieces + SplitFrom(text, size, i)
      invariant forall j :: 0 <= j < |chunks| ==> chunks[j] == ChunkRecord(ruling, pieces[j], j)
      decreases |text| - i
    {
      var piece := text[i..Min(i + size, |text|)];
      MulDivCancel(|chunks|, size);
      var chunk := ruling["text" := Str(piece)];
      chunk := chunk["chunk_id" := Num(i / size)];
      assert SplitFrom(text, size, i) == [piece] + SplitFrom(text, size, i + size);
      assert pieces + SplitFrom(text, size, i) == (pieces + [piece]) + SplitFrom(text, size, i + size);
      chunks := chunks + [chunk];
      pieces := pieces + [piece];
      i := i + size;
    }
    assert SplitFrom(text, size, i) == [];
    assert pieces == Split(text, size);
    assert chunks == ChunkRecords(ruling, pieces);
    return Success(chunks);
  }

  /** The facts about `SplitFrom` from which the chunk properties follow. */
  lemma {:induction false} SplitFromFacts(text: string, size: nat, from: nat)
    requires size > 0 && from <= |text|
    ensures var ps := SplitFrom(text, size, from);
      && Concat(ps) == text[from..]
      && (forall j :: 0 <= j < |ps| ==> 0 < |ps[j]| <= size)
      && (forall j :: 0 <= j < |ps| - 1 ==> |ps[j]| == size)
      && (from < |text| ==> (|ps| - 1) * size < |text| - from <= |ps| * size)
      && (from == |text| ==> ps == [])
    decreases |text| - from
  {
    var ps := SplitFrom(text, size, from);
    if from < |text| {
      var piece := text[from..Min(from + size, |text|)];
      if from + size < |text| {
        SplitFromFacts(text, size, from + size);
        var rest := SplitFrom(text, size, from + size);
        assert ps == [piece] + rest && ps[1..] == rest;
        assert text[from..] == piece + text[from + size..];
        assert (|ps| - 1) * size == |rest| * size;
        assert |ps| * size == |rest| * size + size;
      } else {
        assert SplitFrom(text, size, from + size) == [];
        assert ps == [piece] && ps[1..] == [];
      }
    }
  }

  /** `n` lies in `((m - 1) * size, m * size]` exactly for `m` the ceiling of `n / size`. */
  lemma CeilDiv(n: nat, size: nat, m: nat)
    requires size > 0 && (m - 1) * size < n <= m * size
    ensures m == (n + size - 1) / size
  {
    var q := (n + size - 1) / size;
    var rem := (n + size - 1) % size;
    assert n + size - 1 == q * size + rem && 0 <= rem < size;
    if q < m {
      MulMono(q, m - 1, size);
      assert false;
    } else if q > m {
      MulMono(m + 1, q, size);
      assert false;
    }
  }

  lemma MulMono(a: int, b: int, c: nat)
    requires a <= b
    ensures a * c <= b * c
  {
  }

  /** A ruling whose text fits in one chunk comes back alone and unchanged, with no `chunk_id`. */
  lemma ShortRulingUnchanged(ruling: Record, size: int)
    requires "text" in ruling && ruling["text"].Str? && |ruling["text"].s| <= size
    ensures Chunked(ruling, size) == Success([ruling])
  {
  }

  /**
   * A longer text is cut into ceil(len / size) chunks: joined in order they give back the
   * text exactly, every chunk is non-empty and at most `size` long, and all except the
   * last are exactly `size` long.
   */
  lemma LongRulingPartitioned(ruling: Record, size: int)
    requires "text" in ruling && ruling["text"].Str? && 0 < size < |ruling["text"].s|
    ensures Chunked(ruling, size).Success?
    ensures var text, cs := ruling["text"].s, Chunked(ruling, size).value;
      && Concat(seq(|cs|, j requires 0 <= j < |cs| => TextOf(cs[j]))) == text
      && (forall j :: 0 <= j < |cs| ==> 0 < |TextOf(cs[j])| <= size)
      && (forall j :: 0 <= j < |cs| - 1 ==> |TextOf(cs[j])| == size)
      && |cs| == (|text| + size - 1) / size
  {
    var text := ruling["text"].s;
    var ps := Split(text, size);
    var cs := Chunked(ruling, size).value;
    SplitFromFacts(text, size, 0);
    CeilDiv(|text|, size, |ps|);
    assert seq(|cs|, j requires 0 <= j < |cs| => TextOf(cs[j])) == ps;
  }

  /** Piece j of the split from `from` is `text[from + j*size : from + (j+1)*size]`. */
  lemma {:induction false} SplitFromAt(text: string, size: nat, from: nat, j: nat)
    requires size > 0 && j < |SplitFrom(text, size, from)|
    ensures from + j * size < |text|
    ensures SplitFrom(text, size, from)[j] == text[from + j * size..Min(from + j * size + size, |text|)]
    decreases j
  {
    if j > 0 {
      SplitFromAt(text, size, from + size, j - 1);
      assert from + size + (j - 1) * size == from + j * size;
    }
  }

  /**
   * The j-th chunk has `chunk_id` j, carries the j-th slice `text[j*size:(j+1)*size]` of
   * its parent's text, and keeps every other field of its parent.
   */
  lemma ChunkFields(ruling: Record, size: int, j: nat)
    requires Chunked(ruling, size).Success? && j < |Chunked(ruling, size).value|
    requires "text" in ruling && ruling["text"].Str? && |ruling["text"].s| > size
    ensures var text, c := ruling["text"].s, Chunked(ruling, size).value[j];
      && j * size < |text|
      && c.Keys == ruling.Keys + {"chunk_id"}
      && c["chunk_id"] == Num(j)
      && c["text"] == Str(text[j * size..Min(j * size + size, |text|)])
      && forall k :: k in ruling && k != "text" && k != "chunk_id" ==> c[k] == ruling[k]
  {
    SplitFromAt(ruling["text"].s, size, 0, j);
  }

  /**
   * The chunker raises exactly as Python does: KeyError for a missing text, TypeError for
   * one that is not a string, ValueError from `range` with step 0 for a text that does
   * not fit; a negative size gives an empty `range` and so no chunks.
   */
  lemma ChunkErrors(ruling: Record, size: int)
    ensures "text" !in ruling ==> Chunked(ruling, size) == Failure(KeyError("text"))
    ensures "text" in ruling && !ruling["text"].Str? ==> Chunked(ruling, size) == Failure(TypeError)
    ensures "text" in ruling && ruling["text"].Str? ==>
      (Chunked(ruling, size).Failure? <==> size == 0 < |ruling["text"].s|)
    ensures "text" in ruling && ruling["text"].Str? && size == 0 < |ruling["text"].s| ==>
      Chunked(ruling, size) == Failure(ValueError)
    ensures "text" in ruling && ruling["text"].Str? && size < 0 ==> Chunked(ruling, size) == Success([])
  {
  }

  // ---------------------------------------------------------------------------
  // embed_and_store

  /** An embedding vector; its coordinates are never inspected here. */
  type Vector = seq<real>

  /** `model.encode(texts)`: one vector per text when the model behaves as documented. */
  type Encoder = seq<string> -> seq<Vector>

  /** The two persisted artefacts: the vectors of the FAISS index and the metadata list. */
  datatype Store = Store(vectors: seq<Vector>, metadata: seq<Record>)

  /** The chunks of all rulings, ruling by ruling; the first ruling that cannot be chunked stops the build. */
  function ChunkAll(rulings: seq<Record>, size: int): Result<seq<Record>, PyError> {
    if rulings == [] then Success([])
    else
      match ChunkAll(rulings[..|rulings| - 1], size)
      case Failure(e) => Failure(e)
      case Success(init) =>
        match Chunked(rulings[|rulings| - 1], size)
        case Failure(e) => Failure(e)
        case Success(cs) => Success(init + cs)
  }

  /** `[ruling["text"] for ruling in chunked_rulings]`. */
  function Texts(chunks: seq<Record>): (ts: seq<string>)
    ensures |ts| == |chunks|
  {
    seq(|chunks|, i requires 0 <= i < |chunks| => TextOf(chunks[i]))
  }

  /**
   * `embed_and_store`: flattens the chunks with `extend` in ruling order, embeds their texts
   * in one batch, adds the vectors to a fresh index and saves the same chunk list as metadata.
   */
  method EmbedAndStore(rulings: seq<Record>, encode: Encoder) returns (r: Result<Store, PyError>)
    ensures ChunkAll(rulings, DefaultChunkSize).Failure? ==>
      r == Failure(ChunkAll(rulings, DefaultChunkSize).error)
    ensures ChunkAll(rulings, DefaultChunkSize).Success? ==>
      var chunks := ChunkAll(rulings, DefaultChunkSize).value;
      r == Success(Store(encode(Texts(chunks)), chunks))
  {
    var chunked: seq<Record> := [];
    for n := 0 to |rulings|
      invariant ChunkAll(rulings[..n], DefaultChunkSize) == Success(chunked)
    {
      assert rulings[..n + 1][..n] == rulings[..n];
      var chunks := ChunkRuling(rulings[n], DefaultChunkSize);
      if chunks.Failure? {
        ChunkAllStops(rulings, n + 1);
        return Failure(chunks.error);
      }
      chunked := chunked + chunks.value;
    }
    assert rulings[..|rulings|] == rulings;
    var texts := seq(|chunked|, i requires 0 <= i < |chunked| => TextOf(chunked[i]));
    var embeddings := encode(texts);
    r := Success(Store(embeddings, chunked));
  }

  /** Once a prefix fails, the whole list fails with the same error. */
  lemma {:induction false} ChunkAllStops(rulings: seq<Record>, n: nat)
    requires n <= |rulings| && ChunkAll(rulings[..n], DefaultChunkSize).Failure?
    ensures ChunkAll(rulings, DefaultChunkSize) == ChunkAll(rulings[..n], DefaultChunkSize)
    decreases |rulings| - n
  {
    if n < |rulings| {
      assert rulings[..n + 1][..n] == rulings[..n];
      ChunkAllStops(rulings, n + 1);
    } else {
      assert rulings[..n] == rulings;
    }
  }

  /** Every chunk the builder produces carries its text as a string. */
  lemma {:induction false} ChunkAllTexts(rulings: seq<Record>, size: int)
    requires ChunkAll(rulings, size).Success?
    ensures forall c: Record :: c in ChunkAll(rulings, size).value ==> "text" in c && c["text"].Str?
  {
    if rulings != [] {
      ChunkAllTexts(rulings[..|rulings| - 1], size);
    }
  }

  /**
   * Chunking the rulings one after the other is chunking each and concatenating, in
   * ruling order; the total is the sum of the per-ruling chunk counts.
   */
  lemma {:induction false} ChunkAllAppend(a: seq<Record>, b: seq<Record>, size: int)
    requires ChunkAll(a, size).Success? && ChunkAll(b, size).Success?
    ensures ChunkAll(a + b, size) == Success(ChunkAll(a, size).value + ChunkAll(b, size).value)
    decreases |b|
  {
    if b == [] {
      assert a + b == a;
      assert ChunkAll(a, size).value + [] == ChunkAll(a, size).value;
    } else {
      var b', last := b[..|b| - 1], b[|b| - 1];
      assert (a + b)[..|a + b| - 1] == a + b';
      assert (a + b)[|a + b| - 1] == last;
      assert ChunkAll(b', size).Success? && Chunked(last, size).Success?;
      ChunkAllAppend(a, b', size);
      var x, y, z := ChunkAll(a, size).value, ChunkAll(b', size).value, Chunked(last, size).value;
      assert ChunkAll(b, size).value == y + z;
      assert ChunkAll(a + b, size).value == (x + y) + z;
      assert (x + y) + z == x + (y + z);
    }
  }

  /** The encoder gives one vector per text, and vector i depends on text i alone. */
  ghost predicate Pointwise(encode: Encoder, embed: string -> Vector) {
    forall ts: seq<string> :: |encode(ts)| == |ts| && forall i :: 0 <= i < |ts| ==> encode(ts)[i] == embed(ts[i])
  }

  /**
   * The index and the metadata stay aligned: with an encoder that keeps one vector per
   * text, both have one entry per chunk, every chunk carries its text as a string, and
   * vector i is the embedding of chunk i's text.
   */
  lemma StoreAligned(rulings: seq<Record>, encode: Encoder, embed: string -> Vector, store: Store)
    requires ChunkAll(rulings, DefaultChunkSize) == Success(store.metadata)
    requires store.vectors == encode(Texts(store.metadata))
    requires Pointwise(encode, embed)
    ensures |store.vectors| == |store.metadata|
    ensures forall i :: 0 <= i < |store.metadata| ==>
      && "text" in store.metadata[i] && store.metadata[i]["text"].Str?
      && store.vectors[i] == embed(store.metadata[i]["text"].s)
  {
    ChunkAllTexts(rulings, DefaultChunkSize);
    var ms := store.metadata;
    var ts := Texts(ms);
    assert |encode(ts)| == |ts| && forall i :: 0 <= i < |ts| ==> encode(ts)[i] == embed(ts[i]);
    forall i | 0 <= i < |ms|
      ensures "text" in ms[i] && ms[i]["text"].Str? && store.vectors[i] == embed(ms[i]["text"].s)
    {
      assert ms[i] in ms;
      assert ts[i] == ms[i]["text"].s;
    }
  }
}
