# TariffWhisperer in Dafny

TariffWhisperer answers customs-classification questions with a retrieval-augmented
pipeline. It works over U.S. Customs and Border Protection (CBP) rulings:

1. **Ingest.** Normalise the rulings returned by the CBP search API, keeping those with a summary.
2. **Index.** Cut each ruling's text into fixed-width chunks. Embed the chunk texts and
   store the vectors in a FAISS index. Save the chunk records, in the same order, as metadata.
3. **Retrieve.** Embed a question, ask the index for the nearest positions and join them
   back to the metadata.
4. **Answer.** Number the retrieved rulings into a context block and prompt a language
   model. In the chat agent, long answers are shortened to their `HTS Code:`,
   `Justification:` and `Reference:` fields.
5. **Score.** Extract the HTS (Harmonized Tariff Schedule) code from an answer and compare
   it with the expected code, ignoring dots and accepting a prefix either way. Count
   successes and failures, overall and per category.

This project models the record, string and sequence logic of those steps. The sentence
encoder, the vector index and the language model are uninterpreted functions.

## Modules

Each module has its own file:

- `Wrappers`: `Option`, `Result`, and the Python exceptions the code can raise.
- `PyText`: `str.isspace`, `strip`, prefixes, `startswith` and `str(int)`, as Python defines them.
- `PyJson`: JSON values and records, `dict.get`, truthiness and f-string display.
- `Ingest`: `simplify_ruling` and the `summary` filter.
- `EmbedStore`: `load_rulings`, `chunk_ruling` and `embed_and_store`.
- `Retrieval`: the `CBPRetriever` class and its `search` loop.
- `RulingContext`: the context loop both agents share.
- `AnswerPatterns`: the three fixed regular expressions, written as scanners.
- `MyAgent`: the chat agent class `TariffWhisperer`.
- `ReactAgent`: the single-prompt agent.
- `Scoring`: `evaluate_answer` in its two variants.
- `TestRuns`: the selection and tally loops of the two test drivers.

### How the code is modelled

- **Imperative code stays imperative.** Loops that `append`, `extend` or `+=` are `method`s with
  loops. Each is proved equal to a specification function, and that function's properties
  are lemmas. `CBPRetriever` and `TariffWhisperer` are classes with the source's fields.
- **Exceptions are results.** A Python exception is a `Failure` carrying the exception. Failures propagate where
  Python would let the exception escape, and become text where the source catches them.

### Where the model follows the code rather than the design

- **Search results carry the title as their text.** `search` fills each result's `text`
  from `chunk_texts`, which the constructor builds from the metadata *titles*. So the
  context entries quote up to 500 characters of the ruling's title, not of its body. A
  design that returns the chunk text is not what the code does.
- **A negative position reads from the end.** The index pads its answer with -1 when it
  holds fewer than `k` vectors. The only guard is `i < len(metadata)`, so -1 passes it,
  and Python's negative indexing then reads the last metadata entry
  (`Retrieval.PaddingReadsLastEntry`). A position below `-len(metadata)` raises
  IndexError. The model keeps this behaviour.
- **Exceptions are modelled where the source raises them on the modelled inputs.**
  `chunk_ruling` raises on a missing or non-string text, and on a zero chunk size.
  `[m["title"] ...]` raises on a missing title. The category filter of `run_tests` raises
  on a test without a category. The test entries themselves are assumed well formed; see
  "Left out".

## Model

| member | source | states |
|---|---|---|
| Ingest.StrippedField | ingest/scrape_cbp.py:32-34 | a missing field reads as "", a non-string field raises AttributeError, and a string field is stripped |
| Ingest.SimplifyRulingSpec | ingest/scrape_cbp.py:26-37 | simplification succeeds exactly when title and summary are strings (else AttributeError); the record has exactly the six keys, with url = base + slug, stripped title and text, and date, hts_no, document_number copied with "" defaults |
| Ingest.SimplifyRulingError | ingest/scrape_cbp.py:32-34 | the only exception simplification raises is AttributeError |
| Ingest.StripIdempotent | ingest/scrape_cbp.py:32-34 | stripping a stripped field changes nothing |
| Ingest.SimplifiedIsClean | ingest/scrape_cbp.py:30-37 | every simplified ruling has a string title and text with nothing left to strip, and a url under the rulings site |
| Ingest.Summarised | ingest/scrape_cbp.py:54 | a raw ruling is kept exactly when it is one of the inputs and its summary is truthy; never more are kept than given |
| Ingest.SummarisedAppend | ingest/scrape_cbp.py:54 | the filter keeps input order: filtering a concatenation concatenates the filtered parts |
| Ingest.SimplifyAllIsFilterThenMap | ingest/scrape_cbp.py:54 | the comprehension is the summary filter followed by simplifying each kept ruling |
| Ingest.SequenceSpec | ingest/scrape_cbp.py:54 | building the list succeeds exactly when every outcome is a value, then holds those values in order; otherwise it raises one of the outcomes' exceptions |
| Ingest.SimplifyEachSpec | ingest/scrape_cbp.py:54 | mapping succeeds exactly when every ruling simplifies, then maps pointwise and keeps the length; a failure is AttributeError |
| Ingest.SimplifyAllSpec | ingest/scrape_cbp.py:54 | the main block yields, in order, exactly the rulings with a truthy summary, simplified, and fails exactly when one of them cannot be simplified |
| Ingest.BlankSummaryKept | ingest/scrape_cbp.py:34 | a whitespace-only summary passes the filter and yields a ruling with empty text |
| EmbedStore.LoadRulings | embeddings/embed_and_store.py:11-21 | the line loop returns exactly the specification `Loaded(lines)` |
| EmbedStore.LoadedAppend | embeddings/embed_and_store.py:14-20 | loading two parts of a file in sequence gives the two results in sequence, so file order is kept |
| EmbedStore.LoadedSnoc | embeddings/embed_and_store.py:14-20 | reading one more line adds exactly what that line keeps, after the records kept so far |
| EmbedStore.LoadedMembers | embeddings/embed_and_store.py:14-20 | a record is loaded exactly when some line parses to it and its text is truthy; malformed lines are skipped and nothing is added |
| EmbedStore.ChunkRecords | embeddings/embed_and_store.py:32-34 | one chunk record per piece |
| EmbedStore.ChunkRuling | embeddings/embed_and_store.py:24-36 | the append loop returns or raises exactly what `Chunked` does, for every ruling and every chunk size |
| EmbedStore.SplitFromFacts | embeddings/embed_and_store.py:31-33 | the pieces from a start concatenate to the rest of the text and are non-empty and at most `size` long; all but the last are exactly `size` long |
| EmbedStore.ShortRulingUnchanged | embeddings/embed_and_store.py:25-27 | a text that fits gives the one-element list holding the ruling itself, without chunk_id |
| EmbedStore.LongRulingPartitioned | embeddings/embed_and_store.py:29-36 | a longer text gives ceil(len/size) chunks whose texts concatenate to the original; each is at most size long and all except the last are exactly size |
| EmbedStore.ChunkFields | embeddings/embed_and_store.py:29-34 | chunk j has chunk_id j, the slice `text[j*size:(j+1)*size]` of the parent's text as its text, and every other field of the parent |
| EmbedStore.SplitFromAt | embeddings/embed_and_store.py:31-33 | piece j of the split that starts at `from` is the slice of width `size` at `from + j*size`, cut at the end of the text |
| EmbedStore.ChunkErrors | embeddings/embed_and_store.py:25-31 | a missing text raises KeyError and a non-string text TypeError; a long text with size 0 raises ValueError, and with a negative size gives no chunks |
| EmbedStore.Texts | embeddings/embed_and_store.py:51 | one text per chunk |
| EmbedStore.EmbedAndStore | embeddings/embed_and_store.py:38-66 | the flatten loop fails as the first unchunkable ruling does; otherwise the index holds the encoding of the chunk texts, and the metadata is the same chunk list |
| EmbedStore.ChunkAllStops | embeddings/embed_and_store.py:44-46 | once a ruling cannot be chunked, later rulings do not matter |
| EmbedStore.ChunkAllTexts | embeddings/embed_and_store.py:44-51 | every flattened chunk carries its text as a string |
| EmbedStore.ChunkAllAppend | embeddings/embed_and_store.py:44-46 | flattening keeps ruling order and then chunk order: two batches flatten to the two results concatenated |
| EmbedStore.StoreAligned | embeddings/embed_and_store.py:51-66 | vectors and metadata have the same length, and vector i is the embedding of metadata entry i's text |
| Retrieval.TitleColumn | retrieval/faiss_retriever.py:16 | the title column exists exactly when every record has a title (else KeyError "title"); it has the metadata's length and order, and entry i is metadata[i]["title"] |
| Retrieval.PyIndex | retrieval/faiss_retriever.py:26-29 | list indexing accepts exactly -n <= i < n, and a negative index counts from the end |
| Retrieval.KeptSpec | retrieval/faiss_retriever.py:23-24 | the guard keeps, in order, exactly the positions below len(metadata) and never adds one |
| Retrieval.JoinSpec | retrieval/faiss_retriever.py:22-32 | the join raises IndexError exactly when a kept position is below -len(metadata); otherwise result j is the entry for the j-th kept position, in order |
| Retrieval.InRangeJoined | retrieval/faiss_retriever.py:23-31 | positions inside the metadata are all joined, in order |
| Retrieval.KeptAll | retrieval/faiss_retriever.py:24 | with no position at or beyond the end, every position is kept |
| Retrieval.PaddingReadsLastEntry | retrieval/faiss_retriever.py:24-26 | a padding position -1 passes the guard and yields the last metadata entry |
| Retrieval.CBPRetriever.constructor | retrieval/faiss_retriever.py:9-16 | the retriever holds the oracles and the metadata, with the title column as chunk texts |
| Retrieval.CBPRetriever.Search | retrieval/faiss_retriever.py:18-32 | the loop returns or raises exactly the join of the index's positions for the encoded query; it changes no field |
| Retrieval.JoinStops | retrieval/faiss_retriever.py:23-31 | once the loop has raised, later positions do not matter |
| Retrieval.OpenRetriever | retrieval/faiss_retriever.py:9-16 | construction raises KeyError "title" exactly when some record lacks a title; otherwise it gives a fresh, consistent retriever over that metadata |
| Retrieval.ResultFields | retrieval/faiss_retriever.py:25-30 | a result's text is the entry's title, and its url, title and date are `.get` lookups (None when missing) |
| Retrieval.AtMostK | retrieval/faiss_retriever.py:20-31 | no more results than the index returned positions, so at most k |
| RulingContext.ExcerptBounds | agents/myagent.py:252 | an excerpt is at most 500 characters, a piece of the first 500 characters of the text, and neither starts nor ends with whitespace |
| RulingContext.EntryOutcomes | agents/myagent.py:248-253 | one outcome per result, numbered from 1 in result order |
| RulingContext.BuildContext | agents/myagent.py:247-253 | the `+=` loop returns or raises exactly `ContextOf(results)`; agents/react_agent.py:97-103 runs the same loop |
| RulingContext.ContextStops | agents/myagent.py:248-253 | once an entry has raised, later results do not matter |
| RulingContext.CollectSpec | agents/myagent.py:247-253 | collecting succeeds exactly when every entry does; it fails with one of their errors, and on success is the entry texts in order |
| RulingContext.Entries | agents/myagent.py:248-253 | entry j is the text for result j+1 |
| RulingContext.ContextSpec | agents/myagent.py:247-253 | the context exists exactly when every result text is a string (else TypeError) and is then the numbered entries in result order |
| RulingContext.EntryShape | agents/myagent.py:249-252 | an entry starts with "[i] ", is header + excerpt + "...\n\n", and its excerpt is at most 500 characters of the result's text |
| AnswerPatterns.SkipCode | agents/myagent.py:293 | the greedy `[0-9\.]+` stops at the first non-code character |
| AnswerPatterns.FindText | agents/myagent.py:294-295 | the leftmost occurrence of a label, or none at all |
| AnswerPatterns.HtsGroupAt | agents/myagent.py:293 | group 1 is a non-empty maximal run of code characters right after the whitespace |
| AnswerPatterns.FirstHtsMatch | test/overall_test.py:53 | the leftmost position where the HTS pattern matches, or none at all |
| AnswerPatterns.ExtractHtsCodeSpec | test/overall_test.py:51-56 | a code is returned exactly when the pattern matches somewhere; it is group 1 of the leftmost match, non-empty, all digits and dots; test/unit_test.py:19-24 defines the same function |
| AnswerPatterns.ExtractLeadingCode | agents/myagent.py:298 | an answer that starts with "HTS Code: " and a code, followed by a non-code character, yields exactly that code |
| AnswerPatterns.JustificationEnd | agents/myagent.py:294 | the lazy group stops at the first `Reference:`, the end, or a final newline |
| AnswerPatterns.JustificationGroupSpec | agents/myagent.py:294 | the justification matches exactly when its label occurs; the group lies in the answer, has no `Reference:` and does not start with whitespace |
| AnswerPatterns.NoStopInside | agents/myagent.py:294 | a stretch with no place where the lazy group could stop holds no `Reference:` label |
| AnswerPatterns.LineEnd | agents/myagent.py:295 | the first newline at or after a position, or the end |
| AnswerPatterns.ReferenceGroupSpec | agents/myagent.py:295 | the reference matches exactly when its label occurs; the group lies in the answer, holds no newline and does not start with whitespace |
| MyAgent.MessagesQuote | agents/myagent.py:269-284 | the human message quotes the question and the context verbatim at fixed offsets |
| MyAgent.RewriteTail | agents/myagent.py:298-301 | after the code, a rewritten answer goes on with a newline |
| MyAgent.TariffWhisperer.constructor | agents/myagent.py:225-237 | the agent holds the model and the retriever |
| MyAgent.TariffWhisperer.Query | agents/myagent.py:239-303 | `query` returns or raises exactly `Answered(llm, question, retriever.search(question, 3))` |
| MyAgent.ShortenAnswer | agents/myagent.py:292-303 | the step-by-step reassignment of `answer` computes `Rewritten(answer)` |
| MyAgent.AskTariffWhisperer | agents/myagent.py:306-308 | a fresh agent answers as `Answered` |
| MyAgent.GuardRails | agents/myagent.py:240-292 | a blank question gets the first warning whatever the search does; an empty search gets the second; search errors propagate; a model error becomes "❌ Error during LLM inference: " + message; a stripped reply of at most 800 characters is returned as is |
| MyAgent.RewriteKeepsCode | agents/myagent.py:292-301 | the rewrite never changes the code `extract_hts_code` finds |
| MyAgent.RewriteKeepsVerdict | agents/myagent.py:292-301 | the rewrite never changes `evaluate_answer`'s verdict, for any expected code |
| MyAgent.SameCodeSameVerdict | test/overall_test.py:58-80 | two answers equally blank and with the same extracted code get the same verdict |
| MyAgent.CodeNotBlank | agents/myagent.py:293 | an answer in which the HTS pattern matches is not blank |
| MyAgent.JustificationLineShape | agents/myagent.py:299 | the justification line quotes at most 300 characters of the matched justification, a piece of it |
| MyAgent.ReferenceLineShape | agents/myagent.py:295-301 | the reference line is present exactly when `Reference:` occurs, and is a single line |
| MyAgent.RewriteShape | agents/myagent.py:297-301 | a rewritten answer is the "HTS Code: " line, "\n\n", "Justification: " with at most 300 characters of the justification and "...\n\n", then the reference line |
| MyAgent.LongAnswerWithoutFieldsKept | agents/myagent.py:292-297 | a long answer where the HTS pattern or the justification label is missing comes back unchanged |
| ReactAgent.AskTariffWhisperer | agents/react_agent.py:88-131 | the function returns or raises exactly `Answered(llm, query, retriever.search(query, 3))` |
| ReactAgent.PromptQuotes | agents/react_agent.py:106-126 | the prompt starts with the instructions and quotes the query, then the context, verbatim at fixed offsets |
| ReactAgent.GuardRails | agents/react_agent.py:89-95 | a blank query gets the warning without search; an empty search gets the other warning; search errors propagate; a raising model makes the call raise |
| ReactAgent.ReplyPassedThrough | agents/react_agent.py:129-131 | the answer is the reply stripped, however long: a piece of it, empty exactly when it is blank, with non-space ends |
| ReactAgent.AgentsShareGuards | agents/react_agent.py:89-103 | before the model is called, both agents give the same warnings and the same exceptions |
| Scoring.RemoveDots | test/overall_test.py:72-73 | the cleaned code has no dots and is no longer; a dot-free code is unchanged |
| Scoring.RemoveDotsAppend | test/overall_test.py:72-73 | removing dots distributes over concatenation |
| Scoring.CodesAgreeSymmetric | test/overall_test.py:77 | the prefix test is symmetric in extracted and expected code |
| Scoring.MoreSpecificAccepted | test/overall_test.py:75-78 | a more specific code, or a less specific one, is accepted |
| Scoring.EvaluateAnswer | test/overall_test.py:58-80 | a blank answer gives (False, "Empty answer") and no code gives (False, "No HTS code found"); correct exactly when a code is found and `expected` is None or the codes agree; reasons start "Matched: " / "Mismatch: " |
| Scoring.EvaluateAnswerUnit | test/unit_test.py:26-44 | the unit variant agrees with the overall one for every given expected code |
| Scoring.DotsIgnored | test/overall_test.py:71-77 | a dot anywhere in either code never changes the verdict |
| TestRuns.InCategorySpec | test/overall_test.py:87 | the category filter distributes over concatenation, which keeps the original order, and keeps exactly the tests of that category |
| TestRuns.InCategoryMembers | test/overall_test.py:87 | a test is kept exactly when it has the requested category |
| TestRuns.LimitSpec | test/overall_test.py:92-93 | the limit keeps a prefix: everything when absent, zero or not below the length, l tests for 0 < l < len, and Python's `[:l]` for a negative l |
| TestRuns.SelectedSpec | test/overall_test.py:84-93 | selection raises KeyError "category" exactly when a filter meets a test without a category; otherwise it keeps only given tests, of the requested category |
| TestRuns.RunTests | test/overall_test.py:82-144 | `run_tests` returns exactly the tally of the selected tests, or the selection's error |
| TestRuns.RunOne | test/overall_test.py:106-142 | one loop pass counts the test under its category, creating the category first if it is new |
| TestRuns.PassedSpec | test/overall_test.py:116-142 | a test passes exactly when the agent answers something non-blank and, if a code is expected, a code is found that agrees; with no expected code `evaluate_answer` is skipped |
| TestRuns.FilteredRunOneCategory | test/overall_test.py:87-112 | after a category filter, every counter is under that category |
| TestRuns.TalliedCounts | test/overall_test.py:105-142 | success + failure equals the number of tests run, and success counts exactly the passing tests |
| TestRuns.TalliedKeys | test/overall_test.py:108-112 | the category keys are exactly the tests' categories ("Uncategorized" by default), each listed once, in first-seen order: the key list is `FirstSeen` of the tests' categories, so a key comes before another only if its category occurs before the other's first test |
| TestRuns.FirstSeenSpec | test/overall_test.py:111-112 | first-seen order lists each value once, exactly the values that occur, and `x` before `y` only when `x` occurs before the first `y` |
| TestRuns.TalliedFirstSeen | test/overall_test.py:111-112 | a category key is added when the first test of that category is counted, so the key order is first-seen order |
| TestRuns.TalliedOrder | test/overall_test.py:108-112 | the key order lists each category once, and lists exactly the categories that have counters |
| TestRuns.TalliedCategories | test/overall_test.py:108-112 | the categories with counters are exactly the categories of the tests run |
| TestRuns.CountedAt | test/overall_test.py:111-142 | one counting step creates the category if new, adds one to its total and one success exactly when the test passed, and leaves every other category alone |
| TestRuns.UncountedCategoryEmpty | test/overall_test.py:108-112 | a category without counters has no tests among those run |
| TestRuns.TalliedPerCategory | test/overall_test.py:111-142 | a category's counters add up to its number of tests, and its successes are its passing tests |
| TestRuns.TalliedSum | test/overall_test.py:105-142 | the category totals add up to the number of tests run |
| TestRuns.UnitPassedSpec | test/unit_test.py:58-73 | a unit test passes exactly when the answer is non-blank and, if the expected code is truthy, a code is found that agrees |
| TestRuns.UnitRun | test/unit_test.py:53-73 | success counts exactly the passing queries, and success + failure equals the number of queries |
| TestRuns.DriversAgree | test/unit_test.py:64 | with a non-empty expected code or none, the two drivers score a query alike |

## Left out

- Reading and writing files are not modelled. The JSONL reader, `json.dump`, `json.load`, `os.makedirs`, the FAISS index file and `save_rulings` are related to each other only through the values they carry: `load_rulings` takes already-parsed lines, and the retriever is built from the metadata list.
- `fetch_cbp_rulings` (an HTTP request) and ingest/scrape_cbp_selenium.py (browser automation) are not modelled. The raw rulings are an input.
- The sentence encoder, the FAISS index and the language models are not modelled. They are function-valued parameters or fields. Their float vectors are never inspected.
- The HuggingFace login, the endpoint construction and its settings (model name, temperature, token limit) are not modelled.
- The `hasattr(response, "content")` test of the chat agent is not modelled. The chat model returns the reply text directly.
- app.py (the Gradio web interface) and test/test_agent_robustness.py (a print-only harness) are not modelled.
- `random.shuffle` in `run_tests` is not modelled. The model runs the tests in selection order.
- Printing, colours, `time.sleep`, wall-clock timing and the floating-point success rates are not modelled.
- `--list-categories` and the argument parsing of test/overall_test.py are not modelled.
- The literal `test_queries` tables are not modelled. The drivers take the test list as an input.
- Nested JSON arrays and objects, and floating-point JSON numbers, are not modelled. Record values are null, booleans, integers and strings.
- The module-level `llm` and `retriever` of agents/react_agent.py are not modelled as globals. They are parameters.
- `CBPRetriever()` loading its files is not modelled. `OpenRetriever` takes the loaded metadata and reports the KeyError path.
- Retrieval.CBPRetriever.constructor: requires every record to have a title, because a Dafny constructor cannot fail; `OpenRetriever` covers the failing case.
- The commented-out earlier versions at the top of both agent files are not modelled.
- TestRuns.TestCase and TestRuns.UnitCase: each test entry is assumed to hold a string `query`, and `expected` and `category` are either absent or strings. So the model does not capture the KeyError that `test["query"]` raises outside the `try` blocks of both drivers, an explicit `"category": None` (which `get` returns as None, not "Uncategorized"), or non-string values.
