/**
 * The single-prompt agent of agents/react_agent.py: `ask_tariffwhisperer(query)` applies
 * the same two guards and the same numbered context as the chat agent, but sends one
 * plain-text prompt to a text-completion model and returns its reply stripped, with no
 * rewriting and no length limit. An exception from the model is not caught.
 *
 * The module-level model and retriever of the source are parameters here; the model
 * returns the completion text or the text of the exception it raised.
 */
module ReactAgent {
  import opened Wrappers
  import opened PyText
  import opened Retrieval
  import opened RulingContext
  import MyAgent

  /** The prompt text before `{query}` (the f-string starts with a newline). */
  const PromptHead :=
    "\n"
    + "You are a customs classification AI assistant. Based on the product description and the retrieved CBP rulings, provide the best possible HTS code and justification.\n"
    + "\n"
    + "Guidelines:\n"
    + "- Use relevant rulings provided below.\n"
    + "- Return the HTS code in 10-digit format if available.\n"
    + "- Summarize in 3-5 sentences.\n"
    + "- If you are unsure, recommend consulting a customs expert.\n"
    + "\n"
    + "---\n"
    + "\n"
    + "User Query:\n"

  /** Between `{query}` and `{context}`. */
  const ContextHeading := "\n\nRelevant CBP Rulings:\n"

  /** After `{context}`. */
  const PromptClosing := "\n\n---\n\n\U{1F9E0} Your Answer:\n"

  /** The prompt f-string with the query and the context filled in. */
  function Prompt(query: string, context: string): string {
    PromptHead + query + ContextHeading + context + PromptClosing
  }

  /** `llm.invoke(prompt)`: the completion text, or the text of the exception raised. */
  type TextModel = string -> Result<string, string>

  /** What `ask_tariffwhisperer(query)` returns (or raises), given what the search would return (or raise). */
  function Answered(llm: TextModel, query: string, searched: Result<seq<SearchResult>, PyError>): Result<string, PyError> {
    if Blank(query) then Success(MyAgent.EmptyQueryWarning)
    else
      match searched
      case Failure(e) => Failure(e)
      case Success(results) =>
        if results == [] then Success(MyAgent.NoResultsWarning)
        else
          match ContextOf(results)
          case Failure(e) => Failure(e)
          case Success(context) =>
            match llm(Prompt(query, context))
            case Failure(message) => Failure(Raised(message))
            case Success(reply) => Success(Strip(reply))
  }

  /**
   * `ask_tariffwhisperer`: the guards, three results from the retriever, the context loop,
   * one completion. Exceptions from the retriever, the context loop and the model propagate.
   */
  method AskTariffWhisperer(llm: TextModel, retriever: CBPRetriever, query: string) returns (answer: Result<string, PyError>)
    requires retriever.Valid()
    ensures answer == Answered(llm, query, retriever.Searched(query, MyAgent.TopK))
  {
    if Blank(query) {
      return Success(MyAgent.EmptyQueryWarning);
    }
    var results := retriever.Search(query, MyAgent.TopK);
    if results.Failure? {
      return Failure(results.error);
    }
    if results.value == [] {
      return Success(MyAgent.NoResultsWarning);
    }
    var context := BuildContext(results.value);
    if context.Failure? {
      return Failure(context.error);
    }
    var prompt := Prompt(query, context.value);
    var response := llm(prompt);
    if response.Failure? {
      return Failure(Raised(response.error));
    }
    return Success(Strip(response.value));
  }

  /** The prompt quotes the query and then the context verbatim, at fixed offsets after the instructions. */
  lemma PromptQuotes(query: string, context: string)
    ensures var prompt := Prompt(query, context);
      && StartsWith(prompt, PromptHead)
      && OccursAt(prompt, |PromptHead|, query)
      && OccursAt(prompt, |PromptHead| + |query| + |ContextHeading|, context)
      && |prompt| == |PromptHead| + |query| + |ContextHeading| + |context| + |PromptClosing|
  {
    var prompt := Prompt(query, context);
    var a := |PromptHead|;
    var b := a + |query| + |ContextHeading|;
    assert prompt[..a] == PromptHead;
    assert prompt[a..a + |query|] == query;
    assert prompt[b..b + |context|] == context;
  }

  /**
   * The guards: a blank query is answered with the warning whatever the retriever would
   * do, an empty search with the other warning, and a raising search propagates; a model
   * that raises makes the whole call raise.
   */
  lemma GuardRails(llm: TextModel, query: string, searched: Result<seq<SearchResult>, PyError>)
    ensures Blank(query) ==> Answered(llm, query, searched) == Success(MyAgent.EmptyQueryWarning)
    ensures !Blank(query) && searched == Success([]) ==> Answered(llm, query, searched) == Success(MyAgent.NoResultsWarning)
    ensures !Blank(query) && searched.Failure? ==> Answered(llm, query, searched) == Failure(searched.error)
    ensures (&& !Blank(query) && searched.Success? && searched.value != [] && ContextOf(searched.value).Success?
             && llm(Prompt(query, ContextOf(searched.value).value)).Failure?) ==>
      Answered(llm, query, searched) == Failure(Raised(llm(Prompt(query, ContextOf(searched.value).value)).error))
  {
  }

  /**
   * A completion is passed on however long it is: the answer is the reply without its
   * surrounding whitespace, a piece of the reply that is empty exactly when the reply is blank.
   */
  lemma {:induction false} ReplyPassedThrough(llm: TextModel, query: string, results: seq<SearchResult>)
    requires !Blank(query) && results != [] && ContextOf(results).Success?
    requires llm(Prompt(query, ContextOf(results).value)).Success?
    ensures var reply := llm(Prompt(query, ContextOf(results).value)).value;
      var answer := Answered(llm, query, Success(results));
      && answer.Success?
      && IsInfix(answer.value, reply)
      && (answer.value == [] <==> Blank(reply))
      && (answer.value != [] ==> !IsSpace(answer.value[0]) && !IsSpace(answer.value[|answer.value| - 1]))
  {
    var reply := llm(Prompt(query, ContextOf(results).value)).value;
    assert OccursAt(reply, StripStart(reply), Strip(reply));
  }

  /**
   * The two agents answer alike up to the model call: the same warnings for a blank query
   * and for an empty search, and the same exception from the search or the context loop.
   */
  lemma AgentsShareGuards(chat: MyAgent.ChatModel, llm: TextModel, query: string, searched: Result<seq<SearchResult>, PyError>)
    requires Blank(query) || searched.Failure? || searched == Success([]) || ContextOf(searched.value).Failure?
    ensures Answered(llm, query, searched) == MyAgent.Answered(chat, query, searched)
  {
  }
}
