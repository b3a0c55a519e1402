/**
 * The chat agent of agents/myagent.py: `TariffWhisperer.query` guards the question,
 * retrieves three rulings, builds the numbered context, prompts the chat model with a
 * system and a human message, and rewrites answers longer than 800 characters from the
 * `HTS Code:` / `Justification:` / `Reference:` fields it finds in them.
 *
 * The chat model is a parameter that returns the reply text (the message content) or the
 * text of the exception it raised.
 */
module MyAgent {
  import opened Wrappers
  import opened PyText
  import opened AnswerPatterns
  import opened Scoring
  import opened Retrieval
  import opened RulingContext

  const EmptyQueryWarning := "\U{26A0}\U{FE0F} Please enter a non-empty query."
  const NoResultsWarning := "\U{26A0}\U{FE0F} No relevant CBP rulings were found for this query."
  const LlmErrorPrefix := "\U{274C} Error during LLM inference: "

  /** The number of rulings retrieved per question. */
  const TopK := 3
  /** Answers longer than this are rewritten. */
  const LongAnswer := 800
  /** How much of the justification a rewritten answer keeps. */
  const JustificationLength := 300

  const SystemTemplate :=
    "You are a customs classification AI assistant specialized in HTS codes. Your task is to determine the correct 10-digit HTS code for products based on CBP rulings.\n"
    + "\n"
    + "IMPORTANT INSTRUCTIONS:\n"
    + "1. Analyze the provided CBP rulings carefully\n"
    + "2. Identify the most relevant ruling that matches the product description\n"
    + "3. Extract or derive the correct 10-digit HTS code\n"
    + "4. Provide a short, clear justification (3-5 sentences maximum)\n"
    + "5. Format your response in exactly this structure:\n"
    + "   - HTS Code: [10-digit code]\n"
    + "   - Justification: [3-5 sentence explanation]\n"
    + "   - Reference: [relevant ruling number]\n"
    + "\n"
    + "If you cannot determine a code with high confidence, state this clearly and recommend consulting a customs expert."

  const QueryHeading := "Product Query: "
  const RulingsHeading := "\n\nRelevant CBP Rulings:\n"
  const HumanClosing := "\n\nProvide the HTS code and justification:"

  /** The human template with `{query}` and `{context}` filled in. */
  function HumanText(query: string, context: string): string {
    QueryHeading + query + RulingsHeading + context + HumanClosing
  }

  datatype ChatMessage = SystemMessage(content: string) | HumanMessage(content: string)

  /** `llm.invoke(messages)`: the reply text, or the text of the exception raised. */
  type ChatModel = seq<ChatMessage> -> Result<string, string>

  /** `chat_prompt.format_prompt(query=..., context=...).to_messages()`. */
  function Messages(query: string, context: string): seq<ChatMessage> {
    [SystemMessage(SystemTemplate), HumanMessage(HumanText(query, context))]
  }

  /** The human message quotes the question and the context verbatim, in that order. */
  lemma MessagesQuote(query: string, context: string)
    ensures var text := Messages(query, context)[1].content;
      && OccursAt(text, |QueryHeading|, query)
      && OccursAt(text, |QueryHeading| + |query| + |RulingsHeading|, context)
  {
    var text := HumanText(query, context);
    var a := |QueryHeading|;
    var b := a + |query| + |RulingsHeading|;
    assert text == QueryHeading + query + RulingsHeading + context + HumanClosing;
    assert text[a..a + |query|] == query;
    assert text[b..b + |context|] == context;
  }

  /** The `Reference:` line of a rewritten answer, empty when that pattern does not match. */
  function ReferenceLine(answer: string): string {
    match ReferenceGroup(answer)
    case Some(reference) => "Reference: " + reference
    case None => ""
  }

  /** The justification line of a rewritten answer. */
  function JustificationLine(justification: string): string {
    "Justification: " + Take(Strip(justification), JustificationLength) + "...\n\n"
  }

  /** Everything of a rewritten answer after the code. */
  function RewriteTail(justification: string, answer: string): (tail: string)
    ensures |tail| > 0 && tail[0] == '\n'
  {
    "\n\n" + JustificationLine(justification) + ReferenceLine(answer)
  }

  /**
   * The long-answer rewrite: an answer longer than 800 characters in which both the HTS
   * and the Justification patterns match is replaced by the code, the first 300
   * characters of the stripped justification, and the reference if there is one; every
   * other answer is kept.
   */
  function Rewritten(answer: string): string {
    if |answer| <= LongAnswer then answer
    else
      match (ExtractHtsCode(answer), JustificationGroup(answer))
      case (Some(code), Some(justification)) =>
        HtsLabel + " " + code + RewriteTail(justification, answer)
      case _ => answer
  }

  /** What `query(question)` returns (or raises), given what the retriever's search would return (or raise). */
  function Answered(llm: ChatModel, question: string, searched: Result<seq<SearchResult>, PyError>): Result<string, PyError> {
    if Blank(question) then Success(EmptyQueryWarning)
    else
      match searched
      case Failure(e) => Failure(e)
      case Success(results) =>
        if results == [] then Success(NoResultsWarning)
        else
          match ContextOf(results)
          case Failure(e) => Failure(e)
          case Success(context) =>
            match llm(Messages(question, context))
            case Failure(message) => Success(LlmErrorPrefix + message)
            case Success(reply) => Success(Rewritten(Strip(reply)))
  }

  class TariffWhisperer {
    const llm: ChatModel
    const retriever: CBPRetriever

    ghost predicate Valid()
      reads this, retriever
    {
      retriever.Valid()
    }

    constructor (llm: ChatModel, retriever: CBPRetriever)
      requires retriever.Valid()
      ensures Valid() && this.llm == llm && this.retriever == retriever
    {
      this.llm := llm;
      this.retriever := retriever;
    }

    /**
     * `query`: the two guards, the context loop, the prompt, and the step-by-step rewrite
     * of a long answer. Exceptions from the retriever and the context loop propagate.
     */
    method Query(question: string) returns (answer: Result<string, PyError>)
      requires Valid()
      ensures answer == Answered(llm, question, retriever.Searched(question, TopK))
    {
      if Blank(question) {
        return Success(EmptyQueryWarning);
      }
      var results := retriever.Search(question, TopK);
      if results.Failure? {
        return Failure(results.error);
      }
      if results.value == [] {
        return Success(NoResultsWarning);
      }
      var context := BuildContext(results.value);
      if context.Failure? {
        return Failure(context.error);
      }
      var response := llm(Messages(question, context.value));
      if response.Failure? {
        return Success(LlmErrorPrefix + response.error);
      }
      var text := ShortenAnswer(Strip(response.value));
      return Success(text);
    }
  }

  /**
   * The tail of `query`: an answer over 800 characters with a code and a justification is
   * rebuilt from them, line by line; any other answer is kept.
   */
  method ShortenAnswer(answer: string) returns (text: string)
    ensures text == Rewritten(answer)
  {
    text := answer;
    if |answer| > LongAnswer {
      var htsMatch := ExtractHtsCode(answer);
      var justificationMatch := JustificationGroup(answer);
      var referenceMatch := ReferenceGroup(answer);
      if htsMatch.Some? && justificationMatch.Some? {
        var head := HtsLabel + " " + htsMatch.value;
        var line := JustificationLine(justificationMatch.value);
        var reference := ReferenceLine(answer);
        text := head + "\n\n";
        text := text + line;
        if referenceMatch.Some? {
          text := text + ("Reference: " + referenceMatch.value);
        } else {
          assert reference == [] && text + reference == text;
        }
        Associate(head, "\n\n", line, reference);
      }
    }
  }

  /** `ask_tariffwhisperer(question)`: a new agent over the given model and retriever answers once. */
  method AskTariffWhisperer(llm: ChatModel, retriever: CBPRetriever, question: string) returns (answer: Result<string, PyError>)
    requires retriever.Valid()
    ensures answer == Answered(llm, question, retriever.Searched(question, TopK))
  {
    var agent := new TariffWhisperer(llm, retriever);
    answer := agent.Query(question);
  }

  /**
   * The guard rails: a blank question is answered with the fixed warning whatever the
   * retriever would do; a search that finds nothing gets the other warning; a failing
   * model call is reported in the answer text; a reply of at most 800 characters comes
   * back stripped and otherwise unchanged.
   */
  lemma GuardRails(llm: ChatModel, question: string, searched: Result<seq<SearchResult>, PyError>)
    ensures Blank(question) ==> Answered(llm, question, searched) == Success(EmptyQueryWarning)
    ensures !Blank(question) && searched == Success([]) ==> Answered(llm, question, searched) == Success(NoResultsWarning)
    ensures !Blank(question) && searched.Failure? ==> Answered(llm, question, searched) == Failure(searched.error)
    ensures !Blank(question) && searched.Success? && searched.value != [] && ContextOf(searched.value).Success? ==>
      match llm(Messages(question, ContextOf(searched.value).value))
      case Failure(message) => Answered(llm, question, searched) == Success(LlmErrorPrefix + message)
      case Success(reply) =>
        |Strip(reply)| <= LongAnswer ==> Answered(llm, question, searched) == Success(Strip(reply))
  {
  }

  /** Rewriting never changes the code that `extract_hts_code` finds. */
  lemma {:induction false} RewriteKeepsCode(answer: string)
    ensures ExtractHtsCode(Rewritten(answer)) == ExtractHtsCode(answer)
  {
    if |answer| > LongAnswer && ExtractHtsCode(answer).Some? && JustificationGroup(answer).Some? {
      var code := ExtractHtsCode(answer).value;
      ExtractHtsCodeSpec(answer);
      ExtractLeadingCode(code, RewriteTail(JustificationGroup(answer).value, answer));
    }
  }

  /** A string holding a label character is not blank. */
  lemma LabelNotBlank(s: string, k: nat)
    requires OccursAt(s, k, HtsLabel)
    ensures !Blank(s)
  {
    assert s[k..k + |HtsLabel|][0] == 'H';
    assert s[k] == 'H';
    assert !AllSpace(s);
  }

  /** An answer in which a code is found is not blank. */
  lemma CodeNotBlank(s: string)
    requires ExtractHtsCode(s).Some?
    ensures !Blank(s)
  {
    ExtractHtsCodeSpec(s);
    var p: nat :| HtsMatchAt(s, p);
    LabelNotBlank(s, p);
  }

  /** Rewriting never changes the verdict of `evaluate_answer`, whatever code is expected. */
  lemma RewriteKeepsVerdict(answer: string, expected: Option<string>)
    ensures EvaluateAnswer(Rewritten(answer), expected) == EvaluateAnswer(answer, expected)
  {
    if |answer| > LongAnswer && ExtractHtsCode(answer).Some? && JustificationGroup(answer).Some? {
      RewriteKeepsCode(answer);
      var r := Rewritten(answer);
      CodeNotBlank(answer);
      CodeNotBlank(r);
      SameCodeSameVerdict(r, answer, expected);
    }
  }

  /** The verdict depends only on whether the answer is blank and on the code found in it. */
  lemma SameCodeSameVerdict(a: string, b: string, expected: Option<string>)
    requires Blank(a) == Blank(b) && ExtractHtsCode(a) == ExtractHtsCode(b)
    ensures EvaluateAnswer(a, expected) == EvaluateAnswer(b, expected)
  {
  }

  /**
   * The justification line quotes at most 300 characters of the justification: a piece
   * of it that starts where its stripped form does.
   */
  lemma JustificationLineShape(justification: string)
    ensures var j := Take(Strip(justification), JustificationLength);
      && |j| <= JustificationLength && IsInfix(j, justification)
      && JustificationLine(justification) == "Justification: " + j + "...\n\n"
  {
    var a, b := StripStart(justification), StripEnd(justification);
    var j := Take(Strip(justification), JustificationLength);
    assert j == justification[a..b][..|j|];
    assert j == justification[a..a + |j|];
    assert OccursAt(justification, a, j);
  }

  /** The reference line is present exactly when the Reference pattern matches, and is a single line. */
  lemma ReferenceLineShape(answer: string)
    ensures ReferenceLine(answer) == [] <==> !IsInfix(ReferenceLabel, answer)
    ensures forall k :: 0 <= k < |ReferenceLine(answer)| ==> ReferenceLine(answer)[k] != '\n'
  {
    ReferenceGroupSpec(answer);
    if ReferenceGroup(answer).Some? {
      var reference := ReferenceGroup(answer).value;
      var line := "Reference: " + reference;
      assert ReferenceLine(answer) == line;
      forall k | 0 <= k < |line|
        ensures line[k] != '\n'
      {
        if k >= |"Reference: "| {
          assert line[k] == reference[k - |"Reference: "|];
        }
      }
    }
  }

  /**
   * A rewritten long answer is the code line, the justification line quoting at most 300
   * characters of the matched justification, and the reference line.
   */
  lemma RewriteShape(answer: string)
    requires |answer| > LongAnswer && ExtractHtsCode(answer).Some? && JustificationGroup(answer).Some?
    ensures var code, g := ExtractHtsCode(answer).value, JustificationGroup(answer).value;
      exists j: string ::
        && |j| <= JustificationLength && IsInfix(j, g)
        && Rewritten(answer) == HtsLabel + " " + code + "\n\n" + ("Justification: " + j + "...\n\n") + ReferenceLine(answer)
  {
    var code, g := ExtractHtsCode(answer).value, JustificationGroup(answer).value;
    JustificationLineShape(g);
    var j := Take(Strip(g), JustificationLength);
    var head := HtsLabel + " " + code;
    Associate(head, "\n\n", JustificationLine(g), ReferenceLine(answer));
    assert Rewritten(answer) == head + "\n\n" + JustificationLine(g) + ReferenceLine(answer);
  }

  /** A long answer missing the HTS code or the justification comes back unchanged. */
  lemma LongAnswerWithoutFieldsKept(answer: string)
    requires |answer| > LongAnswer
    requires !(exists p: nat :: HtsMatchAt(answer, p)) || !IsInfix(JustificationLabel, answer)
    ensures Rewritten(answer) == answer
  {
    ExtractHtsCodeSpec(answer);
    JustificationGroupSpec(answer);
  }
}
