/**
 * The parts of the conversation flow that index.ts and chat.service.ts share:
 * recognising the `/reset` command and sending a validated classification to
 * the tool it names.
 */
module Dispatch {
  import opened Wrappers
  import opened Text
  import opened Router
  import opened Tools

  const ResetCommand := "/reset"

  /** `userInput.trim() === '/reset'`. */
  predicate IsResetCommand(userInput: string) {
    Trim(userInput) == ResetCommand
  }

  /** Surrounding whitespace does not change whether an input is the reset command. */
  lemma ResetCommandIgnoresPadding(w1: string, s: string, w2: string)
    requires AllWhitespace(w1) && AllWhitespace(w2)
    ensures IsResetCommand(w1 + s + w2) <==> IsResetCommand(s)
  {
    TrimIgnoresPadding(w1, s, w2);
  }

  /** Only the surrounding whitespace may differ: the command itself is case-sensitive and whole. */
  lemma ResetCommandIsPaddedCommand(s: string)
    requires IsResetCommand(s)
    ensures exists k {:trigger s[k..]} ::
      && 0 <= k <= |s| - |ResetCommand|
      && s[k..k + |ResetCommand|] == ResetCommand
      && AllWhitespace(s[..k]) && AllWhitespace(s[k + |ResetCommand|..])
  {
    TrimKeepsInfix(s);
    var k :| 0 <= k <= |s| - |Trim(s)| && Trim(s) == s[k..k + |Trim(s)|]
      && AllWhitespace(s[..k]) && AllWhitespace(s[k + |Trim(s)|..]);
    assert s[k..k + |ResetCommand|] == ResetCommand;
    assert s[k..] == s[k..];  // mentions s[k..], the trigger of the existential, so k is its witness
  }

  /**
   * The tools the conversation flow can call, as functions from the argument
   * to the reply: `toolsService.getWeather`, `calculateMath` and `getExchangeRate`.
   */
  datatype ToolSet = ToolSet(weather: string -> string, math: string -> string, exchange: string -> string)

  /**
   * The tool set of the server: the weather tool (whose fetch is not modelled),
   * and the math and exchange tools of the tools service over the expression
   * evaluator `evaluate`.
   */
  function ServerTools(weather: string -> string, evaluate: string -> Evaluation): (t: ToolSet)
    ensures t.weather == weather
    ensures forall expression :: t.math(expression) == CalculateMath(expression, evaluate)
    ensures forall code :: t.exchange(code) == GetExchangeRate(code)
  {
    ToolSet(weather, expression => CalculateMath(expression, evaluate), GetExchangeRate)
  }

  /** The classifier of the server: `routerService.classifyIntent` over a model call and `JSON.parse`. */
  function RouterClassifier(llm: string -> Option<string>, parseJson: string -> Option<Json>): (classify: string -> Classification)
    ensures forall userInput :: classify(userInput) == ClassifyIntent(userInput, llm, parseJson)
  {
    userInput => ClassifyIntent(userInput, llm, parseJson)
  }

  /**
   * `classification.parameter || ''`: the parameter, or `''` when it is absent
   * (an empty parameter is falsy too, and becomes the same `''`).
   */
  function Argument(c: Classification): (arg: string)
    ensures c.parameter.None? ==> arg == ""
    ensures c.parameter.Some? ==> arg == c.parameter.value
  {
    match c.parameter
    case None => ""
    case Some(p) => if p == "" then "" else p
  }

  /**
   * The `switch` on the intent: the reply of the tool the intent names, or
   * `None` for `generalChat`, the one case that goes to the chat handler.
   */
  function ToolReply(c: Classification, tools: ToolSet): (r: Option<string>)
    ensures r.None? <==> c.intent == GeneralChat
    ensures c.intent == Weather ==> r == Some(tools.weather(Argument(c)))
    ensures c.intent == Math ==> r == Some(tools.math(Argument(c)))
    ensures c.intent == Exchange ==> r == Some(tools.exchange(Argument(c)))
  {
    match c.intent
    case Weather => Some(tools.weather(Argument(c)))
    case Math => Some(tools.math(Argument(c)))
    case Exchange => Some(tools.exchange(Argument(c)))
    case GeneralChat => None
  }

  /** A classification without a parameter is dispatched exactly as one with the empty parameter. */
  lemma MissingParameterIsEmpty(i: Intent, tools: ToolSet)
    ensures ToolReply(Classification(i, None), tools) == ToolReply(Classification(i, Some("")), tools)
  {
  }

  /** Every classification failure lands in general chat, never at a tool. */
  lemma FallbackReachesNoTool(tools: ToolSet)
    ensures ToolReply(Fallback, tools).None?
  {
  }

  /** A math expression with a forbidden character is answered with the fixed error by the server's tools. */
  lemma ForbiddenMathNeverEvaluated(c: Classification, weather: string -> string, evaluate: string -> Evaluation)
    requires c.intent == Math && HasForbiddenChar(Argument(c))
    ensures ToolReply(c, ServerTools(weather, evaluate)) == Some(InvalidExpression)
  {
  }

  /**
   * Exchange requests whose currency parameters differ only in letter case and
   * surrounding whitespace get the same reply from the server's tools.
   */
  lemma ExchangeDispatchIgnoresCaseAndPadding(a: string, b: string, w1: string, w2: string, w3: string, w4: string,
                                              weather: string -> string, evaluate: string -> Evaluation)
    requires ToUpperCase(a) == ToUpperCase(b)
    requires AllWhitespace(w1) && AllWhitespace(w2) && AllWhitespace(w3) && AllWhitespace(w4)
    ensures ToolReply(Classification(Exchange, Some(w1 + a + w2)), ServerTools(weather, evaluate))
         == ToolReply(Classification(Exchange, Some(w3 + b + w4)), ServerTools(weather, evaluate))
  {
    var tools := ServerTools(weather, evaluate);
    assert ToolReply(Classification(Exchange, Some(w1 + a + w2)), tools) == Some(GetExchangeRate(w1 + a + w2));
    assert ToolReply(Classification(Exchange, Some(w3 + b + w4)), tools) == Some(GetExchangeRate(w3 + b + w4));
    ExchangeRateIgnoresCaseAndPadding(a, b, w1, w2, w3, w4);
  }
}
