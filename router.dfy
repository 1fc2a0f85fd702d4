/**
 * Intent classification (router.service.ts): the prompt is built from a
 * template, sent to a language model, the JSON span is cut out of the answer,
 * decoded, validated against a closed schema, and every failure on the way
 * becomes the fixed general-chat classification.
 */
module Router {
  import opened Wrappers
  import opened Text

  // ---------------------------------------------------------------------------
  // The schema: a closed enumeration of intents and an optional string parameter
  // ---------------------------------------------------------------------------

  datatype Intent = Weather | Math | Exchange | GeneralChat

  /** The spelling of each intent in the model's JSON answer. */
  function IntentName(i: Intent): string {
    match i
    case Weather => "weather"
    case Math => "math"
    case Exchange => "exchange"
    case GeneralChat => "generalChat"
  }

  /** Membership in the enumeration: only the four exact spellings are accepted. */
  function IntentFromName(name: string): (r: Option<Intent>)
    ensures r.Some? ==> IntentName(r.value) == name
    ensures r.None? ==> forall i: Intent :: IntentName(i) != name
  {
    if name == "weather" then Some(Weather)
    else if name == "math" then Some(Math)
    else if name == "exchange" then Some(Exchange)
    else if name == "generalChat" then Some(GeneralChat)
    else None
  }

  lemma IntentNameRoundTrip(i: Intent)
    ensures IntentFromName(IntentName(i)) == Some(i)
  {
  }

  /** A validated classification; `parameter` is `None` when the decoded object had no such key. */
  datatype Classification = Classification(intent: Intent, parameter: Option<string>)

  /** What every failure turns into. */
  const Fallback := Classification(GeneralChat, Some(""))

  /** A decoded JSON value. Objects are maps: the decoder has already settled duplicate keys. */
  datatype Json =
    | JNull
    | JBool(b: bool)
    | JNumber(literal: string)
    | JString(s: string)
    | JArray(items: seq<Json>)
    | JObject(fields: map<string, Json>)

  /** The schema itself: an object whose `intent` is one of the four names and whose `parameter`, if present, is a string. */
  predicate Conforms(j: Json) {
    && j.JObject?
    && "intent" in j.fields
    && j.fields["intent"].JString?
    && IntentFromName(j.fields["intent"].s).Some?
    && ("parameter" in j.fields ==> j.fields["parameter"].JString?)
  }

  /** The first field the schema rejects. */
  datatype SchemaIssue =
    | NotAnObject
    | IntentMissing
    | IntentNotAString
    | IntentNotInEnum(found: string)
    | ParameterNotAString

  /** `ClassificationSchema.parse`: keeps `intent` and `parameter`, drops every other key. */
  function Validate(j: Json): (r: Result<Classification, SchemaIssue>)
    ensures r.Success? <==> Conforms(j)
    ensures r.Success? ==> IntentName(r.value.intent) == j.fields["intent"].s
    ensures r.Success? ==>
      r.value.parameter == (if "parameter" in j.fields then Some(j.fields["parameter"].s) else None)
  {
    if !j.JObject? then Failure(NotAnObject)
    else if "intent" !in j.fields then Failure(IntentMissing)
    else if !j.fields["intent"].JString? then Failure(IntentNotAString)
    else match IntentFromName(j.fields["intent"].s)
      case None => Failure(IntentNotInEnum(j.fields["intent"].s))
      case Some(intent) =>
        if "parameter" !in j.fields then Success(Classification(intent, None))
        else if j.fields["parameter"].JString? then Success(Classification(intent, Some(j.fields["parameter"].s)))
        else Failure(ParameterNotAString)
  }

  /** The object a classification is written as: the intent's name, and the parameter when there is one. */
  function ClassificationJson(c: Classification): Json {
    var intent := map["intent" := JString(IntentName(c.intent))];
    match c.parameter
    case None => JObject(intent)
    case Some(p) => JObject(intent["parameter" := JString(p)])
  }

  /** Every classification is accepted back from the object it is written as. */
  lemma ValidateRoundTrip(c: Classification)
    ensures Validate(ClassificationJson(c)) == Success(c)
  {
    IntentNameRoundTrip(c.intent);
  }

  /** Keys other than `intent` and `parameter` are stripped: they never change the verdict. */
  lemma ValidateIgnoresOtherKeys(fields: map<string, Json>, key: string, value: Json)
    requires key != "intent" && key != "parameter"
    ensures Validate(JObject(fields[key := value])) == Validate(JObject(fields))
  {
  }

  // ---------------------------------------------------------------------------
  // Cutting the JSON out of the answer: the greedy match of /\{[\s\S]*\}/
  // ---------------------------------------------------------------------------

  /** The regular expression matches somewhere: some '{' has a '}' after it. */
  predicate HasBracePair(text: string) {
    exists i, j :: 0 <= i < j < |text| && text[i] == '{' && text[j] == '}'
  }

  /** The leftmost, longest match: from the first '{' through the last '}', both included. */
  function FindJsonSpan(text: string): (r: Option<string>)
    ensures r.None? <==> !HasBracePair(text)
    ensures r.Some? ==>
      exists i, j :: 0 <= i < j < |text| && r.value == text[i..j + 1]
        && text[i] == '{' && '{' !in text[..i] && text[j] == '}' && '}' !in text[j + 1..]
  {
    match (FirstIndexOf(text, '{'), LastIndexOf(text, '}'))
    case (Some(i), Some(j)) =>
      if i < j then Some(text[i..j + 1]) else None
    case _ => None
  }

  /**
   * An answer that wraps one object in chatter free of braces yields exactly
   * that object, whatever braces the object holds inside.
   */
  lemma SpanOfWrappedObject(before: string, obj: string, after: string)
    requires |obj| >= 2 && obj[0] == '{' && obj[|obj| - 1] == '}'
    requires '{' !in before && '}' !in after
    ensures FindJsonSpan(before + obj + after) == Some(obj)
  {
    var text := before + obj + after;
    var i, j := |before|, |before| + |obj| - 1;
    assert text[i] == '{' && text[..i] == before;
    assert text[j] == '}' && text[j + 1..] == after;
    assert text[i..j + 1] == obj;
  }

  // ---------------------------------------------------------------------------
  // The prompt
  // ---------------------------------------------------------------------------

  const Placeholder := "{{USER_INPUT}}"

  /**
   * The lines of CLASSIFICATION_PROMPT that carry text. A proof about a long
   * string literal costs the solver a great deal, so long lines are split into
   * pieces of at most 80 characters, and each "no `{`" fact below is proved
   * piece by piece (the NoBraceIn lemmas) and then put together.
   */
  const TaskLineHead :=
    "You are an intent classifier for a "
    + "customer service chatbot. Analyze the "
  const TaskLineTail :=
    "user's message and classify it into one "
    + "of these intents:"
  const TaskLine := TaskLineHead + TaskLineTail

  const WeatherLineHead :=
    "1. **weather** - User is asking about "
    + "weather conditions (e.g., \"What's the "
  const WeatherLineTail :=
    "weather in Paris?\", \"Is it raining in "
    + "London?\")"
  const WeatherLine := WeatherLineHead + WeatherLineTail

  const MathLineHead :=
    "2. **math** - User is asking you to "
    + "perform a mathematical calculation "
  const MathLineTail :=
    "(e.g., \"What is 25 * 4?\", \"Calculate "
    + "100 + 50 - 30\")"
  const MathLine := MathLineHead + MathLineTail

  const ExchangeLineHead :=
    "3. **exchange** - User is asking about "
    + "currency exchange rates (e.g., \"What's "
  const ExchangeLineTail :=
    "the USD to ILS rate?\", \"How much is 100 "
    + "EUR in Israeli Shekel?\")"
  const ExchangeLine := ExchangeLineHead + ExchangeLineTail

  const ChatLine :=
    "4. **generalChat** - Any other question "
    + "or conversation topic"

  const FormatLineHead :=
    "Respond ONLY with a valid JSON object "
    + "in this exact format (no markdown, no "
  const FormatLineTail :=
    "extra text):"
  const FormatLine := FormatLineHead + FormatLineTail

  const IntentFieldLine :=
    "  \"intent\": \"weather\","

  const ParameterFieldLine :=
    "  \"parameter\": "
    + "\"extracted_value_or_empty_string\""

  const EnumRuleLine :=
    "Where intent must be one of: weather, "
    + "math, exchange, or generalChat."

  const WeatherRuleLine :=
    "For weather intent, extract the city "
    + "name."

  const MathRuleLine :=
    "For math intent, extract the "
    + "mathematical expression to calculate."

  const ExchangeRuleLine :=
    "For exchange intent, extract the "
    + "currency code (e.g., USD, EUR, GBP)."

  const ChatRuleLine :=
    "For generalChat, leave parameter empty."

  /** CLASSIFICATION_PROMPT up to the opening brace of its JSON example. */
  const PromptBeforeExample :=
    TaskLine + "\n\n" + WeatherLine + "\n" + MathLine + "\n" + ExchangeLine + "\n" + ChatLine + "\n\n"
    + FormatLine + "\n"

  /** CLASSIFICATION_PROMPT from after that brace up to the placeholder. */
  const PromptAfterBrace :=
    "\n" + IntentFieldLine + "\n" + ParameterFieldLine + "\n}\n\n" + EnumRuleLine + "\n\n"
    + WeatherRuleLine + "\n" + MathRuleLine + "\n" + ExchangeRuleLine + "\n" + ChatRuleLine + "\n\n"
    + "User message: "

  /** CLASSIFICATION_PROMPT up to its placeholder. */
  const PromptText := PromptBeforeExample + "{" + PromptAfterBrace

  /** CLASSIFICATION_PROMPT. */
  const ClassificationPrompt := PromptText + Placeholder

  /**
   * The prompt sent to the model for one user message: CLASSIFICATION_PROMPT
   * with its placeholder replaced by the input. `PromptIsTemplateWithInput`
   * proves that this is what `replace` computes on the template.
   */
  function BuildPrompt(userInput: string): string {
    PromptText + userInput
  }

  // One small lemma per piece of text: each keeps its proof about a literal cheap.
  lemma NoBraceInTaskLineHead() ensures '{' !in TaskLineHead {}
  lemma NoBraceInTaskLineTail() ensures '{' !in TaskLineTail {}
  lemma NoBraceInTaskLine() ensures '{' !in TaskLine { NoBraceInTaskLineHead(); NoBraceInTaskLineTail(); }
  lemma NoBraceInWeatherLineHead() ensures '{' !in WeatherLineHead {}
  lemma NoBraceInWeatherLineTail() ensures '{' !in WeatherLineTail {}
  lemma NoBraceInWeatherLine() ensures '{' !in WeatherLine { NoBraceInWeatherLineHead(); NoBraceInWeatherLineTail(); }
  lemma NoBraceInMathLineHead() ensures '{' !in MathLineHead {}
  lemma NoBraceInMathLineTail() ensures '{' !in MathLineTail {}
  lemma NoBraceInMathLine() ensures '{' !in MathLine { NoBraceInMathLineHead(); NoBraceInMathLineTail(); }
  lemma NoBraceInExchangeLineHead() ensures '{' !in ExchangeLineHead {}
  lemma NoBraceInExchangeLineTail() ensures '{' !in ExchangeLineTail {}
  lemma NoBraceInExchangeLine() ensures '{' !in ExchangeLine { NoBraceInExchangeLineHead(); NoBraceInExchangeLineTail(); }
  lemma NoBraceInChatLine() ensures '{' !in ChatLine {}
  lemma NoBraceInFormatLineHead() ensures '{' !in FormatLineHead {}
  lemma NoBraceInFormatLineTail() ensures '{' !in FormatLineTail {}
  lemma NoBraceInFormatLine() ensures '{' !in FormatLine { NoBraceInFormatLineHead(); NoBraceInFormatLineTail(); }
  lemma NoBraceInIntentFieldLine() ensures '{' !in IntentFieldLine {}
  lemma NoBraceInParameterFieldLine() ensures '{' !in ParameterFieldLine {}
  lemma NoBraceInEnumRuleLine() ensures '{' !in EnumRuleLine {}
  lemma NoBraceInWeatherRuleLine() ensures '{' !in WeatherRuleLine {}
  lemma NoBraceInMathRuleLine() ensures '{' !in MathRuleLine {}
  lemma NoBraceInExchangeRuleLine() ensures '{' !in ExchangeRuleLine {}
  lemma NoBraceInChatRuleLine() ensures '{' !in ChatRuleLine {}

  lemma NoBraceBeforeExample()
    ensures '{' !in PromptBeforeExample
  {
    NoBraceInTaskLine();
    NoBraceInWeatherLine();
    NoBraceInMathLine();
    NoBraceInExchangeLine();
    NoBraceInChatLine();
    NoBraceInFormatLine();
  }

  lemma NoBraceAfterBrace()
    ensures '{' !in PromptAfterBrace
  {
    NoBraceInIntentFieldLine();
    NoBraceInParameterFieldLine();
    NoBraceInEnumRuleLine();
    NoBraceInWeatherRuleLine();
    NoBraceInMathRuleLine();
    NoBraceInExchangeRuleLine();
    NoBraceInChatRuleLine();
  }

  /** The only '{' before the placeholder is the one opening the JSON example. */
  lemma PromptTextHoldsOneOpeningBrace()
    ensures '{' !in PromptBeforeExample && '{' !in PromptAfterBrace
  {
    NoBraceBeforeExample();
    NoBraceAfterBrace();
  }

  /**
   * In a text whose only '{' is a single one followed by other text, a pattern
   * opening with "{{" occurs at the end and nowhere before. (The text is passed
   * as `s` rather than written out, which keeps the search on it from being
   * unfolded along the concatenation.)
   */
  lemma OnlyOccurrenceAfterSingleBrace(s: string, a: string, b: string, pat: string)
    requires |pat| >= 2 && pat[0] == '{' && pat[1] == '{'
    requires '{' !in a && '{' !in b && b != []
    requires s == a + "{" + b + pat
    ensures OccursAt(s, pat, |a| + 1 + |b|)
    ensures forall k: nat :: k < |a| + 1 + |b| ==> !OccursAt(s, pat, k)
  {
    var n := |a| + 1 + |b|;
    assert s[n..n + |pat|] == pat;
    forall k: nat | k < n
      ensures !OccursAt(s, pat, k)
    {
      if k + |pat| <= |s| {
        if k < |a| {
          assert s[k..k + |pat|][0] == a[k] != pat[0];
        } else if k == |a| {
          assert s[k..k + |pat|][1] == b[0] != pat[1];
        } else {
          assert s[k..k + |pat|][0] == b[k - |a| - 1] != pat[0];
        }
      }
    }
  }

  /**
   * So the pattern occurs only at the end, and replacing its first occurrence
   * puts the replacement there.
   */
  lemma ReplaceAfterSingleBrace(s: string, t: string, a: string, b: string, pat: string, rep: string)
    requires |pat| >= 2 && pat[0] == '{' && pat[1] == '{'
    requires '{' !in a && '{' !in b && b != []
    requires t == a + "{" + b && s == t + pat
    ensures forall k: nat :: OccursAt(s, pat, k) <==> k == |t|
    ensures ReplaceFirst(s, pat, rep) == t + rep
  {
    var n := |t|;
    OnlyOccurrenceAfterSingleBrace(s, a, b, pat);
    FirstOccurrence(s, pat, n);
    forall k: nat | OccursAt(s, pat, k)
      ensures k == n
    {
      assert |s| == n + |pat|;
    }
    assert s[..n] == t;
    assert s[n + |pat|..] == [];
  }

  /** The template holds its placeholder exactly once, right after its text. */
  lemma PlaceholderOccursOnceAtEnd()
    ensures forall k: nat :: OccursAt(ClassificationPrompt, Placeholder, k) <==> k == |PromptText|
  {
    PromptTextHoldsOneOpeningBrace();
    ReplaceAfterSingleBrace(ClassificationPrompt, PromptText, PromptBeforeExample, PromptAfterBrace, Placeholder, []);
  }

  /**
   * So replacing the first occurrence of the placeholder by the input gives
   * the template's text followed by the input.
   */
  lemma PromptIsTemplateWithInput(userInput: string)
    ensures ReplaceFirst(ClassificationPrompt, Placeholder, userInput) == BuildPrompt(userInput)
  {
    PromptTextHoldsOneOpeningBrace();
    ReplaceAfterSingleBrace(ClassificationPrompt, PromptText, PromptBeforeExample, PromptAfterBrace, Placeholder, userInput);
  }

  // ---------------------------------------------------------------------------
  // classifyIntent
  // ---------------------------------------------------------------------------

  /** Why a classification attempt fell back; each corresponds to one thrown error. */
  datatype ClassifyError =
    | LlmCallFailed
    | NoJsonObject
    | InvalidJson
    | SchemaViolation(issue: SchemaIssue)

  /** The body of the `try` block after the model call: extract, decode, validate. */
  function ClassifyAnswer(text: string, parseJson: string -> Option<Json>): (r: Result<Classification, ClassifyError>)
    ensures r == Failure(NoJsonObject) <==> !HasBracePair(text)
    ensures r.Success? <==>
      HasBracePair(text) && parseJson(FindJsonSpan(text).value).Some? && Conforms(parseJson(FindJsonSpan(text).value).value)
    ensures r.Success? ==>
      var fields := parseJson(FindJsonSpan(text).value).value.fields;
      && IntentName(r.value.intent) == fields["intent"].s
      && r.value.parameter == (if "parameter" in fields then Some(fields["parameter"].s) else None)
  {
    match FindJsonSpan(text)
    case None => Failure(NoJsonObject)
    case Some(span) =>
      match parseJson(span)
      case None => Failure(InvalidJson)
      case Some(decoded) =>
        match Validate(decoded)
        case Success(c) => Success(c)
        case Failure(issue) => Failure(SchemaViolation(issue))
  }

  /**
   * `classifyIntent`. `llm` answers a prompt with its text, or `None` when the
   * call throws; `parseJson` is `JSON.parse`, `None` when it throws.
   */
  function ClassifyIntent(userInput: string, llm: string -> Option<string>, parseJson: string -> Option<Json>): (c: Classification)
    ensures llm(BuildPrompt(userInput)).None? ==> c == Fallback
    ensures llm(BuildPrompt(userInput)).Some? ==>
      var text := llm(BuildPrompt(userInput)).value;
      && (!HasBracePair(text) ==> c == Fallback)
      && (ClassifyAnswer(text, parseJson).Failure? ==> c == Fallback)
      && (ClassifyAnswer(text, parseJson).Success? ==> c == ClassifyAnswer(text, parseJson).value)
  {
    match llm(BuildPrompt(userInput))
    case None => Fallback
    case Some(text) =>
      match ClassifyAnswer(text, parseJson)
      case Success(c) => c
      case Failure(_) => Fallback
  }
}
