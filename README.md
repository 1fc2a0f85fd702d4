# Smart Chat Agent: the deterministic core, in Dafny

This project models the logic that the chat server runs around its model
calls, and proves properties of that model. It has three parts.

- **Intent classification** (`routerService.classifyIntent`):
  - the prompt is built from its template;
  - the JSON span is cut out of the model's answer, decoded, and validated
    against the closed schema (an `intent` from four names and an optional
    string `parameter`);
  - every failure becomes the fixed `{ intent: 'generalChat', parameter: '' }`.
- **The deterministic tools** (`toolsService`):
  - the exchange-rate table, its lookup with code normalisation, and the
    not-found message;
  - the forbidden-character guard of the math tool and its result formatting.
- **Conversation orchestration**:
  - `handleUserMessage` in index.ts and `chatService.sendMessage`;
  - the `/reset` short-circuit and dispatch on the validated intent;
  - the append of exactly one user turn and one assistant turn, and the save
    of the history;
  - the response id and the per-conversation last-response-id map.

Modules:

| module | file | models |
|---|---|---|
| `Wrappers` | wrappers.dfy | `Option` and `Result` |
| `Text` | text.dfy | the JavaScript built-ins used: `trim`, `toUpperCase`, `indexOf`/`lastIndexOf`, `replace` with a string pattern, `join`, integer display |
| `Router` | router.dfy | router.service.ts |
| `Tools` | tools.dfy | tools.service.ts, without `getWeather` |
| `History` | history.dfy | the `Message` type and the history file of memory.manager.ts, as the class `HistoryStore` |
| `Dispatch` | dispatch.dfy | the `/reset` test and the `switch` on the intent, shared by index.ts and chat.service.ts |
| `Bot` | bot.dfy | `handleUserMessage` in index.ts |
| `Chat` | chat.dfy | `chatService.sendMessage`, with the conversation repository as the class `ConversationRepository` |

The collaborators become parameters:

- **The model calls** are functions. `llm: string -> Option<string>` is the
  classifier's call, and `None` means the call threw. `chatLlm` is the chat
  model, which answers `(prompt, previousResponseId)` with a reply or an error.
- **`JSON.parse`** is `parseJson: string -> Option<Json>`.
- **mathjs `evaluate`** is `evaluate: string -> Evaluation`.
- **The weather tool** is `weather: string -> string`.
- **The stateful parts:**
  - the history file is the field `HistoryStore.file`, where `None` means
    history.json is absent;
  - the id map is the field `ConversationRepository.lastResponseIds`;
  - the methods `Bot.HandleUserMessage` and `Chat.SendMessage` update both
    and are proved against the functions `Bot.HandleUserMessageSpec` and
    `Chat.SendMessageSpec`.
- **The classifier and the tools** are fields of the environment datatypes
  `BotEnv` and `ChatEnv`:
  - `Dispatch.RouterClassifier` is the classifier built from
    `Router.ClassifyIntent`;
  - `Dispatch.ServerTools` is the tool set built from `Tools.CalculateMath`
    and `Tools.GetExchangeRate`.

Decisions worth knowing:

- **Exchange rates are decimals, not floats.** Each rate in `Tools.ExchangeRates`
  is a whole part plus the digits its JavaScript display shows (`3.75` is
  `Decimal(3, "75")`). That makes "every rate is non-zero", and so "the falsy
  check means the code is not a key", provable.
- **`EXCHANGE_RATES[code]` also reaches members inherited from
  `Object.prototype`** (`constructor`, `toString`, …), which are truthy.
  `Tools.Property` models that lookup. `Tools.NormalizedCodeIsFalsyExactlyWhenNotAKey`
  proves that an upper-cased code can never name such a member.
- **The prompt.** `Router.BuildPrompt(u)` is the template's text followed by
  `u`. `Router.PromptIsTemplateWithInput` proves that this is exactly what
  `CLASSIFICATION_PROMPT.replace('{{USER_INPUT}}', u)` computes: the
  template's only `{{` is its placeholder.
- **Two mismatches in the LLM client**, packages/server/llm/client.ts:12-17:
  - its option type reads `messages`, while both callers pass `prompt`
    (router.service.ts:44-49, chat.service.ts:69-77);
  - `previousResponseId` and `instructions` are not read at all.

  The client is not part of this model. The model calls stand for what the
  callers intend: a function of the prompt, and for chat also of the previous
  response id.
- **`sendMessage` does not give the loaded history to the model.** Only the
  prompt and the previous response id reach it, and `Chat.ChatEnv.chatLlm`
  has exactly those arguments.

## Model

| member | source | states |
|---|---|---|
| Router.IntentFromName | packages/server/services/router.service.ts:7 | a name is accepted exactly when it is the spelling of one of the four intents, and then it is that intent's spelling |
| Router.IntentNameRoundTrip | packages/server/services/router.service.ts:7 | every intent is accepted back from its own spelling |
| Router.Validate | packages/server/services/router.service.ts:6-9 | a decoded value is accepted exactly when it is an object whose `intent` is one of the four names and whose `parameter`, if present, is a string; an accepted value carries that intent and that parameter (absent stays absent) |
| Router.ValidateRoundTrip | packages/server/services/router.service.ts:6-9 | every classification is accepted back, unchanged, from the object it is written as |
| Router.ValidateIgnoresOtherKeys | packages/server/services/router.service.ts:6-9 | adding or changing a key other than `intent` and `parameter` never changes the verdict or the result |
| Router.FindJsonSpan | packages/server/services/router.service.ts:52-57 | the match is absent exactly when no `{` has a `}` after it; otherwise it is the text from the first `{` through the last `}`, both included |
| Router.SpanOfWrappedObject | packages/server/services/router.service.ts:52-57 | an answer made of brace-free text, one object, and text free of `}` yields exactly that object, whatever braces it holds inside |
| Router.PromptTextHoldsOneOpeningBrace | packages/server/services/router.service.ts:13-33 | the only `{` in the template before its placeholder is the one opening the JSON example |
| Router.ReplaceAfterSingleBrace | packages/server/services/router.service.ts:39-42 | in a text whose only `{` is a single one followed by other text, a `{{` pattern at the end occurs only there, and replacing it puts the replacement there |
| Router.PlaceholderOccursOnceAtEnd | packages/server/services/router.service.ts:13-33 | `{{USER_INPUT}}` occurs in the template at exactly one position, just after its text |
| Router.PromptIsTemplateWithInput | packages/server/services/router.service.ts:39-42 | replacing the placeholder by the input gives the template's text followed by the input, which is `BuildPrompt` |
| Router.ClassifyAnswer | packages/server/services/router.service.ts:52-63 | no `{`…`}` in the answer is the "no JSON object" failure; success happens exactly when the span decodes to a value the schema accepts, and then carries its intent and parameter |
| Router.ClassifyIntent | packages/server/services/router.service.ts:37-77 | a failed model call, an answer without a brace pair, or any extraction, decoding or validation failure gives the fixed general-chat classification with parameter `''`; otherwise the validated classification of the answer to `BuildPrompt(input)` |
| Tools.Keys | packages/server/services/tools.service.ts:85 | the keys of the table, one per entry, in declaration order |
| Tools.LookupIn | packages/server/services/tools.service.ts:84-89 | absent exactly when no entry has the code as key; when present, it is the rate of an entry with that key |
| Tools.RatesAreNonZero | packages/server/services/tools.service.ts:5-16 | every rate of the table is well formed and non-zero |
| Tools.NormalizeCode | packages/server/services/tools.service.ts:82 | the normalised code holds no lower-case letter |
| Tools.NormalizedCodeIsFalsyExactlyWhenNotAKey | packages/server/services/tools.service.ts:84 | a normalised code never reaches an inherited member, and the falsy check fires exactly when the code is not a key of the table |
| Tools.GetExchangeRate | packages/server/services/tools.service.ts:80-94 | a key of the table gives `1 <CODE> = <rate> ILS (Israeli Shekel)` with its rate; any other code gives the not-found message listing the keys |
| Tools.ExchangeRateIgnoresCaseAndPadding | packages/server/services/tools.service.ts:82 | codes that differ only in letter case and surrounding whitespace get the same answer, and normalise to the trimmed upper-cased code |
| Tools.TableKeysInDeclarationOrder | packages/server/services/tools.service.ts:5-16 | the key list of the not-found message is USD, EUR, GBP, JPY, CAD, AUD, CHF, CNY, INR, MXN, in that order |
| Tools.KeysAppend | packages/server/services/tools.service.ts:85 | the keys of two tables put one after the other are the keys of the first and then those of the second |
| Tools.AvailableCurrenciesListed | packages/server/services/tools.service.ts:85-90 | the not-found message lists exactly `USD, EUR, GBP, JPY, CAD, AUD, CHF, CNY, INR, MXN` |
| Tools.DotlessIReachesKey | packages/server/services/tools.service.ts:82-90 | the code `ınr`, with a dotless `ı`, normalises to `INR`, a key of the table |
| Tools.UsdRateText | packages/server/services/tools.service.ts:6 | the dollar's rate is shown as `3.75` |
| Tools.UsdRateDisplay | packages/server/services/tools.service.ts:90 | the dollar's entry is reported as `1 USD = 3.75 ILS (Israeli Shekel)` |
| Tools.UsdQuote | packages/server/services/tools.service.ts:82-90 | any code that normalises to `USD` is answered with the dollar's message |
| Tools.TrailingZeros | packages/server/services/tools.service.ts:67 | the length of the run of `0`s that ends the text, and no longer |
| Tools.StripZeroSuffix | packages/server/services/tools.service.ts:67 | the result is a prefix; what is removed matches `\.?0+` in full, and no earlier suffix does |
| Tools.StripKeepsSignificantFraction | packages/server/services/tools.service.ts:67 | a fixed form whose last significant fraction digit is followed only by zeros loses exactly those zeros |
| Tools.CalculateMath | packages/server/services/tools.service.ts:54-77 | the fixed invalid-expression error comes back exactly when the expression holds a backtick, `$`, `{` or `}`, and then the evaluator is not consulted; otherwise one message per kind of result or of thrown value |
| Tools.IntegerResultExample | packages/server/services/tools.service.ts:64-68 | `25 * 4` evaluating to 100 is reported as `The result of 25 * 4 is 100` |
| Text.TrimStartSpec | packages/server/services/tools.service.ts:82 | leading whitespace is dropped: the rest of the text, from its first non-whitespace character |
| Text.TrimEndSpec | packages/server/services/tools.service.ts:82 | trailing whitespace is dropped: the text up to its last non-whitespace character |
| Text.TrimKeepsInfix | packages/server/index.ts:38 | `trim` keeps a contiguous piece of its argument that has only whitespace around it and starts and ends with non-whitespace |
| Text.TrimIgnoresPadding | packages/server/index.ts:38 | whitespace around the argument does not change the result of `trim` |
| Text.ToUpperCase | packages/server/services/tools.service.ts:82 | the same length, each character upper-cased on its own; the ASCII letters, the dotless `ı` and the long `ſ` map to upper-case ASCII letters, and no lower-case ASCII letter remains |
| Text.ToUpperCaseConcat | packages/server/services/tools.service.ts:82 | upper-casing distributes over concatenation |
| Text.Join | packages/server/services/tools.service.ts:85 | no parts give the empty text, and a single part is that part alone |
| Text.JoinAppend | packages/server/services/tools.service.ts:85 | joining two non-empty lists of parts is joining each and putting the separator between them |
| Text.FirstIndexOf | packages/server/services/router.service.ts:52 | the first position holding the character, or none when it does not occur |
| Text.LastIndexOf | packages/server/services/router.service.ts:52 | the last position holding the character, or none when it does not occur |
| Text.FindFirst | packages/server/services/router.service.ts:39-42 | a position where the pattern occurs with no occurrence before it, or none when the pattern does not occur |
| Text.ReplaceFirst | packages/server/services/router.service.ts:39-42 | only the first occurrence is replaced; the text is unchanged when the pattern does not occur |
| Text.FirstOccurrence | packages/server/services/router.service.ts:39-42 | an occurrence with none before it is what the search finds |
| Text.NatToDecimalRoundTrip | packages/server/services/tools.service.ts:65-68 | the decimal display of an integer reads back as the same number |
| Text.IntToDecimal | packages/server/services/tools.service.ts:65-68 | a leading `-` exactly for negative numbers, followed by the digits of the magnitude |
| History.HistoryStore.LoadHistory | packages/server/services/memory.manager.ts:13-28 | the stored conversation, or the empty one when the file is absent |
| History.HistoryStore.SaveHistory | packages/server/services/memory.manager.ts:31-38 | the file then holds exactly the given messages |
| History.HistoryStore.ResetHistory | packages/server/services/memory.manager.ts:41-52 | the file is then absent, whether or not it existed |
| History.AppendExchange | packages/server/index.ts:89-93 | the history grows by two, its prefix is untouched, and the new turns are the user's text and then the assistant's |
| History.AppendExchangeInjective | packages/server/index.ts:89-93 | the appended history determines the prior history and both texts |
| History.ExchangeShape | packages/server/index.ts:89-93 | a history with that shape is the appended exchange |
| Dispatch.ResetCommandIgnoresPadding | packages/server/index.ts:38 | whitespace around an input does not change whether it is the reset command |
| Dispatch.ResetCommandIsPaddedCommand | packages/server/services/chat.service.ts:29 | an input taken as the reset command is exactly `/reset` with only whitespace around it |
| Dispatch.ServerTools | packages/server/index.ts:56-75 | the server's tool set: the weather tool as given, `calculateMath` over the evaluator, and `getExchangeRate` |
| Dispatch.RouterClassifier | packages/server/index.ts:50 | the server's classifier is `classifyIntent` over the model call and `JSON.parse` |
| Dispatch.Argument | packages/server/index.ts:59 | `parameter \|\| ''`: the parameter, or `''` when it is absent |
| Dispatch.ToolReply | packages/server/index.ts:55-84 | weather, math and exchange get the reply of their own tool on the argument; general chat, and only it, goes to the chat handler |
| Dispatch.MissingParameterIsEmpty | packages/server/services/chat.service.ts:47-64 | a classification without a parameter is dispatched exactly as one with the empty parameter |
| Dispatch.FallbackReachesNoTool | packages/server/index.ts:77-83 | every classification failure is handled by general chat, never by a tool |
| Dispatch.ForbiddenMathNeverEvaluated | packages/server/services/tools.service.ts:57-59 | a math request with a forbidden character gets the fixed error from the server's tools |
| Dispatch.ExchangeDispatchIgnoresCaseAndPadding | packages/server/index.ts:70-75 | exchange requests whose parameters differ only in case and surrounding whitespace get the same reply |
| Bot.HandleUserMessageSpec | packages/server/index.ts:31-101 | `/reset` deletes the file and returns the reset message with an empty history; otherwise a reply carries the history plus exactly the raw input and the reply, which is what is saved; a tool intent gets its tool's reply; general chat gets the handler's answer or its rejection, and a rejection saves nothing |
| Bot.HandleUserMessage | packages/server/index.ts:31-101 | the method on the history store returns what the specification returns and leaves the store as it says |
| Bot.ResetConsultsNoCollaborator | packages/server/index.ts:38-44 | `/reset` consults neither the classifier, nor a tool, nor the chat handler |
| Bot.ToolIntentIgnoresChatHandler | packages/server/index.ts:55-75 | a tool intent never reaches the chat handler |
| Bot.BotMessageIsLastTurn | packages/server/index.ts:92-100 | the returned message is the content of the last, assistant, turn of the returned history |
| Bot.ConsecutiveMessagesStack | packages/server/index.ts:89-98 | two consecutive answered messages leave their four turns in order on top of the first history |
| Bot.GeneralChatAsWrittenRejects | packages/server/index.ts:82 | with the handler as written, every message sent to general chat rejects and nothing is saved |
| Bot.ClassifierFailureRejectsAsWritten | packages/server/index.ts:82 | in particular a failed classifier call makes the message reject |
| Bot.GeneralChatWithHandlerIsSaved | packages/server/index.ts:77-100 | with a handler that answers, general chat is answered, and the exchange is appended and saved like a tool reply |
| Chat.ConversationRepository.GetLastResponseId | packages/server/services/chat.service.ts:75-76 | the recorded id of the conversation, or none when it has no entry |
| Chat.ConversationRepository.SetLastResponseId | packages/server/services/chat.service.ts:81-84 | the id is recorded for that conversation, and every other entry is unchanged |
| Chat.ResponseIdOr | packages/server/services/chat.service.ts:97 | never empty; a non-empty id is kept, and an empty one becomes `tool-response` |
| Chat.SendMessageSpec | packages/server/services/chat.service.ts:23-104 | `/reset` deletes the file without loading it, keeps the id map, and returns the fixed response; a response saves the loaded history plus the raw prompt and the reply; a rejection changes nothing; no other conversation's entry changes; a tool intent answers under `tool-response` and leaves the map alone; general chat asks the model with the conversation's previous id, then records and returns its id |
| Chat.SendMessage | packages/server/services/chat.service.ts:23-104 | the method on the history store and the repository returns what the specification returns and leaves both as it says |
| Chat.MessageIsLastSavedTurn | packages/server/services/chat.service.ts:92-99 | the returned message is the content of the last turn saved to the file |
| Chat.ToolResponseIdExactly | packages/server/services/chat.service.ts:44-97 | when the model never uses the id `tool-response`, the returned id is `tool-response` exactly when a tool answered or the model's id was empty |
| Chat.IdMapChangesOnlyForChat | packages/server/services/chat.service.ts:75-85 | the id map changes only on an answered general-chat message, and then only at the conversation's own entry |
| Chat.NextCallSeesRecordedId | packages/server/services/chat.service.ts:75-84 | after an answered general-chat message, the next call for the conversation asks the model with the id just recorded |
| Chat.ResetConsultsNoCollaborator | packages/server/services/chat.service.ts:29-35 | `/reset` consults no collaborator and keeps every recorded response id |
| Chat.ResetThenMessage | packages/server/services/chat.service.ts:29-38 | after `/reset`, the next answered message is saved on top of an empty history |

Helpers without a row of their own, each covered by the rows named:

- `Dispatch.IsResetCommand` (index.ts:38, chat.service.ts:29): `Dispatch.ResetCommandIgnoresPadding` and `Dispatch.ResetCommandIsPaddedCommand`.
- `Text.Trim` (tools.service.ts:82): `Text.TrimStartSpec`, `Text.TrimEndSpec`, `Text.TrimKeepsInfix` and `Text.TrimIgnoresPadding`.
- `Router.BuildPrompt` (router.service.ts:39-42): `Router.PromptIsTemplateWithInput`.
- `Router.Conforms` (router.service.ts:6-9): `Router.Validate`, whose contract spells out the same schema.
- `Tools.Property` and `Tools.IsFalsy` (tools.service.ts:84, 89): `Tools.NormalizedCodeIsFalsyExactlyWhenNotAKey`.
- `Tools.DecimalDisplay`, `Tools.RateMessage`, `Tools.NotFoundMessage` and `Tools.AvailableCurrencies` (tools.service.ts:85-90): `Tools.GetExchangeRate`, `Tools.UsdRateText`, `Tools.UsdRateDisplay` and `Tools.AvailableCurrenciesListed`.
- `Text.JoinPair`, `Text.JoinCons`, `Tools.KeysSplit`, `Tools.FirstFiveKeys`, `Tools.LastFiveKeys`, `Tools.JoinFirstFive`, `Tools.JoinLastFive` and `Tools.HalvesJoined`: steps of `Tools.AvailableCurrenciesListed`.
- `Tools.FormatNumber` (tools.service.ts:65-67): `Tools.CalculateMath`, `Tools.StripZeroSuffix`, `Tools.StripKeepsSignificantFraction` and `Text.IntToDecimal`.
- `Chat.PreviousResponseId` (chat.service.ts:75-76): `Chat.SendMessageSpec` and `Chat.NextCallSeesRecordedId`.
- `History.LoadedFrom` (memory.manager.ts:13-28): `History.HistoryStore.LoadHistory` and `Chat.SendMessageSpec`.

## Left out

- `toolsService.getWeather` (tools.service.ts:20-51) is an abstract function. The model does not cover its HTTP fetch, environment lookup or temperatures.
- mathjs `evaluate` is the abstract parameter `evaluate`. A non-integral number appears only as the text of its `toFixed(10)`, so float rounding is not modelled.
- `JSON.parse` is the abstract partial function `parseJson`. A decoded object is a map, so duplicate keys are already settled.
- `JSON.stringify` of a non-number, non-string result appears only as its text (`OtherResult`).
- Text.ReplaceFirst: does not model the `$` patterns that `String.prototype.replace` reads in a replacement string. An input containing `$&` or `$'` would change the real prompt.
- Text.ToUpperCase: maps the ASCII letters, `ı` (U+0131) to `I` and `ſ` (U+017F) to `S`, and leaves every other character unchanged. The rest of the Unicode case mapping is not modelled, including length-changing mappings such as `ß` to `SS` and the ligatures `ﬀ` to `ﬆ` (to `FF`, `FI`, `FL`, `FFI`, `FFL`, `ST`). None of these produces the letters of a key of the table, so no code that reaches a key is missed.
- Text.IntToDecimal: does not model the exponent form (`1e+21`) that JavaScript uses for integers of magnitude 10^21 and above.
- Text.Trim: has no `ensures` of its own. Its properties are the lemmas `Text.TrimStartSpec`, `Text.TrimEndSpec`, `Text.TrimKeepsInfix` and `Text.TrimIgnoresPadding`.
- Tools.GetExchangeRate: the `catch` at tools.service.ts:91-93 is left out, because nothing in the `try` can throw on a string argument.
- The history file's I/O is left out:
  - JSON (de)serialisation;
  - the errors that memory.manager.ts logs and swallows;
  - a `delete` that does nothing.

  The store is state that load, save and reset read and write exactly.
- `console.log` and `console.error` output is left out.
- The conversation repository file is not part of this model. `Chat.ConversationRepository` is a plain per-conversation map, as its two calls in chat.service.ts use it.
- Nondeterminism of the model calls is left out: each call is a function of its arguments. Concurrency and interleaving between requests are left out too.
- The Express server and routes (index.ts:107-119), the client UI, prompts.ts, and the review repository and review service are transport, UI or prompt text. None of it is modelled.
- The option mismatch in packages/server/llm/client.ts:12-17 is left out: the client is not part of this model.

## Findings

| source | as written | input that shows it | evidently intended | confidence | as-written member | corrected member |
|---|---|---|---|---|---|---|
| packages/server/index.ts:82 | `handleUserMessage` calls `chatService.generalChat(history, userInput)`, but the `chatService` of chat.service.ts:21-105 defines only `sendMessage`, so the call throws a TypeError and the promise rejects | any input that the classifier sends to general chat, such as one for which the classifier's model call fails | general chat is answered by a chat handler given the history and the input, and the exchange is appended and saved like a tool reply | not executed | Bot.GeneralChatAsWrittenRejects | Bot.GeneralChatWithHandlerIsSaved |
