/**
 * The orchestration entry point of index.ts, `handleUserMessage`: the `/reset`
 * short-circuit, classification, dispatch to a tool or to the chat handler,
 * and the append and persist of one user turn and one assistant turn.
 */
module Bot {
  import opened Wrappers
  import opened Router
  import opened History
  import opened Dispatch

  const ResetMessage := "Conversation history has been reset. Starting fresh!"

  /** The resolved value of `handleUserMessage`. */
  datatype BotReply = BotReply(botMessage: string, updatedHistory: seq<Message>)

  /**
   * The collaborators: the intent classifier (on the server, `RouterClassifier`),
   * the tools (on the server, `ServerTools`), and the chat handler, which answers
   * a history and an input with a reply or rejects with an error.
   */
  datatype BotEnv = BotEnv(
    classify: string -> Classification,
    tools: ToolSet,
    generalChat: (seq<Message>, string) -> Result<string, string>)

  /** The promise `handleUserMessage` returns, and the history file after it settles. */
  datatype BotOutcome = BotOutcome(reply: Result<BotReply, string>, file: Option<seq<Message>>)

  /**
   * `handleUserMessage(userInput, history)` started with the history file in
   * state `file`. A rejection of the chat handler rejects the whole call
   * before anything is saved.
   */
  function HandleUserMessageSpec(file: Option<seq<Message>>, userInput: string, history: seq<Message>, env: BotEnv): (o: BotOutcome)
    // `/reset`: the file is deleted and the fixed message comes back with an empty history
    ensures IsResetCommand(userInput) ==> o == BotOutcome(Success(BotReply(ResetMessage, [])), None)
    // otherwise a reply carries the history plus exactly the raw input and the reply, and that is what is saved
    ensures !IsResetCommand(userInput) && o.reply.Success? ==>
      var reply := o.reply.value;
      && |reply.updatedHistory| == |history| + 2
      && reply.updatedHistory[..|history|] == history
      && reply.updatedHistory[|history|] == Message(User, userInput)
      && reply.updatedHistory[|history| + 1] == Message(Assistant, reply.botMessage)
      && o.file == Some(reply.updatedHistory)
    // a rejected call leaves the file as it was
    ensures o.reply.Failure? ==> o.file == file
    // weather, math and exchange: the named tool's reply, which never rejects
    ensures !IsResetCommand(userInput) && ToolReply(env.classify(userInput), env.tools).Some? ==>
      o.reply.Success? && o.reply.value.botMessage == ToolReply(env.classify(userInput), env.tools).value
    // generalChat: the chat handler, given the prior history and the raw input
    ensures !IsResetCommand(userInput) && ToolReply(env.classify(userInput), env.tools).None? ==>
      match env.generalChat(history, userInput)
      case Success(m) => o.reply.Success? && o.reply.value.botMessage == m
      case Failure(e) => o.reply == Failure(e)
  {
    if IsResetCommand(userInput) then
      BotOutcome(Success(BotReply(ResetMessage, [])), None)
    else
      var botMessage :=
        match ToolReply(env.classify(userInput), env.tools)
        case Some(m) => Success(m)
        case None => env.generalChat(history, userInput);
      match botMessage
      case Failure(e) => BotOutcome(Failure(e), file)
      case Success(m) =>
        var updatedHistory := AppendExchange(history, userInput, m);
        BotOutcome(Success(BotReply(m, updatedHistory)), Some(updatedHistory))
  }

  /** `handleUserMessage` on the store: it resets or saves the store as the specification says. */
  method HandleUserMessage(store: HistoryStore, userInput: string, history: seq<Message>, env: BotEnv)
    returns (r: Result<BotReply, string>)
    modifies store
    ensures r == HandleUserMessageSpec(old(store.file), userInput, history, env).reply
    ensures store.file == HandleUserMessageSpec(old(store.file), userInput, history, env).file
  {
    if IsResetCommand(userInput) {
      store.ResetHistory();
      return Success(BotReply(ResetMessage, []));
    }
    var classification := env.classify(userInput);
    var botMessage: string;
    match ToolReply(classification, env.tools) {
      case Some(m) =>
        botMessage := m;
      case None =>
        var chat := env.generalChat(history, userInput);
        if chat.Failure? {
          return Failure(chat.error);
        }
        botMessage := chat.value;
    }
    var updatedHistory := AppendExchange(history, userInput, botMessage);
    store.SaveHistory(updatedHistory);
    return Success(BotReply(botMessage, updatedHistory));
  }

  /** `/reset` consults no collaborator: neither the classifier, nor a tool, nor the chat handler. */
  lemma ResetConsultsNoCollaborator(file: Option<seq<Message>>, userInput: string, history: seq<Message>, env1: BotEnv, env2: BotEnv)
    requires IsResetCommand(userInput)
    ensures HandleUserMessageSpec(file, userInput, history, env1) == HandleUserMessageSpec(file, userInput, history, env2)
  {
  }

  /** A tool intent never reaches the chat handler: replacing the handler changes nothing. */
  lemma ToolIntentIgnoresChatHandler(file: Option<seq<Message>>, userInput: string, history: seq<Message>, env: BotEnv,
                                     otherChat: (seq<Message>, string) -> Result<string, string>)
    requires env.classify(userInput).intent != GeneralChat
    ensures HandleUserMessageSpec(file, userInput, history, env)
         == HandleUserMessageSpec(file, userInput, history, env.(generalChat := otherChat))
  {
  }

  /** The returned message is always the content of the last turn of the returned history. */
  lemma BotMessageIsLastTurn(file: Option<seq<Message>>, userInput: string, history: seq<Message>, env: BotEnv)
    requires !IsResetCommand(userInput)
    requires HandleUserMessageSpec(file, userInput, history, env).reply.Success?
    ensures var reply := HandleUserMessageSpec(file, userInput, history, env).reply.value;
      && reply.updatedHistory != []
      && reply.updatedHistory[|reply.updatedHistory| - 1].content == reply.botMessage
      && reply.updatedHistory[|reply.updatedHistory| - 1].role == Assistant
  {
    var reply := HandleUserMessageSpec(file, userInput, history, env).reply.value;
    assert |reply.updatedHistory| - 1 == |history| + 1;
  }

  /** Two consecutive messages that both get a reply leave the four turns in order, on top of the first history. */
  lemma ConsecutiveMessagesStack(file: Option<seq<Message>>, u1: string, u2: string, history: seq<Message>, env: BotEnv)
    requires !IsResetCommand(u1) && !IsResetCommand(u2)
    requires HandleUserMessageSpec(file, u1, history, env).reply.Success?
    requires
      var first := HandleUserMessageSpec(file, u1, history, env);
      HandleUserMessageSpec(first.file, u2, first.reply.value.updatedHistory, env).reply.Success?
    ensures
      var first := HandleUserMessageSpec(file, u1, history, env);
      var second := HandleUserMessageSpec(first.file, u2, first.reply.value.updatedHistory, env);
      && second.file == Some(history + [
           Message(User, u1), Message(Assistant, first.reply.value.botMessage),
           Message(User, u2), Message(Assistant, second.reply.value.botMessage)])
  {
    var first := HandleUserMessageSpec(file, u1, history, env);
    var h1 := first.reply.value.updatedHistory;
    var second := HandleUserMessageSpec(first.file, u2, h1, env);
    var h2 := second.reply.value.updatedHistory;
    var b1, b2 := first.reply.value.botMessage, second.reply.value.botMessage;
    ExchangeShape(h1, history, u1, b1);
    ExchangeShape(h2, h1, u2, b2);
    assert second.file == Some(h2);
    assert (history + [Message(User, u1), Message(Assistant, b1)]) + [Message(User, u2), Message(Assistant, b2)]
        == history + [Message(User, u1), Message(Assistant, b1), Message(User, u2), Message(Assistant, b2)];
  }

  // ---------------------------------------------------------------------------
  // The chat handler as written: `chatService.generalChat` is not defined
  // ---------------------------------------------------------------------------

  const NotAFunction := "TypeError: chatService.generalChat is not a function"

  /**
   * index.ts calls `chatService.generalChat(history, userInput)`, but the
   * `chatService` object of chat.service.ts has only `sendMessage`: the call
   * evaluates `undefined(...)` and rejects with a TypeError.
   */
  const GeneralChatAsWritten: (seq<Message>, string) -> Result<string, string> :=
    (history: seq<Message>, userInput: string) => Failure(NotAFunction)

  /**
   * With the handler as written, every message that the classifier sends to
   * general chat rejects, and no history is saved.
   */
  lemma GeneralChatAsWrittenRejects(file: Option<seq<Message>>, userInput: string, history: seq<Message>, env: BotEnv)
    requires env.generalChat == GeneralChatAsWritten
    requires !IsResetCommand(userInput)
    requires env.classify(userInput).intent == GeneralChat
    ensures HandleUserMessageSpec(file, userInput, history, env) == BotOutcome(Failure(NotAFunction), file)
  {
    assert ToolReply(env.classify(userInput), env.tools).None?;
  }

  /** In particular every classifier failure, which falls back to general chat, rejects the message. */
  lemma ClassifierFailureRejectsAsWritten(file: Option<seq<Message>>, userInput: string, history: seq<Message>, env: BotEnv,
                                          llm: string -> Option<string>, parseJson: string -> Option<Json>)
    requires env.classify == RouterClassifier(llm, parseJson) && env.generalChat == GeneralChatAsWritten
    requires !IsResetCommand(userInput)
    requires llm(BuildPrompt(userInput)).None?
    ensures HandleUserMessageSpec(file, userInput, history, env).reply.Failure?
  {
    assert env.classify(userInput) == Fallback;
    GeneralChatAsWrittenRejects(file, userInput, history, env);
  }

  /**
   * With a chat handler that exists and answers, general chat is answered and
   * saved like any tool reply: the input and the handler's answer are appended
   * to the prior history.
   */
  lemma GeneralChatWithHandlerIsSaved(file: Option<seq<Message>>, userInput: string, history: seq<Message>, env: BotEnv, answer: string)
    requires !IsResetCommand(userInput)
    requires env.classify(userInput).intent == GeneralChat
    requires env.generalChat(history, userInput) == Success(answer)
    ensures HandleUserMessageSpec(file, userInput, history, env)
         == BotOutcome(Success(BotReply(answer, AppendExchange(history, userInput, answer))), Some(AppendExchange(history, userInput, answer)))
  {
    assert ToolReply(env.classify(userInput), env.tools).None?;
  }
}
