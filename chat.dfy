/**
 * `chatService.sendMessage` (chat.service.ts): the `/reset` short-circuit,
 * history load, classification, dispatch to a tool or to the chat model, the
 * choice of the response id, the per-conversation last-response-id update,
 * and the save of the extended history.
 */
module Chat {
  import opened Wrappers
  import opened Router
  import opened History
  import opened Dispatch

  datatype ChatResponse = ChatResponse(id: string, message: string)

  const ResetResponse := ChatResponse("reset", "Conversation history has been reset. Welcome back!")

  /** The id returned for every reply that carries no model response id. */
  const ToolResponseId := "tool-response"

  /**
   * The last model response id of each conversation, which lets the model
   * continue a conversation from its previous answer. The repository's own
   * file is not part of this model; it is taken to be a plain per-conversation
   * map.
   */
  class ConversationRepository {
    var lastResponseIds: map<string, string>

    constructor ()
      ensures lastResponseIds == map[]
    {
      lastResponseIds := map[];
    }

    /** `getLastResponseId`: `None` when the conversation has no recorded id (`undefined`). */
    function GetLastResponseId(conversationId: string): (id: Option<string>)
      reads this
      ensures id.Some? <==> conversationId in lastResponseIds
      ensures id.Some? ==> id.value == lastResponseIds[conversationId]
    {
      if conversationId in lastResponseIds then Some(lastResponseIds[conversationId]) else None
    }

    /** `setLastResponseId`: records `responseId` for `conversationId`, and for no other conversation. */
    method SetLastResponseId(conversationId: string, responseId: string)
      modifies this
      ensures lastResponseIds == old(lastResponseIds)[conversationId := responseId]
    {
      lastResponseIds := lastResponseIds[conversationId := responseId];
    }
  }

  /** What `llmClient.generateText` resolves to. */
  datatype LlmReply = LlmReply(id: string, text: string)

  /**
   * The collaborators of `sendMessage`: the classifier, the tools, and the chat
   * model, which is given the prompt and the previous response id of the
   * conversation (the history is not passed to it) and resolves to a reply or
   * rejects with an error.
   */
  datatype ChatEnv = ChatEnv(
    classify: string -> Classification,
    tools: ToolSet,
    chatLlm: (string, Option<string>) -> Result<LlmReply, string>)

  /** The state `sendMessage` reads and writes: the history file and the id map. */
  datatype ChatState = ChatState(file: Option<seq<Message>>, ids: map<string, string>)

  /** The promise `sendMessage` returns (a rejection carries the rethrown error), and the state after it. */
  datatype ChatOutcome = ChatOutcome(response: Result<ChatResponse, string>, after: ChatState)

  function PreviousResponseId(ids: map<string, string>, conversationId: string): Option<string> {
    if conversationId in ids then Some(ids[conversationId]) else None
  }

  /** `responseId || 'tool-response'`. */
  function ResponseIdOr(responseId: string): (id: string)
    ensures id != ""
    ensures responseId != "" ==> id == responseId
    ensures responseId == "" ==> id == ToolResponseId
  {
    if responseId == "" then ToolResponseId else responseId
  }

  /** `sendMessage(prompt, conversationId)` started in state `before`. */
  function SendMessageSpec(before: ChatState, prompt: string, conversationId: string, env: ChatEnv): (o: ChatOutcome)
    // `/reset`: the file is deleted before any load, the id map stays, and the fixed response comes back
    ensures IsResetCommand(prompt) ==> o == ChatOutcome(Success(ResetResponse), ChatState(None, before.ids))
    // a response carries the reply that was appended, after the loaded history and the raw prompt
    ensures !IsResetCommand(prompt) && o.response.Success? ==>
      var loaded := LoadedFrom(before.file);
      && o.after.file.Some?
      && |o.after.file.value| == |loaded| + 2
      && o.after.file.value[..|loaded|] == loaded
      && o.after.file.value[|loaded|] == Message(User, prompt)
      && o.after.file.value[|loaded| + 1] == Message(Assistant, o.response.value.message)
    // a rejection changes nothing
    ensures o.response.Failure? ==> o.after == before
    // no conversation but `conversationId` has its entry touched
    ensures forall other :: other != conversationId ==>
      && (other in o.after.ids <==> other in before.ids)
      && (other in before.ids ==> o.after.ids[other] == before.ids[other])
    // a tool intent: the tool's reply under the id 'tool-response', and the id map unchanged
    ensures !IsResetCommand(prompt) && ToolReply(env.classify(prompt), env.tools).Some? ==>
      && o.response == Success(ChatResponse(ToolResponseId, ToolReply(env.classify(prompt), env.tools).value))
      && o.after.ids == before.ids
    // general chat: the model is asked with the conversation's previous id; its id is recorded and returned
    ensures !IsResetCommand(prompt) && ToolReply(env.classify(prompt), env.tools).None? ==>
      match env.chatLlm(prompt, PreviousResponseId(before.ids, conversationId))
      case Failure(e) => o.response == Failure(e)
      case Success(reply) =>
        && o.response == Success(ChatResponse(ResponseIdOr(reply.id), reply.text))
        && conversationId in o.after.ids && o.after.ids[conversationId] == reply.id
  {
    if IsResetCommand(prompt) then
      ChatOutcome(Success(ResetResponse), ChatState(None, before.ids))
    else
      var history := LoadedFrom(before.file);
      match ToolReply(env.classify(prompt), env.tools)
      case Some(botMessage) =>
        var updatedHistory := AppendExchange(history, prompt, botMessage);
        ChatOutcome(Success(ChatResponse(ToolResponseId, botMessage)), ChatState(Some(updatedHistory), before.ids))
      case None =>
        match env.chatLlm(prompt, PreviousResponseId(before.ids, conversationId))
        case Failure(e) => ChatOutcome(Failure(e), before)
        case Success(reply) =>
          var updatedHistory := AppendExchange(history, prompt, reply.text);
          ChatOutcome(
            Success(ChatResponse(ResponseIdOr(reply.id), reply.text)),
            ChatState(Some(updatedHistory), before.ids[conversationId := reply.id]))
  }

  /** `sendMessage` on the history store and the conversation repository. */
  method SendMessage(memory: HistoryStore, repo: ConversationRepository, prompt: string, conversationId: string, env: ChatEnv)
    returns (r: Result<ChatResponse, string>)
    modifies memory, repo
    ensures
      var o := SendMessageSpec(ChatState(old(memory.file), old(repo.lastResponseIds)), prompt, conversationId, env);
      && r == o.response
      && memory.file == o.after.file
      && repo.lastResponseIds == o.after.ids
  {
    if IsResetCommand(prompt) {
      memory.ResetHistory();
      return Success(ResetResponse);
    }
    var history := memory.LoadHistory();
    var classification := env.classify(prompt);
    var botMessage: string;
    var responseId: string := "";
    match ToolReply(classification, env.tools) {
      case Some(m) =>
        botMessage := m;
      case None =>
        var response := env.chatLlm(prompt, repo.GetLastResponseId(conversationId));
        if response.Failure? {
          return Failure(response.error);
        }
        botMessage := response.value.text;
        responseId := response.value.id;
        repo.SetLastResponseId(conversationId, responseId);
    }
    var updatedHistory := AppendExchange(history, prompt, botMessage);
    memory.SaveHistory(updatedHistory);
    return Success(ChatResponse(ResponseIdOr(responseId), botMessage));
  }

  /** The returned message is the content of the last turn saved to the file. */
  lemma MessageIsLastSavedTurn(before: ChatState, prompt: string, conversationId: string, env: ChatEnv)
    requires !IsResetCommand(prompt)
    requires SendMessageSpec(before, prompt, conversationId, env).response.Success?
    ensures
      var o := SendMessageSpec(before, prompt, conversationId, env);
      var saved := o.after.file.value;
      && saved != []
      && saved[|saved| - 1] == Message(Assistant, o.response.value.message)
  {
    var o := SendMessageSpec(before, prompt, conversationId, env);
    assert |o.after.file.value| - 1 == |LoadedFrom(before.file)| + 1;
  }

  /**
   * The returned id is 'tool-response' exactly when the reply came from a tool
   * or the model's id was empty; otherwise it is the model's id.
   */
  lemma ToolResponseIdExactly(before: ChatState, prompt: string, conversationId: string, env: ChatEnv)
    requires !IsResetCommand(prompt)
    requires SendMessageSpec(before, prompt, conversationId, env).response.Success?
    requires forall p, previous :: env.chatLlm(p, previous).Success? ==> env.chatLlm(p, previous).value.id != ToolResponseId
    ensures
      var id := SendMessageSpec(before, prompt, conversationId, env).response.value.id;
      id == ToolResponseId <==>
        || ToolReply(env.classify(prompt), env.tools).Some?
        || env.chatLlm(prompt, PreviousResponseId(before.ids, conversationId)).value.id == ""
  {
  }

  /** The id map changes only on the general-chat path, and then only at `conversationId`. */
  lemma IdMapChangesOnlyForChat(before: ChatState, prompt: string, conversationId: string, env: ChatEnv)
    requires SendMessageSpec(before, prompt, conversationId, env).after.ids != before.ids
    ensures !IsResetCommand(prompt)
    ensures env.classify(prompt).intent == GeneralChat
    ensures SendMessageSpec(before, prompt, conversationId, env).response.Success?
    ensures SendMessageSpec(before, prompt, conversationId, env).after.ids
         == before.ids[conversationId := SendMessageSpec(before, prompt, conversationId, env).after.ids[conversationId]]
  {
    var o := SendMessageSpec(before, prompt, conversationId, env);
    assert conversationId in o.after.ids;
    assert o.after.ids == before.ids[conversationId := o.after.ids[conversationId]];
  }

  /** A conversation continues from the id recorded by its previous general-chat reply. */
  lemma NextCallSeesRecordedId(before: ChatState, p1: string, conversationId: string, env: ChatEnv)
    requires !IsResetCommand(p1)
    requires env.classify(p1).intent == GeneralChat
    requires env.chatLlm(p1, PreviousResponseId(before.ids, conversationId)).Success?
    ensures
      var reply := env.chatLlm(p1, PreviousResponseId(before.ids, conversationId)).value;
      var after := SendMessageSpec(before, p1, conversationId, env).after;
      PreviousResponseId(after.ids, conversationId) == Some(reply.id)
  {
  }

  /** `/reset` consults no collaborator and leaves every recorded response id in place. */
  lemma ResetConsultsNoCollaborator(before: ChatState, prompt: string, conversationId: string, env1: ChatEnv, env2: ChatEnv)
    requires IsResetCommand(prompt)
    ensures SendMessageSpec(before, prompt, conversationId, env1) == SendMessageSpec(before, prompt, conversationId, env2)
    ensures SendMessageSpec(before, prompt, conversationId, env1).after.ids == before.ids
  {
  }

  /** After `/reset` the next message builds on an empty history. */
  lemma ResetThenMessage(before: ChatState, p1: string, p2: string, conversationId: string, env: ChatEnv)
    requires IsResetCommand(p1) && !IsResetCommand(p2)
    requires
      var mid := SendMessageSpec(before, p1, conversationId, env).after;
      SendMessageSpec(mid, p2, conversationId, env).response.Success?
    ensures
      var mid := SendMessageSpec(before, p1, conversationId, env).after;
      var o := SendMessageSpec(mid, p2, conversationId, env);
      o.after.file == Some([Message(User, p2), Message(Assistant, o.response.value.message)])
  {
    var mid := SendMessageSpec(before, p1, conversationId, env).after;
    var o := SendMessageSpec(mid, p2, conversationId, env);
    assert LoadedFrom(mid.file) == [];
    ExchangeShape(o.after.file.value, [], p2, o.response.value.message);
  }
}
