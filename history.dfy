/**
 * Conversation messages and the history store behind them (the history.json
 * file that memory.manager.ts loads, saves and deletes), held as state.
 */
module History {
  import opened Wrappers

  datatype Role = User | Assistant | System

  datatype Message = Message(role: Role, content: string)

  /** What `loadHistory` returns for a given state of the file: its contents, or `[]` when it is absent. */
  function LoadedFrom(file: Option<seq<Message>>): seq<Message> {
    file.GetOr([])
  }

  /**
   * The store. `file` is `None` while history.json does not exist and
   * `Some(h)` once it holds the conversation `h`.
   */
  class HistoryStore {
    var file: Option<seq<Message>>

    constructor (initial: Option<seq<Message>>)
      ensures file == initial
    {
      file := initial;
    }

    /** `loadHistory`: the stored conversation, or the empty one when there is no file. */
    method LoadHistory() returns (h: seq<Message>)
      ensures file.None? ==> h == []
      ensures file.Some? ==> h == file.value
    {
      match file
      case None => h := [];
      case Some(stored) => h := stored;
    }

    /** `saveHistory`: the file now holds exactly `messages`. */
    method SaveHistory(messages: seq<Message>)
      modifies this
      ensures file == Some(messages)
    {
      file := Some(messages);
    }

    /** `resetHistory`: the file is gone, whether it existed or not. */
    method ResetHistory()
      modifies this
      ensures file == None
    {
      file := None;
    }
  }

  /**
   * `[...history, { role: 'user', ... }, { role: 'assistant', ... }]`: one user
   * turn and one assistant turn after an untouched history.
   */
  function AppendExchange(history: seq<Message>, userText: string, botText: string): (r: seq<Message>)
    ensures |r| == |history| + 2
    ensures r[..|history|] == history
    ensures r[|history|] == Message(User, userText)
    ensures r[|history| + 1] == Message(Assistant, botText)
  {
    history + [Message(User, userText), Message(Assistant, botText)]
  }

  /** The exchange is determined by, and determines, the history before it and the two texts. */
  lemma AppendExchangeInjective(h1: seq<Message>, u1: string, b1: string, h2: seq<Message>, u2: string, b2: string)
    requires AppendExchange(h1, u1, b1) == AppendExchange(h2, u2, b2)
    ensures h1 == h2 && u1 == u2 && b1 == b2
  {
    var r := AppendExchange(h1, u1, b1);
    assert |h1| == |h2|;
    assert h1 == r[..|h1|] == h2;
    assert r[|h1|] == Message(User, u1) == Message(User, u2);
    assert r[|h1| + 1] == Message(Assistant, b1) == Message(Assistant, b2);
  }

  /** A history that has the shape of an appended exchange is that exchange. */
  lemma ExchangeShape(h: seq<Message>, history: seq<Message>, userText: string, botText: string)
    requires |h| == |history| + 2 && h[..|history|] == history
    requires h[|history|] == Message(User, userText) && h[|history| + 1] == Message(Assistant, botText)
    ensures h == AppendExchange(history, userText, botText)
  {
    var r := AppendExchange(history, userText, botText);
    assert forall i | 0 <= i < |history| :: h[i] == h[..|history|][i] == r[i];
  }
}
