/**
 * The agent chat endpoints of server.js: a module-level list of messages
 * that POST /api/chat/send appends to and GET /api/chat/history reads the
 * last fifty of. The message id (Date.now()) and its ISO timestamp are
 * parameters.
 */
module Chat {
  import opened Seqs

  datatype ChatMessage = ChatMessage(id: int, sender: string, avatar: string, text: string, timestamp: string)

  /** How many messages the history endpoint returns at most. */
  const HistoryWindow := 50

  const DefaultSender := "You"
  const UserAvatar := "👤"

  /** `sender || 'You'`: an absent or empty sender is shown as "You". */
  function SenderName(sender: string): (name: string)
    ensures sender == "" ==> name == DefaultSender
    ensures sender != "" ==> name == sender
    ensures name != ""
  {
    if sender == "" then DefaultSender else sender
  }

  /** `chatHistory.slice(-50)`: the last fifty messages, oldest first. */
  function LastWindow(messages: seq<ChatMessage>): (r: seq<ChatMessage>)
    ensures |r| == Min(HistoryWindow, |messages|)
    ensures r == messages[|messages| - |r|..]
  {
    JsSlice(messages, 0 - HistoryWindow, |messages|)
  }

  /** The latest message is the last one the history shows. */
  lemma LastWindowEndsWithLatest(messages: seq<ChatMessage>, m: ChatMessage)
    ensures var r := LastWindow(messages + [m]); |r| > 0 && r[|r| - 1] == m
  {
  }

  /** Appending a message shifts the window by one: it drops the oldest of a full window. */
  lemma LastWindowAfterSend(messages: seq<ChatMessage>, m: ChatMessage)
    ensures LastWindow(messages + [m])
         == (if |messages| < HistoryWindow then LastWindow(messages) else LastWindow(messages)[1..]) + [m]
  {
    var r := LastWindow(messages);
    var s := messages + [m];
    if |messages| >= HistoryWindow {
      assert r[1..] + [m] == s[|s| - HistoryWindow..];
    } else {
      assert r == messages;
    }
  }

  /** The module-level chatHistory array. */
  class ChatLog {
    var messages: seq<ChatMessage>

    constructor ()
      ensures messages == []
    {
      messages := [];
    }

    /** GET /api/chat/history. */
    function History(): (r: seq<ChatMessage>)
      reads this
      ensures |r| <= HistoryWindow
      ensures r == LastWindow(messages)
    {
      LastWindow(messages)
    }

    /** POST /api/chat/send: appends the user's message and returns it. */
    method Send(text: string, sender: string, id: int, timestamp: string) returns (success: bool, sent: ChatMessage)
      modifies this
      ensures sent == ChatMessage(id, SenderName(sender), UserAvatar, text, timestamp)
      ensures messages == old(messages) + [sent]
      ensures success
    {
      sent := ChatMessage(id, SenderName(sender), UserAvatar, text, timestamp);
      messages := messages + [sent];
      success := true;
    }
  }
}
