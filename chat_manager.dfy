/**
 * The chat session store (src/llm/chat_manager.py): one mutable message
 * list per chat id, extended in place by every successful exchange with the
 * language model. A list handed in by the caller becomes the session list
 * itself, so the caller sees the exchange appended to it.
 */
module ChatSessions {
  import opened Wrappers

  /** A stored `{"role": ..., "content": ...}` entry. */
  datatype Entry = Entry(role: string, content: string)

  /** A message as sent to the model. */
  datatype Message = Human(content: string) | Ai(content: string)

  /** Stored entries as model messages: role "human" is a human message, any other role an AI one. */
  function AsMessages(entries: seq<Entry>): (r: seq<Message>)
    ensures |r| == |entries|
    ensures forall i :: 0 <= i < |entries| ==>
              && r[i].content == entries[i].content
              && (r[i].Human? <==> entries[i].role == "human")
  {
    if entries == [] then []
    else AsMessages(entries[..|entries| - 1]) + [AsMessage(entries[|entries| - 1])]
  }

  function AsMessage(e: Entry): Message
  {
    if e.role == "human" then Human(e.content) else Ai(e.content)
  }

  /** What the model is sent: the converted history, then the new message. */
  function Conversation(entries: seq<Entry>, message: string): (r: seq<Message>)
    ensures |r| == |entries| + 1 && r[|entries|] == Human(message)
    ensures r[..|entries|] == AsMessages(entries)
  {
    AsMessages(entries) + [Human(message)]
  }

  /** The two entries a successful exchange appends. */
  function Exchange(message: string, reply: string): seq<Entry>
  {
    [Entry("human", message), Entry("assistant", reply)]
  }

  /** Converting a history that was itself built from exchanges gives back alternating human and AI turns. */
  lemma {:induction false} ExchangesAlternate(pairs: seq<(string, string)>)
    ensures var entries := Flatten(pairs);
            && |AsMessages(entries)| == 2 * |pairs|
            && forall k :: 0 <= k < |pairs| ==>
                 AsMessages(entries)[2 * k] == Human(pairs[k].0) && AsMessages(entries)[2 * k + 1] == Ai(pairs[k].1)
  {
    if pairs != [] {
      var n := |pairs| - 1;
      ExchangesAlternate(pairs[..n]);
      var entries := Flatten(pairs);
      assert entries == Flatten(pairs[..n]) + Exchange(pairs[n].0, pairs[n].1);
      forall k | 0 <= k < |pairs|
        ensures AsMessages(entries)[2 * k] == Human(pairs[k].0) && AsMessages(entries)[2 * k + 1] == Ai(pairs[k].1)
      {
        if k < n {
          assert entries[2 * k] == Flatten(pairs[..n])[2 * k];
          assert entries[2 * k + 1] == Flatten(pairs[..n])[2 * k + 1];
          assert pairs[k] == pairs[..n][k];
        }
      }
    }
  }

  /** The entries of a session built by `pairs` successful exchanges from an empty list. */
  function Flatten(pairs: seq<(string, string)>): (r: seq<Entry>)
    ensures |r| == 2 * |pairs|
  {
    if pairs == [] then []
    else Flatten(pairs[..|pairs| - 1]) + Exchange(pairs[|pairs| - 1].0, pairs[|pairs| - 1].1)
  }

  /** The conversion loop of chat: each stored entry as a model message, in order. */
  method ToMessages(entries: seq<Entry>) returns (messages: seq<Message>)
    ensures messages == AsMessages(entries)
  {
    messages := [];
    var i := 0;
    while i < |entries|
      invariant 0 <= i <= |entries|
      invariant messages == AsMessages(entries[..i])
    {
      var msg := entries[i];
      if msg.role == "human" {
        messages := messages + [Human(msg.content)];
      } else {
        messages := messages + [Ai(msg.content)];
      }
      assert entries[..i + 1][..i] == entries[..i];
      i := i + 1;
    }
    assert entries[..i] == entries;
  }

  /** A Python list of entries: an object that several holders may share. */
  class History {
    var entries: seq<Entry>

    constructor (entries: seq<Entry>)
      ensures this.entries == entries
    {
      this.entries := entries;
    }
  }

  class ChatManager {
    /** `_chat_sessions`: chat id to its list object. */
    var sessions: map<string, History>

    constructor ()
      ensures sessions == map[]
    {
      sessions := map[];
    }

    /** The list a call to `chat` works on, as chosen before the model is called. */
    function SessionFor(chatId: string, history: History?): set<History>
      reads this
    {
      if history != null then {history} else if chatId in sessions then {sessions[chatId]} else {}
    }

    /**
     * chat. `llm` stands for the model: it answers a conversation with a
     * reply or with the message of the exception it raised. The session is
     * chosen (replaced by the caller's list, reused, or started empty)
     * before the call; only a reply extends it.
     */
    method Chat(message: string, chatId: string, history: History?, llm: seq<Message> -> Result<string, string>)
      returns (reply: Result<string, string>)
      modifies this, SessionFor(chatId, history)
      ensures chatId in sessions
      ensures history != null ==> sessions == old(sessions)[chatId := history]
      ensures history == null && chatId in old(sessions) ==> sessions == old(sessions)
      ensures history == null && chatId !in old(sessions) ==>
                fresh(sessions[chatId]) && sessions == old(sessions)[chatId := sessions[chatId]]
      ensures var before := if history != null then old(history.entries)
                            else if chatId in old(sessions) then old(sessions[chatId].entries) else [];
              && reply == llm(Conversation(before, message))
              && sessions[chatId].entries == before + (if reply.Ok? then Exchange(message, reply.value) else [])
      ensures forall id :: id in old(sessions) && id != chatId ==> id in sessions && sessions[id] == old(sessions[id])
      ensures forall id :: id in old(sessions) && id != chatId && old(sessions[id]) !in old(SessionFor(chatId, history)) ==>
                sessions[id].entries == old(sessions[id].entries)
    {
      var current := SelectSession(chatId, history);
      var messages := ToMessages(current.entries);
      messages := messages + [Human(message)];
      reply := llm(messages);
      if reply.Ok? {
        current.entries := current.entries + [Entry("human", message), Entry("assistant", reply.value)];
      }
    }

    /** The session chat works on: the caller's list, the stored one, or a new empty list. */
    method SelectSession(chatId: string, history: History?) returns (current: History)
      modifies this
      ensures chatId in sessions && sessions[chatId] == current
      ensures history != null ==> current == history && sessions == old(sessions)[chatId := history]
      ensures history == null && chatId in old(sessions) ==> current == old(sessions[chatId]) && sessions == old(sessions)
      ensures history == null && chatId !in old(sessions) ==>
                fresh(current) && current.entries == [] && sessions == old(sessions)[chatId := current]
    {
      if history != null {
        sessions := sessions[chatId := history];
      } else if chatId !in sessions {
        var started := new History([]);
        sessions := sessions[chatId := started];
      }
      current := sessions[chatId];
    }

    /** get_chat_history: the session's own list object, or a new empty list for an unknown id. */
    method GetChatHistory(chatId: string) returns (h: History)
      ensures chatId in sessions ==> h == sessions[chatId]
      ensures chatId !in sessions ==> fresh(h) && h.entries == []
    {
      if chatId in sessions {
        h := sessions[chatId];
      } else {
        h := new History([]);
      }
    }

    /** clear_chat_history: forget the id; an unknown id is left as it is. */
    method ClearChatHistory(chatId: string)
      modifies this
      ensures sessions == old(sessions) - {chatId}
      ensures chatId !in sessions
    {
      sessions := sessions - {chatId};
    }
  }

  /** An assistant that always answers `text`. */
  function Answer(text: string): seq<Message> -> Result<string, string>
  {
    (conversation: seq<Message>) => Ok(text)
  }

  /** test_simple_chat: one exchange on a new id stores a human entry, then an assistant entry. */
  method SimpleChatScenario()
  {
    var manager := new ChatManager();
    var reply := manager.Chat("Hello! How are you?", "test_chat_1", null, Answer("Fine"));
    var h := manager.GetChatHistory("test_chat_1");
    assert |h.entries| == 2 && h.entries[0].role == "human" && h.entries[1].role == "assistant";
  }

  /** test_chat_with_history: the caller's three-entry list becomes the session and grows to five, seen by the caller. */
  method ChatWithHistoryScenario()
  {
    var manager := new ChatManager();
    var given := new History([Entry("human", "What is your name?"), Entry("assistant", "I am an assistant."),
                              Entry("human", "What did I just ask you?")]);
    var reply := manager.Chat("Can you remind me what we discussed?", "test_chat_2", given, Answer("Your name"));
    var h := manager.GetChatHistory("test_chat_2");
    assert h == given && |given.entries| == 5;
  }

  /** test_multiple_chat_sessions: two ids keep separate lists. */
  method MultipleSessionsScenario()
  {
    var manager := new ChatManager();
    var r1 := manager.Chat("Hello from session 1", "session_1", null, Answer("Hi 1"));
    var r2 := manager.Chat("Hello from session 2", "session_2", null, Answer("Hi 2"));
    var s1 := manager.GetChatHistory("session_1");
    var s2 := manager.GetChatHistory("session_2");
    assert s1.entries[0].content == "Hello from session 1" && |s1.entries| == 2;
    assert s2.entries[0].content == "Hello from session 2" && |s2.entries| == 2;
  }

  /** test_clear_chat_history, then a failed model call, which appends nothing. */
  method ClearAndFailScenario()
  {
    var manager := new ChatManager();
    var r1 := manager.Chat("Hello!", "test_chat_3", null, Answer("Hi"));
    manager.ClearChatHistory("test_chat_3");
    var cleared := manager.GetChatHistory("test_chat_3");
    assert cleared.entries == [];
    var failing := (conversation: seq<Message>) => Err("model unavailable");
    var r2 := manager.Chat("Hello?", "test_chat_3", null, failing);
    var after := manager.GetChatHistory("test_chat_3");
    assert after.entries == [];
  }
}
