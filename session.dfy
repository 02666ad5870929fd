/**
 * The conversation session controller: the component state that holds every
 * conversation, the active one, the live copy of its messages, the request
 * flags and the message-edit state, with the operations the user triggers.
 * `HandleSubmit` runs one send from start to finish, the reply being given
 * as its chunks and how reading it ended.
 */
module Session {
  import opened Wrappers
  import opened Messages
  import opened Titles
  import opened HistoryFormatter
  import opened StreamSpec
  import Text

  /** A conversation created as the `count`-th one, with no messages yet. */
  function NewConversation(id: string, count: nat, timestamp: string): (c: Conversation)
    ensures c.id == id && c.title == Placeholder(count) && c.timestamp == timestamp && c.messages == []
  {
    Conversation(id, Placeholder(count), timestamp, [])
  }

  class ChatSession {
    /** Every conversation, by id. */
    var conversations: map<string, Conversation>
    /** The conversation shown, `None` for the initial `null`. */
    var activeId: Option<string>
    /** The live copy of the shown conversation's messages. */
    var messages: seq<Message>
    /** A reply is being awaited or read. */
    var isLoading: bool
    var showTypingIndicator: bool
    /** An abort controller is held for the request in flight. */
    var generating: bool
    /** The message being edited and the text typed into its editor. */
    var editingIndex: Option<nat>
    var editedContent: string
    var showWelcome: bool

    /** A set active id names a stored conversation. */
    ghost predicate Valid()
      reads this
    {
      activeId.Some? ==> activeId.value in conversations
    }

    /** `activeConversationId` is truthy: set, and not the empty string. */
    predicate HasActive(): (b: bool)
      reads this
      ensures b <==> exists id :: activeId == Some(id) && |id| > 0
    {
      activeId.Some? && activeId.value != ""
    }

    ghost function RequestState(): (bool, bool, bool)
      reads this
    {
      (isLoading, showTypingIndicator, generating)
    }

    ghost function EditState(): (Option<nat>, string)
      reads this
    {
      (editingIndex, editedContent)
    }

    ghost function ViewState(): (Option<string>, seq<Message>, bool)
      reads this
    {
      (activeId, messages, showWelcome)
    }

    /**
     * The state after the first render: the parsed store `saved` (`None` when
     * nothing was stored or it did not parse) and the stored active id. When
     * that id names a stored conversation it is shown; otherwise a new
     * conversation is added, numbered 1 because the creating closure still
     * sees the empty initial map.
     */
    constructor Load(saved: Option<map<string, Conversation>>, lastActiveId: Option<string>,
                     newId: string, timestamp: string)
      ensures Valid() && activeId.Some?
      ensures var resumes := saved.Some? && lastActiveId.Some? && lastActiveId.value != "" &&
                             lastActiveId.value in saved.value;
        (resumes ==> conversations == saved.value && activeId == lastActiveId &&
                     messages == saved.value[lastActiveId.value].messages && !showWelcome) &&
        (!resumes ==> conversations == (if saved.Some? then saved.value else map[])[newId := NewConversation(newId, 1, timestamp)] &&
                      activeId == Some(newId) && messages == [] && showWelcome)
      ensures RequestState() == (false, false, false) && EditState() == (None, "")
    {
      conversations := map[];
      activeId := None;
      messages := [];
      isLoading, showTypingIndicator, generating := false, false, false;
      editingIndex, editedContent := None, "";
      showWelcome := true;
      new;
      if saved.Some? {
        conversations := saved.value;
        if lastActiveId.Some? && lastActiveId.value != "" && lastActiveId.value in saved.value {
          activeId := lastActiveId;
          messages := saved.value[lastActiveId.value].messages;
          showWelcome := false;
          return;
        }
      }
      StartConversation(newId, timestamp, 0);
    }

    /** `createNewConversation` as run from a closure that sees `seen` conversations. */
    method StartConversation(newId: string, timestamp: string, seen: nat)
      modifies this
      ensures conversations == old(conversations)[newId := NewConversation(newId, seen + 1, timestamp)]
      ensures activeId == Some(newId) && messages == [] && showWelcome
      ensures Valid()
      ensures RequestState() == old(RequestState()) && EditState() == old(EditState())
    {
      var conversation := NewConversation(newId, seen + 1, timestamp);
      conversations := conversations[newId := conversation];
      activeId := Some(newId);
      messages := conversation.messages;
      showWelcome := true;
    }

    /** The new-chat button: a conversation numbered after the ones that exist, made active. */
    method CreateNewConversation(newId: string, timestamp: string)
      modifies this
      ensures conversations == old(conversations)[newId := NewConversation(newId, |old(conversations)| + 1, timestamp)]
      ensures activeId == Some(newId) && messages == [] && showWelcome
      ensures Valid()
      ensures RequestState() == old(RequestState()) && EditState() == old(EditState())
    {
      StartConversation(newId, timestamp, |conversations|);
    }

    /** Shows a stored conversation; an unknown id changes nothing. */
    method SwitchConversation(id: string)
      modifies this
      ensures conversations == old(conversations)
      ensures id in conversations || old(Valid()) ==> Valid()
      ensures id in conversations ==>
        activeId == Some(id) && messages == conversations[id].messages && showWelcome == (messages == [])
      ensures id !in conversations ==> ViewState() == old(ViewState())
      ensures RequestState() == old(RequestState()) && EditState() == old(EditState())
    {
      if id in conversations {
        activeId := Some(id);
        messages := conversations[id].messages;
        showWelcome := |conversations[id].messages| == 0;
      }
    }

    /** Titles conversation `id` after the first user message of `ms`, if it has content. */
    method UpdateConversationTitle(id: string, ms: seq<Message>)
      requires id in conversations
      modifies this
      ensures conversations == old(conversations)[id := old(conversations)[id].(title := DerivedTitle(old(conversations)[id].title, ms))]
      ensures ViewState() == old(ViewState())
      ensures RequestState() == old(RequestState()) && EditState() == old(EditState())
    {
      var firstUserMessage := FirstWithRole(ms, User);
      if firstUserMessage.Some? && firstUserMessage.value.content != "" {
        var title := TitleFrom(firstUserMessage.value.content);
        conversations := conversations[id := conversations[id].(title := title)];
      } else {
        assert conversations[id := conversations[id]] == conversations;
      }
    }

    /**
     * The sidebar's delete button: removes conversation `id`. When it was the
     * active one, some remaining conversation is shown, or, if none remains,
     * a new one is created, numbered after the count the closure saw before
     * the removal.
     */
    method DeleteConversation(id: string, newId: string, timestamp: string)
      requires Valid()
      modifies this
      ensures Valid()
      ensures var rest := old(conversations) - {id};
        (old(activeId) != Some(id) ==> conversations == rest && ViewState() == old(ViewState())) &&
        (old(activeId) == Some(id) && rest != map[] ==>
          conversations == rest && activeId.Some? && activeId.value in rest &&
          messages == rest[activeId.value].messages && showWelcome == (messages == [])) &&
        (old(activeId) == Some(id) && rest == map[] ==>
          conversations == map[newId := NewConversation(newId, |old(conversations)| + 1, timestamp)] &&
          activeId == Some(newId) && messages == [] && showWelcome)
      ensures RequestState() == old(RequestState()) && EditState() == old(EditState())
    {
      var seen := |conversations|;
      var remainingIds := conversations.Keys - {id};
      conversations := conversations - {id};
      if activeId == Some(id) {
        if remainingIds != {} {
          var next :| next in remainingIds;
          SwitchConversation(next);
        } else {
          assert conversations == map[];
          StartConversation(newId, timestamp, seen);
        }
      }
    }

    /** The header's delete button: deletes the active conversation; nothing without one (an
      * empty id counts as none). */
    method DeleteActiveConversation(newId: string, timestamp: string)
      requires Valid()
      modifies this
      ensures Valid()
      ensures !old(HasActive()) ==> conversations == old(conversations) && ViewState() == old(ViewState())
      ensures old(HasActive()) ==>
        var rest := old(conversations) - {old(activeId).value};
        (rest != map[] ==>
          conversations == rest && activeId.Some? && activeId.value in rest &&
          messages == rest[activeId.value].messages && showWelcome == (messages == [])) &&
        (rest == map[] ==>
          conversations == map[newId := NewConversation(newId, |old(conversations)| + 1, timestamp)] &&
          activeId == Some(newId) && messages == [] && showWelcome)
      ensures RequestState() == old(RequestState()) && EditState() == old(EditState())
    {
      if !HasActive() {
        return;
      }
      DeleteConversation(activeId.value, newId, timestamp);
    }

    /** Removes message `index` from the live copy and the stored conversation; nothing while loading. */
    method DeleteMessage(index: int)
      requires Valid() && activeId.Some?
      modifies this
      ensures Valid() && activeId == old(activeId) && showWelcome == old(showWelcome)
      ensures old(isLoading) ==> messages == old(messages) && conversations == old(conversations)
      ensures !old(isLoading) ==>
        messages == Without(old(messages), index) &&
        conversations == old(conversations)[activeId.value := old(conversations)[activeId.value].(messages := messages)]
      ensures !old(isLoading) ==> conversations[activeId.value].messages == messages
      ensures RequestState() == old(RequestState()) && EditState() == old(EditState())
    {
      if isLoading {
        return;
      }
      var updatedMessages := Without(messages, index);
      messages := updatedMessages;
      var a := activeId.value;
      conversations := conversations[a := conversations[a].(messages := updatedMessages)];
    }

    /** Opens the editor on message `index` with its content; nothing while loading. */
    method StartEditMessage(index: nat)
      requires index < |messages|
      modifies this
      ensures conversations == old(conversations) && ViewState() == old(ViewState())
      ensures old(isLoading) ==> EditState() == old(EditState())
      ensures !old(isLoading) ==> editingIndex == Some(index) && editedContent == messages[index].content
      ensures RequestState() == old(RequestState())
    {
      if isLoading {
        return;
      }
      editingIndex := Some(index);
      editedContent := messages[index].content;
    }

    /** Typing into the open message editor. */
    method ChangeEditedContent(text: string)
      modifies this
      ensures editedContent == text && editingIndex == old(editingIndex)
      ensures conversations == old(conversations) && ViewState() == old(ViewState())
      ensures RequestState() == old(RequestState())
    {
      editedContent := text;
    }

    /** Puts the edited text in place of the content of the edited message, then closes the editor. */
    method SaveEditedMessage()
      requires Valid() && activeId.Some?
      requires editingIndex.Some? && editingIndex.value < |messages|
      modifies this
      ensures Valid() && activeId == old(activeId) && showWelcome == old(showWelcome)
      ensures messages == WithContent(old(messages), old(editingIndex).value, old(editedContent))
      ensures conversations == old(conversations)[activeId.value := old(conversations)[activeId.value].(messages := messages)]
      ensures conversations[activeId.value].messages == messages
      ensures EditState() == (None, "")
      ensures RequestState() == old(RequestState())
    {
      var i := editingIndex.value;
      var updatedMessages := WithContent(messages, i, editedContent);
      messages := updatedMessages;
      var a := activeId.value;
      conversations := conversations[a := conversations[a].(messages := updatedMessages)];
      editingIndex := None;
      editedContent := "";
    }

    /** Closes the message editor without saving. */
    method CancelEditMessage()
      modifies this
      ensures EditState() == (None, "")
      ensures conversations == old(conversations) && ViewState() == old(ViewState())
      ensures RequestState() == old(RequestState())
    {
      editingIndex := None;
      editedContent := "";
    }

    /** The stop button: aborts the request in flight, if any, and clears the loading flag. */
    method StopGeneration()
      modifies this
      ensures old(generating) ==> !generating && !isLoading && showTypingIndicator == old(showTypingIndicator)
      ensures !old(generating) ==> RequestState() == old(RequestState())
      ensures conversations == old(conversations) && ViewState() == old(ViewState())
      ensures EditState() == old(EditState())
    {
      if generating {
        generating := false;
        isLoading := false;
      }
    }

    /**
     * The start of a send of `input` from conversation `a`, the active one:
     * an abort controller is taken, the user message is appended to the live
     * copy and the stored conversation, whose timestamp is set, and the
     * loading and typing flags go up. A conversation without user messages
     * so far is titled after this one.
     */
    method BeginSend(input: string, timestamp: string) returns (a: string, newMessages: seq<Message>)
      requires Valid() && activeId.Some?
      modifies this
      ensures Valid() && a == old(activeId).value && activeId == old(activeId)
      ensures newMessages == old(messages) + [Message(User, input)] && messages == newMessages
      ensures var before := old(conversations)[a];
        conversations == old(conversations)[a := Conversation(before.id, SentTitle(before.title, old(messages), input), timestamp, newMessages)]
      ensures RequestState() == (true, true, true) && !showWelcome && EditState() == old(EditState())
    {
      a := activeId.value;
      generating := true;
      var userMessage := Message(User, input);
      var prior := messages;
      newMessages := messages + [userMessage];
      messages := newMessages;
      isLoading := true;
      showWelcome := false;
      showTypingIndicator := true;
      conversations := conversations[a := conversations[a].(messages := newMessages, timestamp := timestamp)];
      if |WithRole(prior, User)| == 0 {
        UpdateConversationTitle(a, newMessages);
      }
    }

    /**
     * One chunk read for conversation `a`: `accumulated` grows by `chunk`;
     * the first chunk appends an assistant message holding it after
     * `newMessages`, a later one overwrites the content of the last live
     * message; the stored conversation follows the live copy. A later
     * chunk that finds the live list empty (a new or empty conversation
     * was opened meanwhile) writes past no entry: the live list stays
     * empty and `a` is stored with no messages.
     */
    method ReceiveChunk(a: string, newMessages: seq<Message>, accumulated: string, isFirstChunk: bool, chunk: string)
      returns (assistantResponse: string)
      requires a in conversations
      modifies this
      ensures assistantResponse == accumulated + chunk
      ensures isFirstChunk ==> messages == newMessages + [Message(Assistant, assistantResponse)] && !showTypingIndicator
      ensures !isFirstChunk && old(messages) != [] ==>
        messages == old(messages)[|old(messages)| - 1 := old(messages)[|old(messages)| - 1].(content := assistantResponse)]
      ensures !isFirstChunk && old(messages) == [] ==> messages == []
      ensures !isFirstChunk ==> showTypingIndicator == old(showTypingIndicator)
      ensures conversations == old(conversations)[a := old(conversations)[a].(messages := messages)]
      ensures activeId == old(activeId) && showWelcome == old(showWelcome)
      ensures isLoading == old(isLoading) && generating == old(generating) && EditState() == old(EditState())
    {
      assistantResponse := accumulated + chunk;
      if isFirstChunk {
        var updatedMessages := newMessages + [Message(Assistant, assistantResponse)];
        messages := updatedMessages;
        showTypingIndicator := false;
        conversations := conversations[a := conversations[a].(messages := updatedMessages)];
      } else if messages == [] {
        conversations := conversations[a := conversations[a].(messages := [])];
      } else {
        var last := |messages| - 1;
        var updated := messages[last := messages[last].(content := assistantResponse)];
        messages := updated;
        conversations := conversations[a := conversations[a].(messages := updated)];
      }
    }

    /** A failed request: `newMessages` and one error message, live and stored; a partial answer is dropped. */
    method FailSend(a: string, newMessages: seq<Message>, reason: string)
      requires a in conversations
      modifies this
      ensures messages == newMessages + [ErrorMessage(reason)]
      ensures conversations == old(conversations)[a := old(conversations)[a].(messages := messages)]
      ensures activeId == old(activeId) && showWelcome == old(showWelcome)
      ensures RequestState() == old(RequestState()) && EditState() == old(EditState())
    {
      var updatedMessages := newMessages + [ErrorMessage(reason)];
      messages := updatedMessages;
      conversations := conversations[a := conversations[a].(messages := updatedMessages)];
    }

    /** The `finally` of a send: no loading, no abort controller, no typing indicator. */
    method FinishSend()
      modifies this
      ensures RequestState() == (false, false, false)
      ensures conversations == old(conversations) && ViewState() == old(ViewState())
      ensures EditState() == old(EditState())
    {
      isLoading := false;
      generating := false;
      showTypingIndicator := false;
    }

    /**
     * The read loop and its ending for a send from conversation `a` whose
     * list became `newMessages`: every chunk is applied in arrival order,
     * then a failure puts the error message in place of any partial answer,
     * a cancellation goes through the stop button, and the flags are cleared.
     */
    method ReadReply(a: string, newMessages: seq<Message>, reply: Reply)
      requires a in conversations && messages == newMessages && conversations[a].messages == newMessages
      requires isLoading && generating
      modifies this
      ensures messages == ReplyMessages(newMessages, reply)
      ensures conversations == old(conversations)[a := old(conversations)[a].(messages := messages)]
      ensures activeId == old(activeId) && showWelcome == old(showWelcome)
      ensures RequestState() == (false, false, false) && EditState() == old(EditState())
    {
      var assistantResponse := "";
      var isFirstChunk := true;
      var i := 0;
      while i < |reply.chunks|
        invariant 0 <= i <= |reply.chunks|
        invariant assistantResponse == Joined(reply.chunks[..i])
        invariant isFirstChunk == (i == 0)
        invariant messages == if i == 0 then newMessages else newMessages + [Message(Assistant, assistantResponse)]
        invariant conversations == old(conversations)[a := old(conversations)[a].(messages := messages)]
        invariant activeId == old(activeId) && showWelcome == old(showWelcome)
        invariant isLoading && generating && EditState() == old(EditState())
      {
        var chunk := reply.chunks[i];
        assert reply.chunks[..i + 1] == reply.chunks[..i] + [chunk];
        JoinedSnoc(reply.chunks[..i], chunk);
        assistantResponse := ReceiveChunk(a, newMessages, assistantResponse, isFirstChunk, chunk);
        isFirstChunk := false;
        i := i + 1;
      }
      assert reply.chunks[..i] == reply.chunks;

      match reply.outcome {
        case Completed =>
        case Aborted =>
          StopGeneration();
        case Failed(reason) =>
          FailSend(a, newMessages, reason);
      }
      FinishSend();
    }

    /**
     * The state after `input` was sent from the conversation active before
     * and `reply` was read: the live list is the reply applied to the old
     * list plus the user message, the same conversation stays active and
     * its stored copy follows, with the title of a first send, the request
     * flags are cleared, edits are untouched, and the payload holds the
     * i-th prior user and assistant messages at 2i and 2i + 1, alternating
     * roles and ending with the user message.
     */
    twostate predicate Sent(input: string, timestamp: string, reply: Reply, payload: seq<Message>)
      reads this
    {
      && old(activeId).Some? && old(activeId).value in old(conversations)
      && var a := old(activeId).value;
      var before := old(conversations)[a];
      && messages == ReplyMessages(old(messages) + [Message(User, input)], reply)
      && conversations == old(conversations)[a := Conversation(before.id, SentTitle(before.title, old(messages), input), timestamp, messages)]
      && activeId == old(activeId) && !showWelcome
      && RequestState() == (false, false, false) && EditState() == old(EditState())
      && |payload| == 2 * Min(|WithRole(old(messages), User)|, |WithRole(old(messages), Assistant)|) + 1
      && payload[|payload| - 1] == Message(User, input)
      && (forall k :: 0 <= k < |payload| - 1 ==>
            payload[k] == if k % 2 == 0 then WithRole(old(messages), User)[k / 2] else WithRole(old(messages), Assistant)[k / 2])
      && forall k :: 0 <= k < |payload| ==> payload[k].role == if k % 2 == 0 then User else Assistant
    }

    /**
     * Sends `input` from the active conversation and reads `reply` into that
     * conversation. Returns the payload sent.
     */
    method Send(input: string, timestamp: string, reply: Reply) returns (payload: seq<Message>)
      requires Valid() && activeId.Some?
      modifies this
      ensures Valid() && Sent(input, timestamp, reply, payload)
    {
      var prior := messages;
      var a, newMessages := BeginSend(input, timestamp);
      payload := FormatHistory(prior, Message(User, input));
      ReadReply(a, newMessages, reply);
    }

    /**
     * `handleSubmit`: blank input, or no active conversation (an empty id
     * counts as none), does nothing and sends nothing (payload []);
     * otherwise `Send`.
     */
    method HandleSubmit(input: string, timestamp: string, reply: Reply) returns (payload: seq<Message>)
      requires Valid()
      modifies this
      ensures Valid()
      ensures Text.IsBlank(input) || !old(HasActive()) ==>
        payload == [] && conversations == old(conversations) && ViewState() == old(ViewState()) &&
        RequestState() == old(RequestState()) && EditState() == old(EditState())
      ensures !Text.IsBlank(input) && old(HasActive()) ==> Sent(input, timestamp, reply, payload)
    {
      if Text.IsBlank(input) || !HasActive() {
        return [];
      }
      payload := Send(input, timestamp, reply);
    }
  }

  /** The title of a conversation titled `current` after `input` is sent with `prior` already in it. */
  function SentTitle(current: string, prior: seq<Message>, input: string): (t: string)
    ensures WithRole(prior, User) != [] ==> t == current
    ensures WithRole(prior, User) == [] && input != "" ==> t == TitleFrom(input)
    ensures WithRole(prior, User) == [] && input == "" ==> t == current
  {
    if WithRole(prior, User) != [] then current
    else if input == "" then
      WithRoleSnoc(prior, Message(User, input), User);
      DerivedTitle(current, prior + [Message(User, input)])
    else
      FirstSendTitle(current, prior, input);
      DerivedTitle(current, prior + [Message(User, input)])
  }

  /**
   * A first run: nothing stored, `input` "Hello" sent, the reply streamed as
   * "Hi" and " there". The one conversation is titled "Hello" and holds the
   * two messages, in the live copy and in the store.
   */
  method FirstSendScenario(input: string, chunks: seq<string>) returns (count: nat, title: string, shown: seq<Message>, stored: seq<Message>)
    requires input == "Hello" && chunks == ["Hi", " there"]
    ensures count == 1 && title == "Hello"
    ensures shown == [Message(User, "Hello"), Message(Assistant, "Hi there")] && stored == shown
  {
    var session := new ChatSession.Load(None, None, "1", "t0");
    assert session.conversations == map["1" := NewConversation("1", 1, "t0")];
    assert !Text.IsSpace(input[0]);
    assert WithRole(session.messages, User) == [];
    assert TitleFrom(input) == "Hello";
    HiThere([Message(User, input)], chunks);
    var payload := session.HandleSubmit(input, "t1", Reply(chunks, Completed));
    count := |session.conversations|;
    title := session.conversations["1"].title;
    shown := session.messages;
    stored := session.conversations["1"].messages;
  }

  /**
   * A switch during a stream, as the code is written: conversation "a" is
   * active and empty, "b" holds the one message `bm`. "Hello" is sent from
   * "a", the chunk "Hi" arrives, the user switches to "b", and " there"
   * arrives. The later chunk edits the live list, which by then is b's, and
   * stores it under "a": "a" ends up holding b's message with the answer as
   * its content, while "b" itself is unchanged in the store.
   */
  method SwitchDuringStream(bm: Message) returns (storedA: seq<Message>, storedB: seq<Message>, shown: seq<Message>)
    ensures storedA == [bm.(content := "Hi there")]
    ensures storedB == [bm]
    ensures shown == storedA
  {
    var saved := map["a" := Conversation("a", "A", "t0", []), "b" := Conversation("b", "B", "t0", [bm])];
    var session := new ChatSession.Load(Some(saved), Some("a"), "n", "t0");
    assert session.conversations == saved && session.activeId == Some("a");
    var a, newMessages := session.BeginSend("Hello", "t1");
    assert a == "a" && session.conversations["b"].messages == [bm];
    var soFar := session.ReceiveChunk(a, newMessages, "", true, "Hi");
    assert session.conversations["b"].messages == [bm];
    session.SwitchConversation("b");
    assert session.messages == [bm];
    soFar := session.ReceiveChunk(a, newMessages, soFar, false, " there");
    assert soFar == "Hi there";
    assert session.messages == [bm.(content := "Hi there")];
    storedA := session.conversations["a"].messages;
    storedB := session.conversations["b"].messages;
    shown := session.messages;
  }

  /**
   * "New chat" during a stream, as the code is written: "Hello" is sent
   * from the empty conversation "a", the chunk "Hi" arrives, the new-chat
   * button opens the empty conversation "c", and " there" arrives. The
   * later chunk finds the live list empty and stores that empty list under
   * "a": the user message and the answer are both lost.
   */
  method NewChatDuringStream() returns (storedA: seq<Message>, shown: seq<Message>)
    ensures storedA == [] && shown == []
  {
    var saved := map["a" := Conversation("a", "A", "t0", [])];
    var session := new ChatSession.Load(Some(saved), Some("a"), "n", "t0");
    assert session.conversations == saved && session.activeId == Some("a");
    var a, newMessages := session.BeginSend("Hello", "t1");
    var soFar := session.ReceiveChunk(a, newMessages, "", true, "Hi");
    session.CreateNewConversation("c", "t2");
    assert session.messages == [];
    soFar := session.ReceiveChunk(a, newMessages, soFar, false, " there");
    storedA := session.conversations["a"].messages;
    shown := session.messages;
  }
}
