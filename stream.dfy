/**
 * What one streamed reply does to a conversation: the chunks accumulate into
 * a single assistant message; a failure replaces it with one error message;
 * a cancellation keeps what was already committed.
 */
module StreamSpec {
  import opened Messages
  import Text

  /** How reading the reply ended, after the chunks that were read. */
  datatype Outcome =
    | Completed             // the reader reported `done`
    | Aborted               // the user stopped generation; the request rejected with an AbortError
    | Failed(reason: string) // any other error; `reason` is its `error.message`

  /** The reply to one request: the decoded chunks in arrival order and how it ended. */
  datatype Reply = Reply(chunks: seq<string>, outcome: Outcome)

  /** "Connection error: " in the component's language, before the error's text. */
  const ErrorPrefix: string := "حدث خطأ في الاتصال: "

  /** The assistant message that reports a failed request. */
  function ErrorMessage(reason: string): (m: Message)
    ensures m.role == Assistant && |m.content| >= |ErrorPrefix| && m.content[..|ErrorPrefix|] == ErrorPrefix
    ensures m.content[|ErrorPrefix|..] == reason
  {
    Message(Assistant, ErrorPrefix + reason)
  }

  /** `Error: ${response.status}`: the reason given when the response status is not 2xx. */
  function StatusReason(status: nat): (reason: string)
    ensures |reason| > 7 && reason[..7] == "Error: "
    ensures reason[7..] == Text.NatToString(status)
  {
    var digits := Text.NatToString(status);
    assert ("Error: " + digits)[7..] == digits;
    "Error: " + digits
  }

  /** The status in the reason reads back as the response's status. */
  lemma StatusReasonNumber(status: nat)
    ensures Text.DecimalValue(StatusReason(status)[7..]) == status
  {
    Text.NatToStringRoundTrip(status);
  }

  /** The reply a non-2xx response amounts to: no chunks, and a failure. */
  function StatusReply(status: nat): Reply
    requires !(200 <= status < 300)
  {
    Reply([], Failed(StatusReason(status)))
  }

  /** A non-2xx response ends the conversation with the committed list and one error
    * message whose text carries the status. */
  lemma StatusFailure(committed: seq<Message>, status: nat)
    requires !(200 <= status < 300)
    ensures var r := ReplyMessages(committed, StatusReply(status));
      |r| == |committed| + 1 && r[|committed|].role == Assistant &&
      r[|committed|].content == ErrorPrefix + "Error: " + Text.NatToString(status)
  {
    var reason := StatusReason(status);
    assert reason == reason[..7] + reason[7..];
  }

  /** The chunks appended one after another. */
  function Joined(chunks: seq<string>): string
  {
    if chunks == [] then "" else chunks[0] + Joined(chunks[1..])
  }

  /** Appending one more chunk extends the accumulated text by exactly that chunk. */
  lemma {:induction false} JoinedSnoc(chunks: seq<string>, c: string)
    ensures Joined(chunks + [c]) == Joined(chunks) + c
  {
    if chunks != [] {
      assert (chunks + [c])[1..] == chunks[1..] + [c];
      JoinedSnoc(chunks[1..], c);
    }
  }

  /** Joining the chunks equals joining a prefix of them and then the rest, at any split point. */
  lemma {:induction false} JoinedSplit(chunks: seq<string>, k: nat)
    requires k <= |chunks|
    ensures Joined(chunks) == Joined(chunks[..k]) + Joined(chunks[k..])
  {
    if k > 0 {
      assert chunks[1..][..k - 1] == chunks[1..k];
      assert chunks[1..][k - 1..] == chunks[k..];
      JoinedSplit(chunks[1..], k - 1);
      assert chunks[..k] == [chunks[0]] + chunks[1..k];
      assert chunks[..k][1..] == chunks[1..k];
    } else {
      assert chunks[..0] == [];
    }
  }

  /** The message list after `reply` for a conversation whose list was `committed` when the request went out. */
  function ReplyMessages(committed: seq<Message>, reply: Reply): (r: seq<Message>)
    ensures |r| >= |committed| && r[..|committed|] == committed
  {
    match reply.outcome
    case Failed(reason) => committed + [ErrorMessage(reason)]
    case _ => if reply.chunks == [] then committed else committed + [Message(Assistant, Joined(reply.chunks))]
  }

  /** A reply that delivered at least one chunk and did not fail adds exactly one
    * assistant message, whose content is all the chunks in arrival order. */
  lemma OneAssistantMessage(committed: seq<Message>, reply: Reply)
    requires reply.chunks != [] && !reply.outcome.Failed?
    ensures var r := ReplyMessages(committed, reply);
      |r| == |committed| + 1 && r[|committed|] == Message(Assistant, Joined(reply.chunks)) &&
      |WithRole(r, Assistant)| == |WithRole(committed, Assistant)| + 1 &&
      WithRole(r, User) == WithRole(committed, User)
  {
    var m := Message(Assistant, Joined(reply.chunks));
    WithRoleSnoc(committed, m, Assistant);
    WithRoleSnoc(committed, m, User);
  }

  /** A failed reply leaves the committed list and one error message; any partial answer is gone. */
  lemma FailureReplacesPartialAnswer(committed: seq<Message>, chunks: seq<string>, reason: string)
    ensures var r := ReplyMessages(committed, Reply(chunks, Failed(reason)));
      |r| == |committed| + 1 && r[|committed|] == ErrorMessage(reason) &&
      |WithRole(r, Assistant)| == |WithRole(committed, Assistant)| + 1
  {
    WithRoleSnoc(committed, ErrorMessage(reason), Assistant);
  }

  /** A reply cancelled before any chunk arrived leaves the committed list as it was;
    * one cancelled later ends as the completed reply of the same chunks would. */
  lemma AbortKeepsCommitted(committed: seq<Message>, chunks: seq<string>)
    ensures ReplyMessages(committed, Reply([], Aborted)) == committed
    ensures ReplyMessages(committed, Reply(chunks, Aborted)) == ReplyMessages(committed, Reply(chunks, Completed))
  {
  }

  /** A streamed "Hi", " there" ends as one assistant message "Hi there". */
  lemma HiThere(committed: seq<Message>, chunks: seq<string>)
    requires chunks == ["Hi", " there"]
    ensures ReplyMessages(committed, Reply(chunks, Completed)) == committed + [Message(Assistant, "Hi there")]
  {
    var rest := chunks[1..];
    assert rest == [" there"] && rest[1..] == [];
    assert Joined(rest) == " there" + Joined(rest[1..]) == " there";
    assert Joined(chunks) == chunks[0] + Joined(rest) == "Hi" + " there";
    assert "Hi" + " there" == "Hi there";
  }
}
