/**
 * The outbound history: the prior messages of the conversation reshaped into
 * alternating user/assistant turns, followed by the message being sent.
 */
module HistoryFormatter {
  import opened Messages

  /** `Math.min` of two counts. */
  function Min(a: nat, b: nat): (m: nat)
    ensures m <= a && m <= b && (m == a || m == b)
  {
    if a < b then a else b
  }

  /** The first `n` user messages and the first `n` assistant messages, paired up in order. */
  function Pairs(users: seq<Message>, assistants: seq<Message>, n: nat): seq<Message>
    requires n <= |users| && n <= |assistants|
  {
    if n == 0 then [] else Pairs(users, assistants, n - 1) + [users[n - 1], assistants[n - 1]]
  }

  /** Entry `2i` of the pairs is the i-th user message and entry `2i + 1` the i-th assistant message. */
  lemma {:induction false} PairsAt(users: seq<Message>, assistants: seq<Message>, n: nat, k: nat)
    requires n <= |users| && n <= |assistants|
    requires k < 2 * n
    ensures |Pairs(users, assistants, n)| == 2 * n
    ensures Pairs(users, assistants, n)[k] == if k % 2 == 0 then users[k / 2] else assistants[k / 2]
  {
    PairsLength(users, assistants, n - 1);
    if k < 2 * (n - 1) {
      PairsAt(users, assistants, n - 1, k);
    }
  }

  lemma {:induction false} PairsLength(users: seq<Message>, assistants: seq<Message>, n: nat)
    requires n <= |users| && n <= |assistants|
    ensures |Pairs(users, assistants, n)| == 2 * n
  {
    if n > 0 {
      PairsLength(users, assistants, n - 1);
    }
  }

  /**
   * Builds the payload from the prior messages `history` and the new
   * `userMessage`: the first min(|U|, |A|) user and assistant messages in
   * pairs, then the new message. The unmatched last user message that is
   * pushed after the pairs is always popped again before the new one goes in.
   */
  method FormatHistory(history: seq<Message>, userMessage: Message) returns (formatted: seq<Message>)
    ensures var users, assistants := WithRole(history, User), WithRole(history, Assistant);
      var pairs := Min(|users|, |assistants|);
      |formatted| == 2 * pairs + 1 &&
      (forall k :: 0 <= k < 2 * pairs ==>
        formatted[k] == if k % 2 == 0 then users[k / 2] else assistants[k / 2]) &&
      formatted[2 * pairs] == userMessage
    ensures forall k :: 0 <= k < |formatted| - 1 ==>
      formatted[k].role == if k % 2 == 0 then User else Assistant
    ensures formatted[|formatted| - 1] == userMessage
    ensures userMessage.role == User ==>
      forall k :: 0 <= k < |formatted| ==> formatted[k].role == if k % 2 == 0 then User else Assistant
  {
    formatted := [];
    var prevUserMessages := WithRole(history, User);
    var prevAssistantMessages := WithRole(history, Assistant);
    var maxPairs := Min(|prevUserMessages|, |prevAssistantMessages|);
    for i := 0 to maxPairs
      invariant formatted == Pairs(prevUserMessages, prevAssistantMessages, i)
    {
      formatted := formatted + [prevUserMessages[i]];
      formatted := formatted + [prevAssistantMessages[i]];
    }
    PairsLength(prevUserMessages, prevAssistantMessages, maxPairs);
    if |prevUserMessages| > maxPairs {
      formatted := formatted + [prevUserMessages[|prevUserMessages| - 1]];
    }
    if |formatted| > 0 && formatted[|formatted| - 1].role == User {
      formatted := formatted[..|formatted| - 1];
    }
    // the unmatched user message pushed above never survives the pop
    assert formatted == Pairs(prevUserMessages, prevAssistantMessages, maxPairs);
    formatted := formatted + [userMessage];
    forall k | 0 <= k < 2 * maxPairs
      ensures formatted[k] == if k % 2 == 0 then prevUserMessages[k / 2] else prevAssistantMessages[k / 2]
      ensures formatted[k].role == if k % 2 == 0 then User else Assistant
    {
      PairsAt(prevUserMessages, prevAssistantMessages, maxPairs, k);
    }
    assert (2 * maxPairs) % 2 == 0;
  }
}
