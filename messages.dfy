/**
 * The records the chat component keeps: messages with a role and a content,
 * and conversations holding them, plus the array helpers the component
 * applies to message lists (`filter`, `find`, copy-and-replace).
 */
module Messages {
  import opened Wrappers

  datatype Role = User | Assistant

  datatype Message = Message(role: Role, content: string)

  /** A stored conversation: `{ id, title, timestamp, messages }`. */
  datatype Conversation = Conversation(id: string, title: string, timestamp: string, messages: seq<Message>)

  /** `ms.filter(msg => msg.role === role)`. */
  function WithRole(ms: seq<Message>, role: Role): (out: seq<Message>)
    ensures |out| <= |ms|
    ensures forall k :: 0 <= k < |out| ==> out[k].role == role
  {
    if ms == [] then []
    else (if ms[0].role == role then [ms[0]] else []) + WithRole(ms[1..], role)
  }

  /** The filter keeps exactly the messages of that role. */
  lemma {:induction false} WithRoleMembers(ms: seq<Message>, role: Role)
    ensures forall m :: m in WithRole(ms, role) <==> m in ms && m.role == role
  {
    if ms != [] {
      WithRoleMembers(ms[1..], role);
      assert ms == [ms[0]] + ms[1..];
    }
  }

  /** Filtering a list with one more message at its end. */
  lemma {:induction false} WithRoleSnoc(ms: seq<Message>, m: Message, role: Role)
    ensures WithRole(ms + [m], role) == WithRole(ms, role) + (if m.role == role then [m] else [])
  {
    if ms != [] {
      assert (ms + [m])[1..] == ms[1..] + [m];
      WithRoleSnoc(ms[1..], m, role);
    }
  }

  /** `ms.find(msg => msg.role === role)`. */
  function FirstWithRole(ms: seq<Message>, role: Role): (r: Option<Message>)
    ensures r.None? <==> WithRole(ms, role) == []
    ensures r.Some? ==> r.value == WithRole(ms, role)[0]
  {
    if ms == [] then None
    else if ms[0].role == role then Some(ms[0])
    else FirstWithRole(ms[1..], role)
  }

  /** `ms.filter((_, index) => index !== i)`: the list without the entry at `i`. */
  function Without(ms: seq<Message>, i: int): (r: seq<Message>)
    ensures 0 <= i < |ms| ==> r == ms[..i] + ms[i + 1..]
    ensures !(0 <= i < |ms|) ==> r == ms
  {
    if ms == [] then []
    else (if i == 0 then [] else [ms[0]]) + Without(ms[1..], i - 1)
  }

  /** Removing an in-range entry shortens the list by one and keeps the order of the rest. */
  lemma WithoutKeepsOrder(ms: seq<Message>, i: int)
    requires 0 <= i < |ms|
    ensures |Without(ms, i)| == |ms| - 1
    ensures forall k :: 0 <= k < i ==> Without(ms, i)[k] == ms[k]
    ensures forall k :: i <= k < |ms| - 1 ==> Without(ms, i)[k] == ms[k + 1]
  {
  }

  /** `[...ms]` with entry `i` replaced by `{ ...ms[i], content: c }`. */
  function WithContent(ms: seq<Message>, i: nat, c: string): (r: seq<Message>)
    requires i < |ms|
    ensures |r| == |ms|
    ensures r[i].role == ms[i].role && r[i].content == c
    ensures forall k :: 0 <= k < |ms| && k != i ==> r[k] == ms[k]
  {
    ms[i := ms[i].(content := c)]
  }
}
