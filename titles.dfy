/**
 * Conversation titles: the numbered placeholder a new conversation gets and
 * the title derived from the first user message once one is sent.
 */
module Titles {
  import opened Wrappers
  import opened Messages
  import Text

  /** Titles derived from a message keep at most this many characters of it. */
  const TitleLimit: nat := 30

  const Ellipsis: string := "..."

  /** The word "conversation" and a space, before the placeholder's number. */
  const PlaceholderPrefix: string := "محادثة "

  /** `محادثة ${count}`: the title a new conversation starts with. */
  function Placeholder(count: nat): (t: string)
    ensures |t| > |PlaceholderPrefix| && t[..|PlaceholderPrefix|] == PlaceholderPrefix
    ensures t[|PlaceholderPrefix|..] == Text.NatToString(count)
  {
    var digits := Text.NatToString(count);
    assert (PlaceholderPrefix + digits)[|PlaceholderPrefix|..] == digits;
    PlaceholderPrefix + digits
  }

  /** The placeholder's number reads back as the count it was made from. */
  lemma PlaceholderNumber(count: nat)
    ensures Text.DecimalValue(Placeholder(count)[|PlaceholderPrefix|..]) == count
  {
    Text.NatToStringRoundTrip(count);
  }

  /** The first 30 characters of `content`, followed by "..." when it is longer. */
  function TitleFrom(content: string): (t: string)
    ensures |content| <= TitleLimit ==> t == content
    ensures |content| > TitleLimit ==>
      |t| == TitleLimit + |Ellipsis| && t[..TitleLimit] == content[..TitleLimit] && t[TitleLimit..] == Ellipsis
    ensures |t| <= TitleLimit + |Ellipsis|
  {
    var head := if |content| <= TitleLimit then content else content[..TitleLimit];
    if |content| > TitleLimit then head + Ellipsis else head
  }

  /** The title after `updateConversationTitle(id, ms)` for a conversation titled `current`. */
  function DerivedTitle(current: string, ms: seq<Message>): (t: string)
    ensures WithRole(ms, User) == [] ==> t == current
    ensures WithRole(ms, User) != [] && WithRole(ms, User)[0].content == "" ==> t == current
    ensures WithRole(ms, User) != [] && WithRole(ms, User)[0].content != "" ==>
      t == TitleFrom(WithRole(ms, User)[0].content)
  {
    match FirstWithRole(ms, User)
    case Some(first) => if first.content != "" then TitleFrom(first.content) else current
    case None => current
  }

  /** The first user message of a conversation that had none decides its title. */
  lemma FirstSendTitle(current: string, prior: seq<Message>, content: string)
    requires WithRole(prior, User) == []
    requires content != ""
    ensures DerivedTitle(current, prior + [Message(User, content)]) == TitleFrom(content)
  {
    WithRoleSnoc(prior, Message(User, content), User);
  }

  /** Once a user message exists, more messages do not change the derived title. */
  lemma TitleStable(current: string, ms: seq<Message>, m: Message)
    requires WithRole(ms, User) != []
    ensures DerivedTitle(current, ms + [m]) == DerivedTitle(current, ms)
  {
    WithRoleSnoc(ms, m, User);
  }

  /** Sending "Hello" first titles the conversation "Hello". */
  lemma HelloTitle(current: string)
    ensures DerivedTitle(current, [Message(User, "Hello")]) == "Hello"
  {
    FirstSendTitle(current, [], "Hello");
  }
}
