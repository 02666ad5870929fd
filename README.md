# Chat session core, modelled in Dafny

This project models the logic inside `src/App.jsx`, a React chat component that keeps
conversations, sends the user's message with the conversation history to a
text-generation endpoint, and streams the reply back into the conversation. Four parts are
modelled:

- **History formatter** (`formatter.dfy`, module `HistoryFormatter`). `FormatHistory` is an
  imperative method with the source's `for` loop, its pushes and its pop. It turns the
  prior messages of the conversation and the new user message into the payload that is
  sent. It is proved to give `min(|U|, |A|)` user/assistant pairs in order, followed by the
  new message. So the payload has length `2·min(|U|, |A|) + 1` and its roles alternate.
- **Session controller** (`session.dfy`, class `Session.ChatSession`). The component's state
  becomes fields: the conversation map, the active id, the live message list, the request
  flags and the edit state. Every user operation becomes a method with a `modifies this`
  frame and a postcondition that gives the whole new state. These operations are create,
  switch, delete by id, delete the active conversation, delete a message, start, change,
  save and cancel an edit, and the stop button. The first-render load is the constructor.
  Title derivation (`titles.dfy`) is pure and stated as functions.
- **Stream reconciler** (`session.dfy` and `stream.dfy`). A send is run as explicit steps:
  - `BeginSend` appends the user message and raises the flags;
  - `ReceiveChunk` handles one chunk;
  - `FailSend` handles the `catch`;
  - `FinishSend` handles the `finally`;
  - `ReadReply` is the read loop.

  The network reply is an input value: its decoded chunks in arrival order, plus how
  reading ended (completed, aborted by the stop button, or failed with a reason).
  `ReadReply` is proved against the specification function `StreamSpec.ReplyMessages`, and
  the stream properties are proved about that function.
- **Thinking splitter** (`splitter.dfy`). `Split` is the pure split of an assistant message
  into a `<think>` block and the final answer, as `MessageContent` does it. It is stated against
  a declarative reading of the regular expression and of `indexOf`.

Two helper modules support them. `text.dfy` holds JavaScript's `trim` with the exact
ECMAScript white-space set, `indexOf`/`includes`, and the decimal rendering of a number.
`messages.dfy` holds the records and the array helpers the component uses.

Three behaviours of the code are worth stating outright, because they are easy to
misread:

- **Read error.** A failure after the first chunk drops the partial answer: the list
  becomes the messages from before the reply plus one error message (`src/App.jsx:452-453`,
  `StreamSpec.FailureReplacesPartialAnswer`).
- **Payload length.** The unmatched last user message is pushed and always popped again,
  so the payload has `2·min(|U|, |A|) + 1` entries (`src/App.jsx:341-350`,
  `HistoryFormatter.FormatHistory`).
- **Placeholder numbers.** Two calls of `createNewConversation` run from closures that saw
  an older conversation map, and both are modelled as written:
  - At mount, the closure sees the empty initial map, so the new conversation is always
    numbered 1 (`Session.ChatSession.Load`).
  - After the last conversation is deleted, the closure sees the map from before the
    deletion, so the number is the old count plus one (`Session.ChatSession.DeleteConversation`).

## Model

| member | source | states |
|---|---|---|
| Text.Trim | src/App.jsx:286 | `s.trim()` is a slice of `s` outside which only white space lies, and it neither starts nor ends with white space |
| Text.TrimKeeps | src/App.jsx:503 | a string with no white space at its ends is its own trim |
| Text.IsBlank | src/App.jsx:286 | `!input.trim()` holds exactly when every character of the input is white space (the empty string included) |
| Text.TrimEmptyIffAllSpace | src/App.jsx:286 | the trim is empty exactly when every character is white space |
| Text.IndexFrom | src/App.jsx:506 | `indexOf(pat, from)` for a `from` no larger than the string's length (as in every call here): the first position at or after `from` where `pat` occurs, and `None` (JavaScript's -1) exactly when there is none |
| Text.IndexFromFinds | src/App.jsx:506 | an occurrence with none before it is the position `indexOf` returns |
| Text.IndexOf | src/App.jsx:506 | `indexOf(pat)` returns the first position where `pat` occurs, and `None` (JavaScript's -1) exactly when it occurs nowhere |
| Text.Contains | src/App.jsx:488 | `includes(pat)` holds exactly when `pat` occurs at some position |
| Text.NatToString | src/App.jsx:86 | the template-literal rendering of a count is a non-empty string of decimal digits with no leading zero |
| Text.NatToStringRoundTrip | src/App.jsx:86 | reading the rendered digits back gives the number |
| Messages.WithRole | src/App.jsx:328-329 | `filter` by role returns at most the input's messages, all of that role |
| Messages.WithRoleMembers | src/App.jsx:328-329 | a message is in the filtered list if and only if it is in the input and has the role |
| Messages.WithRoleSnoc | src/App.jsx:314 | filtering a list with one more message at its end adds that message exactly when it has the role |
| Messages.FirstWithRole | src/App.jsx:115 | `find` by role returns nothing exactly when no message has the role, otherwise the first one the filter keeps |
| Messages.Without | src/App.jsx:179 | filtering out index `i` removes exactly entry `i` when it is in range and changes nothing otherwise |
| Messages.WithoutKeepsOrder | src/App.jsx:179 | removing an in-range entry shortens the list by one and keeps the others in order |
| Messages.WithContent | src/App.jsx:204-208 | the copy with entry `i` replaced by `{ ...entry, content }` has the same length, keeps the role at `i` and every other entry, and holds the new content at `i` |
| Titles.Placeholder | src/App.jsx:86 | a new conversation's title is the prefix "محادثة " followed by the decimal count |
| Titles.PlaceholderNumber | src/App.jsx:86 | the number in a placeholder title reads back as the count |
| Titles.TitleFrom | src/App.jsx:119-122 | a content of at most 30 characters is the title unchanged; a longer one gives its first 30 characters followed by "...", 33 characters in all |
| Titles.DerivedTitle | src/App.jsx:113-131 | with no user message, or a first user message with empty content, the title is unchanged; otherwise it is `TitleFrom` of the first user message's content |
| Titles.FirstSendTitle | src/App.jsx:313-316 | sending non-empty content into a conversation with no user message titles it after that content |
| Titles.TitleStable | src/App.jsx:314 | once a user message exists, further messages do not change the derived title |
| Titles.HelloTitle | src/App.jsx:113-122 | sending "Hello" first titles the conversation "Hello" |
| HistoryFormatter.Min | src/App.jsx:332 | `Math.min` of the two counts: no larger than either, and equal to one of them |
| HistoryFormatter.PairsAt | src/App.jsx:334-338 | after `n` rounds of the loop the list has `2n` entries, entry `2i` being the i-th user message and entry `2i+1` the i-th assistant message |
| HistoryFormatter.PairsLength | src/App.jsx:334-338 | `n` rounds of the loop push `2n` messages |
| HistoryFormatter.FormatHistory | src/App.jsx:320-353 | the payload is the `min(|U|, |A|)` pairs of prior user and assistant messages in order, then the new message; its length is `2·min(|U|, |A|) + 1`; a user message being sent makes every even index user and every odd index assistant |
| StreamSpec.ErrorMessage | src/App.jsx:452 | the error message is an assistant message reading "حدث خطأ في الاتصال: " followed by the error's text |
| StreamSpec.StatusReason | src/App.jsx:380-382 | a non-2xx status fails with the text "Error: " followed by the status in decimal |
| StreamSpec.StatusReasonNumber | src/App.jsx:381 | the status in that text reads back as the response's status |
| StreamSpec.StatusFailure | src/App.jsx:380-382 | a non-2xx response leaves the committed list plus one assistant error message naming the status |
| StreamSpec.StatusReply | src/App.jsx:380-382 | a response that is not ok (status outside 200-299) amounts to a reply with no chunks that fails with `StatusReason` of the status; the contract is that guard, the meaning is stated by `StatusFailure` |
| StreamSpec.Joined | src/App.jsx:398 | the answer accumulated by `assistantResponse += chunk`: the chunks in arrival order, one after another; its properties are stated by `JoinedSnoc` and `JoinedSplit` |
| StreamSpec.JoinedSnoc | src/App.jsx:398 | appending one more chunk extends the accumulated answer by exactly that chunk |
| StreamSpec.JoinedSplit | src/App.jsx:390-398 | joining a list of decoded chunks equals joining its first `k` chunks and then the rest, for every `k`: the repeated `+=` keeps every chunk, in order |
| StreamSpec.ReplyMessages | src/App.jsx:386-464 | the list after a reply always begins with the list committed when the request went out |
| StreamSpec.OneAssistantMessage | src/App.jsx:393-441 | a reply delivering at least one chunk and not failing adds exactly one assistant message, the chunks concatenated in arrival order, and no user message |
| StreamSpec.FailureReplacesPartialAnswer | src/App.jsx:445-464 | a failed reply leaves the committed list and exactly one error message, whatever chunks had arrived |
| StreamSpec.AbortKeepsCommitted | src/App.jsx:446-449 | a reply cancelled before any chunk leaves the committed list as it was; one cancelled later keeps the partial answer and appends no error message |
| StreamSpec.HiThere | src/App.jsx:386-441 | the chunks "Hi" and " there" end as one assistant message "Hi there" |
| ThinkingSplitter.ThinkingFrom | src/App.jsx:502-503 | the thinking text is the trimmed text from the end of `<think>` to the next `</think>`, or "" when no `</think>` follows |
| ThinkingSplitter.FirstOccurrence | src/App.jsx:506 | `indexOf` of a contained marker is its first occurrence |
| ThinkingSplitter.Split | src/App.jsx:488-507 | a message is shown as it is, whole, exactly when it lacks `<think>` or `</think>` |
| ThinkingSplitter.SplitThinking | src/App.jsx:502-507 | with both markers, the thinking is the trimmed group of the lazy match starting after the first `<think>` (empty without a following `</think>`), and the answer is the trimmed text after the first `</think>` |
| ThinkingSplitter.NoCloseBefore | src/App.jsx:502 | in `<think>` + mid + `</think>` + rest with no `</think>` in mid, no `</think>` starts before the block's own |
| ThinkingSplitter.BlockMarkers | src/App.jsx:502-506 | in such a message `indexOf` finds `<think>` at 0 and `</think>` right after mid, searching from 0 or from the end of `<think>` |
| ThinkingSplitter.SplitAt | src/App.jsx:502-507 | where the markers are found at 0 and at `l`, the split is the trimmed text between them and the trimmed rest |
| ThinkingSplitter.SplitBlock | src/App.jsx:488-507 | `<think>` + mid + `</think>` + rest with no `</think>` in mid splits into trimmed mid and trimmed rest |
| ThinkingSplitter.SplitTrimmedBlock | src/App.jsx:488-507 | when mid and rest have no white space at their ends, the split gives them back unchanged |
| ThinkingSplitter.SplitExample | src/App.jsx:488-507 | `<think>step one</think>Answer.` splits into thinking "step one" and answer "Answer." |
| Session.NewConversation | src/App.jsx:84-89 | a new conversation has the given id and timestamp, the placeholder title of its number, and no messages |
| Session.ChatSession.HasActive | src/App.jsx:136 | the active id is truthy, as tested by `!activeConversationId` here and at line 286: set and not the empty string |
| Session.ChatSession.Load | src/App.jsx:27-51 | a stored active id naming a stored conversation resumes it with its messages and no welcome screen; otherwise the stored map (or an empty one) gains a conversation numbered 1, made active and empty, with the welcome screen |
| Session.ChatSession.StartConversation | src/App.jsx:82-101 | `createNewConversation` run by a closure that saw `seen` conversations adds conversation `seen + 1` under the new id, makes it active, empties the live list and shows the welcome screen |
| Session.ChatSession.CreateNewConversation | src/App.jsx:82-101 | the new-chat button adds a conversation numbered one past the current count, makes it active and empty, and leaves every other conversation as it was |
| Session.ChatSession.SwitchConversation | src/App.jsx:103-110 | a stored id becomes active, its messages become the live list, and the welcome screen shows exactly when it is empty; an unknown id changes nothing |
| Session.ChatSession.UpdateConversationTitle | src/App.jsx:113-131 | only the named conversation's title changes, to `DerivedTitle` of the given messages |
| Session.ChatSession.DeleteConversation | src/App.jsx:154-172 | the conversation is removed; deleting an inactive one changes nothing else; deleting the active one shows a remaining conversation or, if none remains, creates one numbered one past the count before the removal |
| Session.ChatSession.DeleteActiveConversation | src/App.jsx:135-151 | nothing happens without an active conversation, an empty id counting as none; otherwise the active one is removed and a remaining one is shown or a new one created |
| Session.ChatSession.DeleteMessage | src/App.jsx:175-191 | nothing changes while loading; otherwise exactly entry `index` leaves the live list, and the active conversation's stored messages equal the live list afterwards |
| Session.ChatSession.StartEditMessage | src/App.jsx:194-200 | nothing changes while loading; otherwise the editor opens on `index` holding that message's content |
| Session.ChatSession.ChangeEditedContent | src/App.jsx:667 | typing sets the editor's text and nothing else |
| Session.ChatSession.SaveEditedMessage | src/App.jsx:203-224 | only the content of the edited message changes, to the editor's text; the stored copy equals the live list; the editor closes |
| Session.ChatSession.CancelEditMessage | src/App.jsx:226-229 | the editor closes and no message changes |
| Session.ChatSession.StopGeneration | src/App.jsx:239-245 | with a request in flight, the abort controller is dropped and loading stops; with none, nothing changes |
| Session.ChatSession.BeginSend | src/App.jsx:288-316 | the user message is appended to the live list and the stored conversation, whose timestamp is set and which is titled after it if it had no user message; the loading, typing and controller flags go up |
| Session.ChatSession.ReceiveChunk | src/App.jsx:394-443 | the accumulated answer grows by the chunk; the first chunk appends an assistant message holding it and hides the typing indicator; a later one overwrites only the last message's content, or, finding the live list empty, leaves it empty; the stored conversation under the sending id always follows the live list |
| Session.ChatSession.FailSend | src/App.jsx:445-464 | a failure sets the live and stored list to the list before the reply plus one error message |
| Session.ChatSession.FinishSend | src/App.jsx:465-469 | loading stops, the controller is dropped, the typing indicator is hidden, and nothing else changes |
| Session.ChatSession.ReadReply | src/App.jsx:386-469 | after reading every chunk and handling how the reply ended, the live list is `ReplyMessages` of the committed list and the reply, the stored copy equals it, and all request flags are down |
| Session.ChatSession.Send | src/App.jsx:288-469 | a send ends with the reply applied to the old list plus the user message, the conversation that was active then stored with that list and the first-send title, the flags down, and a payload whose entry 2i is the i-th prior user message and entry 2i+1 the i-th prior assistant message, for as many pairs as the shorter of those two lists holds, followed by the user message |
| Session.ChatSession.HandleSubmit | src/App.jsx:283-470 | blank input, or no active conversation (an empty id counting as none), sends nothing and changes nothing; otherwise the outcome of `Send` |
| Session.SentTitle | src/App.jsx:313-316 | a conversation that already has a user message keeps its title; otherwise non-empty input gives `TitleFrom` of the input, and empty input leaves the title as it was |
| Session.FirstSendScenario | src/App.jsx:27-469 | from an empty store, sending "Hello" and streaming "Hi", " there" leaves one conversation titled "Hello" holding the user message "Hello" and the assistant message "Hi there", in the live list and in the store |
| Session.NewChatDuringStream | src/App.jsx:421-438 | pressing "New chat" between two chunks of a send from "a" leaves "a" stored with no messages at all, the user message and the answer both lost |
| Session.SwitchDuringStream | src/App.jsx:421-438 | a switch to conversation "b" between two chunks of a send from "a" leaves "a" stored with b's message, its content overwritten by the answer "Hi there", shows that list, and leaves b's stored copy unchanged |

## Left out

- Rendering (JSX, CSS classes, icons), scrolling, textarea auto-resize, the conversation
  list and archive toggles, the category prompts and the selected category, and the input
  box's text. These are presentation.
- Reading and writing `localStorage`, and `JSON.parse`/`JSON.stringify`. The load takes the
  parsed store as an `Option` (`None` when nothing was stored or it did not parse) and the
  stored active id as an `Option`. Persisting after each change is not modelled, since it
  writes out the same map the model already holds.
- `fetch`, `response.body.getReader()`, `TextDecoder` and `AbortController`. They become the
  `Reply` input: the decoded chunks in arrival order and how reading ended. The held
  controller is the boolean field `generating`. The payload is returned, not sent.
- React's asynchronous state batching and the interleaving of user actions with an
  unfinished stream.
  - Each operation is one atomic transition, and a send runs to its end inside
    `HandleSubmit`.
  - `ReadReply` assumes no switch of conversation during the stream. The source's chunk
    updates store under the id captured when the send began, but every chunk after the
    first edits the live list of whatever conversation is on screen (`src/App.jsx:421-438`).
    So after a switch the sending conversation is overwritten with the other conversation's
    messages, their last entry holding the answer, and after "New chat" (or a switch to an
    empty conversation) it is stored with no messages. `ReceiveChunk` models a single step
    as written in both cases, and `Session.SwitchDuringStream` and
    `Session.NewChatDuringStream` show the two sequences.
- Session.ChatSession.ReceiveChunk: requires the sending conversation to still be stored.
  If it was deleted during the stream, the source stores a record holding only `messages`
  under its id, with no id, title or timestamp. A `Conversation` value always has all four
  fields, so that record is not modelled.
- Session.ChatSession.FailSend: the same requirement and the same reason as `ReceiveChunk`.
- Text.IndexFrom: JavaScript clamps a start position beyond the string to its length, so an
  empty pattern is found there; the model returns `None`. The only pattern searched from a
  position is the non-empty `</think>`, for which both agree.
- The stale-closure reads of `conversations` are modelled only where they change the
  outcome: the placeholder numbers at mount and after the last deletion.
- Session.ChatSession.DeleteConversation: picks *some* remaining conversation, where the
  source picks the first key in `Object.keys` insertion order, because the map has no
  key order.
- Session.ChatSession.DeleteActiveConversation: the same choice of remaining conversation
  as `DeleteConversation`.
- Each read is decoded with a fresh `TextDecoder` and no streaming flag (`src/App.jsx:395`),
  so a multi-byte character split between two reads is not reassembled and shows as
  replacement characters. The model's chunks are already-decoded strings, so that loss is
  not modelled.
- `Date.now()` ids and `new Date().toISOString()` timestamps are parameters. `formatDate`
  (`Intl.DateTimeFormat`) and the sort by timestamp in the list are locale and date
  arithmetic, and are not modelled.
- The clipboard copy, and `console.log`/`console.error`.
- Session.ChatSession.UpdateConversationTitle: requires the conversation to exist. The
  source spreads `undefined` into a fresh object there, but it is only ever called with the
  active id, which always names a stored conversation.
- Session.ChatSession.SaveEditedMessage: requires an active conversation and an edited
  index within the list. The editor only opens on an existing message while a conversation
  is shown.
- Session.ChatSession.StartEditMessage: requires an index within the list. The button
  exists only on shown messages.
- Session.ChatSession.DeleteMessage: requires an active conversation. Its buttons are shown
  only inside one.
- Strings are sequences of Unicode code points, while JavaScript's `length`, `substring` and
  `indexOf` count UTF-16 code units. So `TitleFrom`'s 30-character cut differs from the
  source for text outside the Basic Multilingual Plane.
- ThinkingSplitter.Split: the markdown rendering of the two parts is not modelled, only the
  strings it computes. An empty thinking text is not handed to the renderer at all: no
  thinking section is shown then (`src/App.jsx:511`).
