# Chat screen logic of TherapistChatGPTApp, in Dafny

The app shows a conversation between the user ("me") and a scripted
"therapist". Its one view component, `src/view/chat.view.tsx`, holds the
conversation in component state, appends the user's message on send, sends
the whole conversation to a remote service and replaces its state with the
reply, and adapts the stored messages to the chat widget's record shape.
This project models the logic in that file:

- `uuid.dfy` (module `Uuid`): `uuidv4`, the fill of the template
  `xxxxxxxx-xxxx-4xxx-yxxx-xxxxxxxxxxxx`, with the 31 random draws as input.
- `authors.dfy` (module `Authors`): the two identities `me` and `therapist`
  and `getAuthorByName`.
- `chat.dfy` (module `Chat`): the stored records `ChatMessageDto` and
  `ChatDto`, the adapter `mapChatToUiChatMessages`, the conversation
  `chatAfterPressSend` builds, the message `handleSendPress` builds, and the
  seed `chatOnInitialize`.
- `store.dfy` (module `ConversationStore`): the component state as a class
  `ChatView` with a `messages` field, changed by `Append` (local send) and
  `Replace` (remote reply), plus `updateChatWithApiReply` and
  `handleSendPress` with the remote call passed in as a function.

`Math.random()` and `Date.now()` are parameters: a `uuidv4()` call takes the
31 values in 0..15 that its callback would draw, in template order, and
every timestamp is an `int` argument.

## Model

| member | source | states |
|---|---|---|
| `Uuid.HexDigit` | src/view/chat.view.tsx:12 | `v.toString(16)` of a value below 16 is one lower-case hex digit |
| `Uuid.HexValue` | src/view/chat.view.tsx:12 | reading a lower-case hex digit back gives the value that prints as it |
| `Uuid.HexDigitInjective` | src/view/chat.view.tsx:12 | two values below 16 print the same digit exactly when they are equal |
| `Uuid.Replacement` | src/view/chat.view.tsx:10-12 | the callback's digit is lower-case hex and reads back as the draw for `x` and as the draw modulo 4 plus 8 for `y`, so a `y` becomes one of `8`, `9`, `a`, `b` |
| `Uuid.Matches` | src/view/chat.view.tsx:9 | the `/[xy]/g` matches are at most as many as the template's characters and each is `x` or `y`; `Uuid.LayoutMatches` states which and how many for the template |
| `Uuid.Fill` | src/view/chat.view.tsx:9-13 | the replace keeps the length, copies every character other than `x`/`y`, turns each `x` into a lower-case hex digit and each `y` into one of `8`, `9`, `a`, `b` |
| `Uuid.FillSameExactly` | src/view/chat.view.tsx:9-13 | two fills of one template are equal exactly when every match got the same replacement digit (both directions) |
| `Uuid.TemplateLayout` | src/view/chat.view.tsx:9 | the template has separators at 8, 13, 18 and 23, `4` at 14, `y` at 19 and `x` elsewhere |
| `Uuid.LayoutSuffixMatches` | src/view/chat.view.tsx:9 | in every suffix of that layout, the number of `/[xy]/g` matches and which of them is the `y` |
| `Uuid.LayoutMatches` | src/view/chat.view.tsx:9 | a template of that layout has 31 matches: draw 15 is the `y`, every other draw an `x` |
| `Uuid.LayoutSameExactly` | src/view/chat.view.tsx:9-12 | two fills of such a template are equal exactly when the draws agree on every `x` and agree modulo 4 on the `y` |
| `Uuid.FillV4Template` | src/view/chat.view.tsx:9-13 | filling a template of that layout yields the version-4 UUID layout of section 4.4 of RFC 4122 whatever is drawn |
| `Uuid.Uuid4` | src/view/chat.view.tsx:8-14 | the id is 36 characters, `-` at 8, 13, 18 and 23, `4` at 14, one of `8`, `9`, `a`, `b` at 19, lower-case hex elsewhere |
| `Uuid.Uuid4SameExactly` | src/view/chat.view.tsx:9-12 | two ids are equal exactly when the draws agree on every `x` and agree modulo 4 on the `y`, so an id carries 122 random bits |
| `Authors.MakeParticipants` | src/view/chat.view.tsx:16-17 | the constants are named "me" and "therapist" and both ids have the UUID layout |
| `Authors.ToLowerCase` | src/view/chat.view.tsx:20 | lowercasing keeps the length and every character that is not an upper-case letter |
| `Authors.GetAuthorByName` | src/view/chat.view.tsx:19-22 | the resolved author is always one of the two identities; `Authors.GetAuthorByNameResolves` states which one for every name |
| `Authors.ToLowerCaseMatches` | src/view/chat.view.tsx:20 | a string lowercases to a word without capitals exactly when it spells that word letter by letter in either case |
| `Authors.GetAuthorByNameResolves` | src/view/chat.view.tsx:19-22 | the therapist identity is returned exactly when the name is "therapist" in any letter case, `me` exactly otherwise |
| `Authors.GetAuthorByNameExamples` | src/view/chat.view.tsx:19-22 | "therapist", "Therapist" and "THERAPIST" give the therapist; "me" and "" give `me` |
| `Chat.Reverse` | src/view/chat.view.tsx:26 | reversal keeps the length |
| `Chat.ReverseAt` | src/view/chat.view.tsx:26 | element i of the reversal is element n-1-i of the list |
| `Chat.ReverseAll` | src/view/chat.view.tsx:26 | the same for every index at once |
| `Chat.ReverseReverse` | src/view/chat.view.tsx:26 | reversing twice gives the list back |
| `Chat.ToUiMessage` | src/view/chat.view.tsx:27-33 | the record copies the message's id, `createdAt` and content (as text), has type "text", and its author is one of the two identities |
| `Chat.MapToUi` | src/view/chat.view.tsx:26 | the mapped list has one record per message, record i made from message i |
| `Chat.MapToUiConcat` | src/view/chat.view.tsx:26 | mapping a concatenation is the concatenation of the mapped parts, so a message's record does not depend on the others |
| `Chat.MapChatToUiChatMessages` | src/view/chat.view.tsx:24-36 | one record per stored message; record i comes from message n-1-i and copies its id, `createdAt` and content (as text), has type "text" and the author `getAuthorByName` resolves |
| `Chat.MapChatReversesStorage` | src/view/chat.view.tsx:25-26 | the adapter's output is the per-message records in reverse storage order |
| `Chat.AfterPressSend` | src/view/chat.view.tsx:67 | the new conversation is one longer, keeps the old messages as its prefix and ends with the new message |
| `Chat.SendsKeepPrefix` | src/view/chat.view.tsx:67 | after any sequence of sends the conversation is the original followed by the sent messages, in order |
| `Chat.NewMessage` | src/view/chat.view.tsx:73-78 | the sent message has author "me", the widget's text as content, the given timestamp and a UUID-shaped id |
| `Chat.ChatOnInitialize` | src/view/chat.view.tsx:38-47 | the seed is one message from "therapist" saying "Hello! How are you?" with a UUID-shaped id, timestamped with the given `Date.now()` |
| `Chat.SendShowsFirst` | src/view/chat.view.tsx:66-79 | after a send the new message is the first record shown, from `me`, with the sent text, and the rest of the display is unchanged |
| `Chat.ReplyShowsFirst` | src/view/chat.view.tsx:58-59 | a reply that extends the sent conversation by one message shows the reply first, the sent message second, then the history |
| `Chat.FirstSendScenario` | src/view/chat.view.tsx:38-47 | seed plus "hi" holds two messages, displayed as "hi" from `me` above the greeting from the therapist |
| `ConversationStore.ChatView.constructor` | src/view/chat.view.tsx:50 | the state starts as the initial conversation |
| `ConversationStore.ChatView.Append` | src/view/chat.view.tsx:66-70 | the held messages become the old ones followed by the new message, and the returned conversation is the new state |
| `ConversationStore.ChatView.Replace` | src/view/chat.view.tsx:59 | the held messages become those of the reply |
| `ConversationStore.ChatView.UpdateChatWithApiReply` | src/view/chat.view.tsx:52-64 | a successful reply replaces the state; a failure leaves it unchanged and fails with "Error responding:" |
| `ConversationStore.ChatView.HandleSendPress` | src/view/chat.view.tsx:72-81 | the conversation sent is the held one plus the new "me" message; on success the state is the reply, on failure it is the optimistic append and the call fails with "Error responding:" |
| `ConversationStore.ChatView.DisplayedMessages` | src/view/chat.view.tsx:86 | one record per held message, newest first: record i is the display of held message n-1-i |
| `ConversationStore.AfterPressSendAsWritten` | src/view/chat.view.tsx:66-70 | as written, the send appends to the first render's conversation, whatever is held |
| `ConversationStore.AsWrittenLosesHistory` | src/view/chat.view.tsx:66-70 | once an exchange has happened, the as-written send stores and sends a conversation shorter than the one held, not extending it |
| `ConversationStore.AsWrittenSecondSend` | src/view/chat.view.tsx:66-81 | seed, "hi", a reply, then "again": as written the result is seed plus "again"; the intended result is seed, "hi", reply, "again" |

## Left out

- The JSX of `ChatView`, `SafeAreaProvider`, the `Chat` widget, `renderChatMessages` apart from its call of the adapter, and `StyleSheet` (src/view/chat.view.tsx:83-114): rendering and styling only.
- The network side of `updateChatWithApiReply`: `ChatClient` is not part of this model, so `respondTo` is a parameter that either returns a conversation or fails; the hard-coded base URL and the `console.log` are not modelled.
- The error's cause: `new Error('Error responding:', err)` passes `err` where the constructor takes options, so only the message "Error responding:" is modelled.
- React scheduling: `useState` updates, `useCallback` memoisation, and the ordering of `await`s are sequential method calls here; only the stale `chat` of `chatAfterPressSend` is modelled, as the finding below, and `ChatView.Append` appends to the state actually held.
- Concurrent replies racing to `setChat` (last write wins): the model is sequential.
- `Math.random` and `Date.now`: draws and timestamps are inputs, so nothing is said about their distribution or about ids being unique; the source does not check uniqueness either.
- Uuid.Fill: its contract says which characters can appear at each position, not which draw lands where; `Uuid.FillSameExactly` and `Uuid.Uuid4SameExactly` tie the output to the draws exactly.
- ConversationStore.ChatView.Append: appends to the conversation held now, the evidently intended behaviour, not to the first render's conversation as the memoised callback does (see Findings).
- Authors.ToLowerCase: lowercases ASCII letters only, because JavaScript's full Unicode case mapping is library behaviour outside this file.

## Findings

| source | as written | input that shows it | evidently intended | confidence | as-written member | corrected member |
|---|---|---|---|---|---|---|
| src/view/chat.view.tsx:66-70 | `chatAfterPressSend` is memoised with an empty dependency list, so its `chat` is always the first render's seed and each send appends to the seed | seed, send "hi", reply "Why?", send "again": stored and sent conversation is seed + "again" | append to the conversation currently held: seed, "hi", "Why?", "again" | high, not executed | `ConversationStore.AsWrittenLosesHistory` | `ConversationStore.ChatView.Append` |
