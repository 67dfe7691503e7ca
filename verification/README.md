# Night Chat: verified model of the chat session, the completion endpoint and the login check

This project models in Dafny the parts of the Night Chat demo that hold state or make decisions:

- **The chat page's session** (`chat_session.dfy`, module `ChatPage`). This is the class `ChatSession`. Its fields are the page's state hooks: user, contacts, conversations, active conversation, displayed messages, compose text, typing flag and hidden chats. It has one method per event: mount, conversation switch, compose edit, send, reply-timer firing, new chat and hide toggle. The reply timers the page schedules are the field `pending`. Each entry holds the values the timer's callback captured at send time.
- **The pure pieces the page uses** (`conversations.dfy`, module `Conversations`). These are the `find` and the update-by-id `map`, the hide toggle and the sidebar filter, the demo data built on mount and on a switch, and the two messages a send creates.
- **JavaScript string behaviour** (`text.dfy`, module `Text`). This covers `trim` with JavaScript's set of white-space characters, the decimal `toString` of a clock reading used as a message id, and `split(sep)[0]`.
- **The `POST /api/chat` handler** (`chat_api.dfy`, module `ChatApi`). It is a pure function from the parsed body to an outcome: `BadRequest`, `Forward` to the model backend with defaulted parameters, or `ServerError`.
- **The login page** (`login.dfy`, module `Login`). It has the accept/reject decision and the stored user record as pure functions, and the page as a small class (fields, submit, delayed resolution).
- **The shared records** (`types.dfy`, module `Types`): `User`, `Message` with its three-valued status, and `Conversation`.

The randomness, the clock and the helpers of the utility library (`getRandomUser`, `generateRandomMessage`, `getRandomReply`, `formatTime`) are not part of this model. They are parameters of the events:

- `now` stands for the clock reading.
- `rolls` and `roll` stand for `Math.random()` draws.
- `drawn` stands for the eight `getRandomUser()` results.
- `text` stands for the reply text.
- `gen: DemoRequest -> Message` stands for `generateRandomMessage`. `DemoRequest` holds its four arguments.

Lemmas about the messages of a generated history assume only `Honours(gen)`, which says the generator puts the requested sender, receiver and timestamp into its message.

### Behaviour of the code worth knowing

- **Switching to an unknown id.** Switching to an id that no conversation has still makes that id active and leaves the displayed list alone (`SelectConversation`).
- **A reply after a switch.** A reply that fires after the user switched conversations is appended to whatever list is displayed at that moment, and only the conversation active at send time gets it as its last message. No reply ever raises an unread count (`FireReply`, `SwitchThenReply`, `NoUpdateRaisesUnread`).
- **Unread count of the active conversation.** Mount makes the first conversation active without resetting its unread count, so it starts with unread messages whenever its roll exceeds 0.7 (`MountActiveMayHaveUnread`).
- **Empty active id.** An empty active id is falsy, so a send while the active id is `""` is refused (`SendMessage`).
- **A `null` request body.** The endpoint answers a body of `null` with 500, not 400, because destructuring `null` throws (`Post`).

## Model

| member | source | states |
|---|---|---|
| Types.ParseStatus | lib/types.ts:14 | A status literal is accepted exactly when it is `sent`, `delivered` or `read`, and it reads back to the status that prints as it |
| Types.StatusName | lib/types.ts:14 | Each status prints as one of the three literals `sent`, `delivered`, `read`; `StatusNameRoundTrip` shows no two statuses share one |
| Types.StatusNameRoundTrip | lib/types.ts:14 | Parsing a status's literal gives the status back, and different statuses have different literals |
| Text.TrimStart | app/chat/page.tsx:116 | The result is the longest suffix that does not start with white space; everything cut is white space |
| Text.TrimEnd | app/chat/page.tsx:116 | The result is the longest prefix that does not end with white space; everything cut is white space |
| Text.TrimSlice | app/chat/page.tsx:127 | `trim()` gives a contiguous slice of the input, starting after the leading white space, with only white space cut off on either side |
| Text.IsJsWhitespace | app/chat/page.tsx:116 | The characters `trim()` strips: the ECMAScript white-space and line-terminator code points |
| Text.Trim | app/chat/page.tsx:116 | `trim()` is never longer than its input and neither starts nor ends with white space |
| Text.TrimEmptyIffBlank | app/chat/page.tsx:116 | The send guard `!newMessage.trim()` holds exactly when the compose text is entirely white space |
| Text.TrimIdempotent | app/chat/page.tsx:127 | Trimming an already trimmed text changes nothing |
| Text.NatToDecimal | app/chat/page.tsx:124 | A clock reading renders as a non-empty string of digits with no leading zero |
| Text.DecimalRoundTrip | app/chat/page.tsx:124 | Reading a message id back as a number gives the clock reading it was made from |
| Text.DecimalInjective | app/chat/page.tsx:150 | Two clock readings give the same id exactly when they are equal |
| Text.BeforeFirst | app/login/page.tsx:35 | `split(sep)[0]` is a prefix of the input without `sep`, followed in the input by `sep` when shorter |
| Text.BeforeFirstSplits | app/login/page.tsx:35 | The input is the first piece, the separator and the rest; without a separator the piece is the whole input |
| Conversations.FirstIndexOf | app/chat/page.tsx:97 | The position found holds the id and no earlier position does; none is found exactly when no conversation has the id |
| Conversations.Find | app/chat/page.tsx:118 | The conversation found is the first one with the id; nothing is found exactly when no conversation has it |
| Conversations.UpdateWhere | app/chat/page.tsx:93-95 | Update by id keeps the length, applies the change to every matching conversation and leaves the others as they were |
| Conversations.ResetUnread | app/chat/page.tsx:93-95 | Matching conversations get unread 0 and keep user and last message; all others are unchanged; the ids stay the same |
| Conversations.SetLastMessage | app/chat/page.tsx:135-139 | Matching conversations get the new last message and keep user and unread; all others are unchanged; the ids stay the same |
| Conversations.FindAfterSameIds | app/chat/page.tsx:160-164 | After an update by id, the same ids can be found as before |
| Conversations.SameIdsAvoid | app/chat/page.tsx:49-51 | An update by id never introduces a conversation with the signed-in user |
| Conversations.NoUpdateRaisesUnread | app/chat/page.tsx:135-164 | No update the page performs raises an unread count |
| Conversations.ResetUnreadWellFormed | app/chat/page.tsx:93-95 | The unread reset keeps every conversation keyed by its contact with unread in 0..5 |
| Conversations.SetLastMessageWellFormed | app/chat/page.tsx:160-164 | The last-message update keeps every conversation keyed by its contact with unread in 0..5 |
| Conversations.RemoveAll | app/chat/page.tsx:256 | The filter keeps exactly the ids different from the removed one |
| Conversations.ToggleHidden | app/chat/page.tsx:253-258 | The toggled id changes membership; every other id keeps its membership |
| Conversations.ToggleTwiceRestoresMembership | app/chat/page.tsx:253-258 | Toggling the same chat twice restores the set of hidden ids |
| Conversations.ToggleTwiceMayReorder | app/chat/page.tsx:253-258 | Toggling twice need not restore the list itself: the id moves to the end |
| Conversations.RemoveAllDistinct | app/chat/page.tsx:256 | Filtering a list without repeats gives a list without repeats |
| Conversations.ToggleHiddenDistinct | app/chat/page.tsx:253-258 | The hidden list never holds an id twice |
| Conversations.Visible | app/chat/page.tsx:356-357 | The sidebar lists exactly the conversations whose id is not hidden |
| Conversations.VisibleAppend | app/chat/page.tsx:356-357 | The sidebar keeps the original order: filtering a concatenation filters each part in place |
| Conversations.VisibleNothingHidden | app/chat/page.tsx:356-357 | With no listed conversation hidden, the sidebar is the whole list |
| Conversations.HistoryRequests | app/chat/page.tsx:100-108 | A history asks for exactly `count` messages |
| Conversations.HistoryRequestsShape | app/chat/page.tsx:100-108 | The history opens with the contact, alternates direction, and advances ten minutes per message to ten minutes before now |
| Conversations.History | app/chat/page.tsx:67-75 | A generated history has exactly `count` messages |
| Conversations.HistoryBetweenPair | app/chat/page.tsx:100-108 | With an argument-honouring generator: only user/contact messages, contact first, then alternating, strictly increasing timestamps before now |
| Conversations.UnreadFromRolls | app/chat/page.tsx:59 | A mount unread count is 0 or in 1..5, and it is 0 exactly when the first roll is at most 0.7 |
| Conversations.ContactsExcept | app/chat/page.tsx:49-51 | The contacts are exactly the drawn users whose id differs from the signed-in user's |
| Conversations.ContactsExceptAppend | app/chat/page.tsx:49-51 | The filter keeps the drawn order and any repeats: filtering a concatenation filters each part in place |
| Conversations.DemoConversations | app/chat/page.tsx:55-60 | Mount builds one conversation per contact |
| Conversations.DemoConversationsShape | app/chat/page.tsx:49-60 | Conversation i is keyed by and holds contact i; none is with the user; each unread is in 0..5 |
| Conversations.MountActiveMayHaveUnread | app/chat/page.tsx:59-64 | The first conversation made at mount, the one made active, has at least one unread message exactly when its first roll exceeds 0.7 |
| Conversations.OutgoingMessage | app/chat/page.tsx:121-130 | A sent message goes from the user to the contact with the trimmed text, status `sent`, and an id that reads back as its timestamp |
| Conversations.ReplyMessage | app/chat/page.tsx:148-156 | A reply goes from the contact to the user with status `delivered`, and its id reads back as its timestamp plus one |
| Conversations.ReplyDelay | app/chat/page.tsx:144 | The reply delay lies in [1000, 3000) ms |
| Conversations.ReplyIdAfterSentId | app/chat/page.tsx:124-150 | A reply read no earlier than its send has a numerically larger id, so the ids differ |
| Conversations.ReplyAtLeastOneSecondLater | app/chat/page.tsx:144-150 | If the clock has advanced by the delay, the reply comes at least 1000 ms later and its id exceeds the sent id by more than 1000 |
| ChatPage.ChatSession.constructor | app/chat/page.tsx:20-34 | The session starts with no user, no conversations, no active id, empty lists and the typing flag off |
| ChatPage.ChatSession.Mount | app/chat/page.tsx:37-83 | Without a readable stored user nothing changes; otherwise the user is loaded and the contacts and conversations are built; if any exists, the first is active with a ten-message history |
| ChatPage.ChatSession.SelectConversation | app/chat/page.tsx:91-111 | The id always becomes active, matching unread counts reset, and the display becomes an eight-message history only when the id is found and a user is loaded |
| ChatPage.ChatSession.EditCompose | app/chat/page.tsx:501 | The compose text becomes the typed value |
| ChatPage.ChatSession.SendMessage | app/chat/page.tsx:114-141 | Accepted exactly under the five guards (else no change at all); then one `sent` message is appended, the compose cleared, the typing flag set, the last message updated and one reply scheduled |
| ChatPage.ChatSession.RecordSend | app/chat/page.tsx:132-141 | The state updates of an accepted send, preserving the session invariant |
| ChatPage.ChatSession.FireReply | app/chat/page.tsx:145-165 | The typing flag clears, a `delivered` reply from the captured contact is appended to the displayed list, and only the conversation active at send time gets it as last message |
| ChatPage.ChatSession.NewChat | app/chat/page.tsx:177-180 | No active conversation and an empty display; the conversations are untouched |
| ChatPage.ChatSession.ToggleHiddenChat | app/chat/page.tsx:253-258 | The hidden list becomes the toggle of the old one and keeps having no repeats |
| ChatPage.ChatSession.Sidebar | app/chat/page.tsx:356-357 | The sidebar shows exactly the conversations whose id is not hidden |
| ChatPage.SwitchThenReply | app/chat/page.tsx:145-165 | A switch followed by the pending reply leaves the reply in the other contact's displayed history |
| ChatApi.StatusCode | app/api/chat/route.ts:12-40 | A refused request answers 400, an exception 500, a forwarded request the backend's stream (200) |
| ChatApi.ContentType | app/api/chat/route.ts:14 | Both error responses are declared JSON |
| ChatApi.Property | app/api/chat/route.ts:8 | A property is present only on an object that has that key, with that key's value |
| ChatApi.MaxTokens | app/api/chat/route.ts:19 | The token limit is positive and is either 500 or exactly the caller's number; a positive caller number is kept |
| ChatApi.Temperature | app/api/chat/route.ts:20 | The temperature is the caller's value when it is a number, 0.7 otherwise |
| ChatApi.IsArray | app/api/chat/route.ts:11 | `Array.isArray`: the property is present and is a JSON array |
| ChatApi.IsNumber | app/api/chat/route.ts:19-21 | `typeof … === "number"`: the property is present and is a JSON number |
| ChatApi.TopP | app/api/chat/route.ts:21 | `top_p` is the caller's value when it is a number, 0.9 otherwise |
| ChatApi.Post | app/api/chat/route.ts:4-42 | 400 with the fixed validation body exactly when a non-null body lacks a `messages` array; 500 with the fixed body exactly on a parse failure, a `null` body or a backend exception; otherwise the array is forwarded unchanged with a positive token limit |
| ChatApi.ValidationBeforeBackend | app/api/chat/route.ts:11-30 | Whether and how a request is refused does not depend on the backend, and a refused request is never forwarded |
| ChatApi.ArrayIsForwarded | app/api/chat/route.ts:19-30 | A `messages` array reaches the backend unchanged, with each parameter defaulted from the caller's value |
| ChatApi.Examples | app/api/chat/route.ts:11-21 | A string for `messages` gives 400; an empty array gives a forward with 500, 0.7, 0.9; `max_tokens: -5` becomes 500; an array body gives 400; `null` gives 500 |
| Login.StoredUser | app/login/page.tsx:33-38 | The stored record has id "1", the email verbatim, the placeholder avatar, and a name that is the email's prefix before the first `@` |
| Login.Attempt | app/login/page.tsx:29-39 | A record is stored exactly when email and password are both non-empty |
| Login.StoredNameSplitsEmail | app/login/page.tsx:35 | An email with an `@` is the stored name, the `@` and the rest |
| Login.LoginPage.constructor | app/login/page.tsx:16-18 | The form starts empty and not loading, on the login route |
| Login.LoginPage.EditEmail | app/login/page.tsx:90 | The email field becomes the typed value |
| Login.LoginPage.EditPassword | app/login/page.tsx:109 | The password field becomes the typed value |
| Login.LoginPage.Submit | app/login/page.tsx:22-24 | The spinner goes on and the fields are captured for the delayed check |
| Login.LoginPage.Resolve | app/login/page.tsx:27-55 | On success the record is stored and the route becomes the chat page; on failure neither changes; the spinner goes off either way |
| Login.SubmitAndResolve | app/login/page.tsx:22-55 | The spinner is on between submit and resolution; the chat page is reached exactly when both fields were non-empty |

## Left out

- Rendering is not modelled. This covers the modals, the call placeholders, the theme, the header, avatars, accessible labels and `formatTime`. These are presentation only.
- Scrolling to the bottom, the toasts and the console logging are not modelled. These are browser side effects.
- The redirects to the login page on mount and the removal of a corrupt stored user are not modelled; such a mount leaves the session unchanged.
- The landing page (`app/page.tsx`) is static markup and is not modelled.
- Time passing is not modelled, and neither are the 1500 ms login delay or the reply timer's delay. A timer firing is its own event (`FireReply`, `Resolve`) that can happen at any later point, in any order. The only timing fact stated is the delay bound.
- ChatPage.ChatSession.Mount: a stored value that parses as JSON but is not a user record is not modelled. The page casts it without checking.
- Conversations.HistoryBetweenPair: its message-level facts hold only for a generator that honours its arguments. `generateRandomMessage` itself is not part of this model.
- ChatApi.Post: the backend call and its streamed answer are only the outcome `Forward`. Chunk order, cancellation and mid-stream failures belong to the backend library, which is not part of this model.
- ChatApi.Post: numbers are abstract reals. Values that JSON parsing turns into `Infinity` are not represented, and `0.7`/`0.9` are exact rather than binary floating point.
- Text.NatToDecimal: it renders a clock reading as plain digits. JavaScript switches to exponent notation only from 10^21 ms, far beyond any clock reading.
- The floating-point computation of `1000 + Math.random() * 2000` is not modelled. Only its interval is stated.
- Cancelling pending replies and raising unread counts on replies are not modelled, because the code does neither.
