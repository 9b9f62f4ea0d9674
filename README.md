# Real-time forum chat engine, modelled in Dafny

This project models the chat engine of a small forum, on both sides of its websocket:

- **The browser client** (`static/chat.js`). Its module-level variables are the fields of the
  class `Chat.ChatState`, and each event handler is a method of that class:
  - the socket's message router
  - the typing input, pause, blur, send, switch and close transitions
  - the throttled scroll listener and the page loader
  - opening a chat and the first-page response
  - sending a message once the `/logged` liveness check answers
  - the roster rebuild
  - the unread-badge reply

  What a handler hands to the outside world is returned as a sequence of `Chat.Effect`s: a
  websocket frame, a `fetch`, a `POST /notification`, or a timer it arms. What comes back (a
  response, a timer firing, the current `scrollTop`, the clock) is the argument of another
  method. The `throttle` closure is the class `Throttling.Throttle`, with its `lastTime` field.
- **The Go server** (`backend/Server.go`, `backend/handlers.go`). The session registry `clients`
  (username to session list) is the one field of the class `Backend.Server`. It models
  `HandleWebSocket`, the disconnect clean-up of `receiveMessages`, one pass of its read loop (the
  sender and timestamp overwrite, the insert, and the fan-out), and `broadcastUserList`. Every
  websocket write is a `Backend.Delivery`.
- **The history query** (`GetMessagesHandler`). The SQL query is the function `Pages.Page`: the
  rows between the two users, newest first, `LIMIT 10 OFFSET k`, reversed by prepending. The
  handler method is proved against that function. Ordering, length, membership, symmetry and
  paging properties are proved about it.

Supporting modules:

- `Messages`: the message and frame types, a stable timestamp sort, and reversal.
- `Text`: JavaScript `trim`, Go `html.EscapeString` with an unescape that inverts it, Go
  `strconv.Atoi`, and decimal formatting.
- `Notifications`: the `notifData` body, and how `encoding/json` reads it into the server's
  `Notification` struct.

Modelling decisions:

- **Timestamps are integers.** The server stores `time.Now().Format(time.RFC3339)`, text that
  carries the server's local UTC offset, and `ORDER BY timestamp DESC` compares that text. The
  client compares the instants `new Date(...)` reads from it. The integer stands for the
  server's text order. The client's instant order agrees with it only while the server's UTC
  offset stays the same (see "Left out").
- **Tied timestamps are ordered.** `ORDER BY timestamp DESC` leaves the order of equal
  timestamps open. The model fixes one stable order (`Messages.SortByTimeDesc`).
- **SQL `OFFSET`.** A negative `OFFSET` reads as 0, as SQLite does.
- **`displayedMessagesCount` is a declared field.** Nothing declares it in the source; see
  Findings. The field is an explicit counter that starts at 0 and grows by the length of each
  older page. It is not reset when the chat changes, and the first-page load does not advance
  it. `Chat.FirstOlderPageRepeatsOffsetZero` shows the consequence: the first older page
  requested after opening a chat is offset 0 again.
- **The first-page response is a separate step.** `Chat.ChatState.OnHistory` stores the page
  under whoever is selected when the response arrives. `Chat.StaleHistoryLandsOnNewPeer` shows a
  stale response landing in another peer's cache.
- **A typing frame reaches the server as an empty chat message.** The server reads every
  incoming frame into a `Message`, which has no `type` or `isTyping` field. A typing frame is
  therefore stored and relayed as a chat message with empty content
  (`Backend.TypingRelayedAsChat`). Clients never receive a `typing` frame from this server. The
  client's typing router is modelled anyway, as written.
- **The relayed message carries the raw content.** The stored row holds the HTML-escaped
  content, and the two agree after unescaping (`Backend.RowUnescapes`).
- **`broadcastUserList(msg.To)` runs once per session of the addressee,** before each write of
  the message, as the source has it.
- **Go map iteration order is unspecified.** The order of user names after the first is left
  open: the contracts state membership and distinctness, not order.

## Model

| member | source | states |
|---|---|---|
| Throttling.Throttle.constructor | static/chat.js:22-23 | a fresh throttle has `lastTime` 0, no runs, and the given `wait` |
| Throttling.Throttle.Call | static/chat.js:24-30 | the wrapped call runs iff `now - lastTime >= wait`; `lastTime` becomes `now` only when it runs; the run history grows by `now` exactly then; validity is kept |
| Throttling.RunsSpaced | static/chat.js:22-31 | any two runs of a throttle, however far apart, are at least `wait` milliseconds apart |
| Messages.SortByTime | static/chat.js:65 | the comparator sort yields a permutation of its input in ascending timestamp order |
| Messages.Insert | static/chat.js:65 | inserting one message keeps a sorted sequence sorted and adds exactly that message |
| Messages.Reverse | static/chat.js:66 | `reverse()` puts element `i` at position `n - 1 - i` and keeps the length |
| Messages.ReversePermutes | static/chat.js:66 | reversal is a permutation |
| Messages.ReverseAppend | backend/handlers.go:333 | the reverse of a concatenation is the concatenation of the reverses, swapped |
| Messages.ReverseAscending | backend/handlers.go:315-333 | reversing a newest-first sequence gives an oldest-first one, and the other way round |
| Messages.SortByTimeDesc | backend/handlers.go:315 | `ORDER BY timestamp DESC` yields a permutation in descending timestamp order |
| Messages.SortAscendingIsIdentity | static/chat.js:387 | sorting an already sorted sequence leaves it unchanged, because the sort is stable |
| Text.TrimStart | static/chat.js:229 | strips exactly the leading JavaScript white space and leaves a suffix of the input |
| Text.TrimEnd | static/chat.js:229 | strips exactly the trailing JavaScript white space and leaves a prefix of the input |
| Text.Trim | static/chat.js:229-238 | `trim()` yields a contiguous slice of the input with no white space at either end, and every character cut off before or after it is white space |
| Text.TrimEmptyIffBlank | static/chat.js:229-238 | the trimmed value is empty iff every character is white space |
| Text.HtmlEscape | backend/Server.go:192 | the escaped content contains no markup character, and content without `<>&'"` is unchanged |
| Text.HtmlEscapeRoundTrip | backend/Server.go:192 | unescaping the stored content gives back exactly the content that was sent |
| Text.Atoi | backend/handlers.go:306 | a parsed offset lies in the signed 64-bit range, and only an optional sign followed by at least one digit and nothing but digits parses; so the empty string, a lone sign and any string with another character fail |
| Text.AtoiNumeral | backend/handlers.go:306 | every numeral with an optional `+` or `-` and any number of leading zeros parses to its value when that is in the int64 range, and fails when it is not |
| Text.AtoiSign | backend/handlers.go:306 | an optional sign followed by any non-empty digit string parses to its signed value exactly when that is in the int64 range |
| Text.LeadingZerosValue | backend/handlers.go:306 | leading zeros do not change the value of a digit string |
| Text.Decimal | static/chat.js:51 | the decimal text of a counter is a non-empty digit string whose value is the counter |
| Text.AtoiDecimal | backend/handlers.go:306 | `strconv.Atoi` reads back every decimal counter in the 64-bit range |
| Notifications.NotifData | static/chat.js:429-434 | the body has `unread_messages` iff a count is given (0 included, none for null or undefined), always both nicknames, and nothing else |
| Notifications.DecodeNotifData | static/chat.js:429-434 | the server's `Notification` struct reads back exactly the receiver, the sender and the optional count, with a missing count left nil rather than 0 |
| Chat.ChatKey | static/chat.js:207 | the cache key is one of the two parties, and it is the sender whenever the sender is someone else |
| Chat.ChatKeyBothDirections | static/chat.js:207 | both directions of a conversation file under the peer's name |
| Chat.TypingFrames | static/chat.js:115-126 | without a socket or a truthy selected user nothing is sent; otherwise one typing frame per value, in order, each from the current user to the selected one |
| Chat.TypingStatus | static/chat.js:115-126 | nothing is sent iff there is no socket or the selected user is falsy; otherwise exactly one typing frame, from the current user to the selected one, with the given flag |
| Chat.SignalsAreTransitions | static/chat.js:221-256 | every change of the typing flag reports the new value exactly once, and an unchanged flag reports nothing |
| Chat.RisesOnlyOnText | static/chat.js:228-236 | the flag rises only on an input whose trimmed value is not empty |
| Chat.FallsOrStays | static/chat.js:221-256 | from typing, the flag falls on blank input, on the pause, blur, send, switch and close, and on nothing else; a non-blank input while typing sends nothing |
| Chat.BurstReportsOnce | static/chat.js:228-241 | any burst of non-blank inputs from idle reports `true` once and leaves the flag set |
| Chat.BurstThenPause | static/chat.js:221-241 | the same burst followed by the debounce expiry reports exactly `true` then `false` |
| Chat.Listed | static/chat.js:313-314 | the roster holds exactly the listed users other than the current one |
| Chat.ListedAppend | static/chat.js:313-314 | the roster keeps the list's order: filtering `a + b` filters `a`, then `b` |
| Chat.ListedSingle | static/chat.js:313-314 | a single listed name is kept exactly when it is not the current user |
| Chat.RosterNotifications | static/chat.js:330 | one count-less notification request goes out per roster entry, in roster order |
| Chat.MergedPage | static/chat.js:65-75 | the in-place sort, reverse and re-sort leave a permutation of the page in ascending order |
| Chat.ChatState.constructor | static/chat.js:3-19 | module load gives an empty cache, no selection, a cleared flag, zero counters and a hidden window; the first `startChatFeature` call then only sets the current user and opens the socket |
| Chat.ChatState.OnInput | static/chat.js:228-241 | the box value is stored; the flag and the frames follow the typing transition; the debounce timer is re-armed exactly when the trimmed value is not empty |
| Chat.ChatState.OnTypingPause | static/chat.js:221-226 | the debounce expiry clears the flag and reports that exactly when it was set |
| Chat.ChatState.OnBlur | static/chat.js:244-249 | blur clears the flag and reports that exactly when it was set |
| Chat.ChatState.OnSendPressed | static/chat.js:251-260 | sending clears the flag (reported when it was set), then issues the liveness check |
| Chat.ChatState.OnLoggedReply | static/chat.js:261-285 | on liveness failure nothing is sent, the user shows as logged out and the window hides; on success, with non-blank trimmed content and a truthy selected user, exactly one chat frame goes out, is appended to that peer's cache, and the box clears; otherwise nothing changes |
| Chat.ChatState.OnCloseChat | static/chat.js:373-382 | closing clears the flag (reported to the peer still selected), hides the window and deselects |
| Chat.ChatState.SwitchTo | static/chat.js:331-384 | a click clears the flag (reported to the previous peer), resets `chatPage` and `noMoreMessages`, installs a fresh 200 ms throttle, selects the user, opens the window, drops its badges, and posts an unread reset of 0 |
| Chat.ChatState.ShowChat | static/chat.js:338-368 | the pagination flags reset, a fresh 200 ms throttle is installed, the user is selected, the window opens and its badges go |
| Chat.ChatState.OpenChat | static/chat.js:331-393 | after the switch, a cached conversation (even an empty one) is rendered as a sorted copy and the cache is untouched; otherwise exactly one page request for offset 0 goes out |
| Chat.ChatState.OnHistory | static/chat.js:394-401 | a first page is sorted (a permutation, ascending) and stored under the user selected when it arrives, which may not be the one requested; a failed fetch changes nothing |
| Chat.ChatState.OnScroll | static/chat.js:346-355 | a page request goes out only when the throttle runs, `scrollTop <= 100`, no fetch is in flight and history is left; `isFetching` is set and `chatPage` advances exactly then; the request carries the current offset |
| Chat.ChatState.OnPageLoaded | static/chat.js:50-85 | an empty page marks the history exhausted and clears `isFetching` with the cache unchanged; a non-empty page, sorted, goes in front of that peer's cache (so the old cache is a suffix) and the offset grows by its length; a failure changes nothing; the loader timer is armed on every path |
| Chat.ChatState.OnLoaderHidden | static/chat.js:83-97 | the loader timer always clears `isFetching`, and arms the re-check exactly when history is left and the view is near the top |
| Chat.ChatState.OnScrollRetry | static/chat.js:91-96 | the re-check dispatches a scroll only while the view is near the top, nothing is in flight and history is left; otherwise nothing changes |
| Chat.ChatState.SetUserList | static/chat.js:310-330 | the roster becomes the listed users other than the current one, every badge goes, and one notification request per roster entry is posted |
| Chat.ChatState.OnFrame | static/chat.js:183-213 | a roster frame rebuilds the roster; a typing frame from the selected user toggles the chat indicator, otherwise the sender's roster badge; a chat message from or to the selected user is appended at the tail of its conversation's cache with no other key changed, else a message to the current user posts one unread increment of 1 and leaves the cache alone, else nothing but the counter and the typing marks changes |
| Chat.ChatState.OnNotificationReply | static/chat.js:409-427 | a count of 0 (or a failed request) leaves every badge as it is; otherwise the listed sender's badge shows the server's count and no other badge changes |
| Chat.ChatState.OnScrollAsWritten | static/chat.js:42-43 | as written, the scroll listener sets `isFetching` and requests nothing |
| Chat.FirstChat | static/chat.js:331-393 | a freshly started client opening its first chat posts the unread reset and requests the page at offset 0, with the pagination state fresh |
| Chat.PaginationStuckAsWritten | static/chat.js:42-43 | as written, after opening a chat the first scroll to the top sends no request, `isFetching` stays set, and a later scroll is refused too |
| Chat.PaginationProceeds | static/chat.js:346-355 | with the counter declared, the same scroll requests the page at offset 0 for the open peer |
| Chat.FirstOlderPageRepeatsOffsetZero | static/chat.js:43 | after the first page has loaded, the first older-page request asks for offset 0 again |
| Chat.StaleHistoryLandsOnNewPeer | static/chat.js:393-397 | a history response for one peer that arrives after switching to another is cached under the new peer |
| Chat.ExhaustedHistoryEndsPaging | static/chat.js:54-60 | with `[]` for no rows, scrolling past the oldest message marks the history exhausted and ends the fetch |
| Chat.ExhaustedHistoryKeepsPagingAsWritten | backend/handlers.go:325-336 | with `null` for no rows, the same response never marks the history exhausted (on a client whose counter is declared) |
| Chat.EmptyChatRefetchedAsWritten | static/chat.js:393-397 | with `null` for no rows, the first page of an empty conversation fails in `messages.sort`, nothing is cached, and reopening the chat requests offset 0 again |
| Chat.EmptyChatCachedOnce | static/chat.js:386-397 | with `[]` for no rows, the empty conversation is cached, and reopening the chat requests nothing |
| Pages.Conversation | backend/handlers.go:314 | the `WHERE` clause keeps exactly the table rows between the two users, in either direction |
| Pages.ConversationCounts | backend/handlers.go:314 | every matching row is kept as often as it occurs in the table, and no other row is kept |
| Pages.NewestFirst | backend/handlers.go:315 | the conversation comes back as a permutation of itself, newest first |
| Pages.WindowStart | backend/handlers.go:316 | a negative offset reads as 0, an offset within the conversation is kept, and one past its end starts at the end |
| Pages.PageMembers | backend/handlers.go:311-317 | every row of a page is a table row between the two users |
| Pages.PageLength | backend/handlers.go:316 | a page holds 10 rows, or the rows left after the offset when fewer remain |
| Pages.PageAscending | backend/handlers.go:315-333 | a page is oldest first, the reverse of the SQL order |
| Pages.ConversationSymmetric | backend/handlers.go:314-317 | the query is the same whichever of the two users asks |
| Pages.PageSymmetric | backend/handlers.go:311-317 | a page is the same whichever of the two users asks |
| Pages.StackedPages | backend/handlers.go:311-333 | the pages at offsets 0, 10, 20 and so on, each stacked in front of the earlier ones, are exactly the newest `10 j` rows in chronological order: no gap, no overlap |
| Pages.Offset | backend/handlers.go:305-309 | the offset is the parsed parameter, or 0 when it does not parse |
| Pages.ClientOffsetReachesQuery | backend/handlers.go:305-309 | the offset counter the client writes in the URL reaches the query unchanged |
| Pages.EncodePageAsWritten | backend/handlers.go:325-336 | as written, the body is `null` iff there are no rows, and otherwise the rows |
| Pages.EncodePage | backend/handlers.go:335-336 | the corrected body is always the array of rows |
| Pages.DecodePage | static/chat.js:53-54 | the client reads an array as itself and fails with a TypeError on `null` |
| Pages.PageEmptyPastEnd | backend/handlers.go:316 | past the end of the conversation the page is empty |
| Pages.ExhaustedPageIsErrorAsWritten | backend/handlers.go:325-336 | as written, a page past the end reaches the client as a failure, not as the empty page |
| Pages.PageRoundTrip | backend/handlers.go:335-336 | with `[]` for no rows, the client reads back exactly the page the query returned, which is empty past the end |
| Backend.Others | backend/Server.go:210-218 | keeps exactly the sender's sessions whose id differs from the originating one |
| Backend.OthersAppend | backend/Server.go:210-218 | the echo filter keeps order: the kept sessions of `a + b` are those of `a`, then those of `b` |
| Backend.OthersSingle | backend/Server.go:210-218 | a single session is kept exactly when its id differs from the originating one |
| Backend.Relay | backend/Server.go:200-217 | one chat write per listed session, in order, each carrying the same message |
| Backend.IndexOf | backend/Server.go:162-163 | finds the first session with the id, or the length when there is none |
| Backend.FindSession | backend/Server.go:162-163 | the search loop stops at the first session with the id, or at the end when there is none |
| Backend.RemoveFirst | backend/Server.go:162-166 | removes exactly the first session with the id (one fewer, nothing else lost), the sessions before and after it keep their order, and nothing changes when there is none |
| Backend.RemoveFirstCount | backend/Server.go:162-166 | the removal drops one occurrence of the removed session and keeps every other count |
| Backend.RemoveSession | backend/Server.go:161-172 | other users keep their session lists; the user's list loses its first matching session; the key goes exactly when no session is left |
| Backend.AddSession | backend/handlers.go:284-287 | the new session goes at the end of its user's list, which is created if absent; other users' lists are unchanged |
| Backend.RemoveSessionCount | backend/Server.go:161-172 | closing a session keeps the registry well formed and drops exactly one listing of the removed session |
| Backend.ConnectThenDisconnect | backend/Server.go:161-172 | connecting a session with a new id and then disconnecting it restores the registry exactly |
| Backend.Incoming | backend/Server.go:179-180 | `ReadJSON` into a `Message` keeps a chat message as it is, keeps a typing frame's parties with empty content, and drops every unknown field |
| Backend.Received | backend/Server.go:186-187 | the relayed message's sender is the session's user and its timestamp is the server's clock, whatever the client sent |
| Backend.Row | backend/Server.go:189-192 | the stored row keeps the parties and the time, and its content holds no markup character |
| Backend.RowUnescapes | backend/Server.go:192-202 | the stored row, unescaped, is the relayed message |
| Backend.TypingRelayedAsChat | backend/Server.go:179-192 | a typing frame is stored and relayed as an empty chat message from the session's user |
| Backend.Server.constructor | backend/Server.go:29 | the registry starts empty |
| Backend.Server.UserNames | backend/Server.go:225-234 | a non-empty `lastsender` is first; the list holds `lastsender` and every user with a session, each exactly once |
| Backend.Server.SendUserList | backend/Server.go:236-244 | every open session receives the same `user_list` frame exactly once per listing, and nothing else is written |
| Backend.Server.BroadcastUserList | backend/Server.go:224-245 | the name list has the properties above, and it is written to every open session |
| Backend.Server.Connect | backend/handlers.go:264-291 | without a session nothing is registered or sent; a failed upgrade registers nothing; otherwise the session is appended to its user's list and every open session gets the new user list |
| Backend.Server.Disconnect | backend/Server.go:157-176 | the registry loses exactly the first matching session, and the user when none is left; it stays well formed; every remaining session gets the new user list |
| Backend.Server.ReceiveMessage | backend/Server.go:178-220 | a failed insert stores nothing and delivers nothing; otherwise the escaped row is stored, and the writes are, for each session of the addressee, a full user-list broadcast naming the addressee first and then the message, followed by the message to every other session of the sender |
| Backend.Server.DeliverToAddressee | backend/Server.go:198-207 | for each session of the addressee, in order: a complete `broadcastUserList(msg.To)` (a list naming the addressee first, sent to every open session once per listing), then the message to that session |
| Backend.AddresseeChats | backend/Server.go:198-207 | the chat writes of the addressee loop are the message, once to each session of the addressee, in order |
| Backend.AddresseeListsFirst | backend/Server.go:198-207 | every user list the addressee loop writes names the addressee first |
| Backend.Server.EchoToSender | backend/Server.go:209-219 | the message goes to the sender's other sessions, in order, and never back to the originating one |
| Backend.Server.GetMessagesHandler | backend/handlers.go:296-337 | a missing `from` or `to` is a 400 with no query; a failed query is a 500; otherwise the body is the query's page at the parsed offset, oldest first, encoded as written: `null` when there is no row |
| Backend.WriteEach | backend/Server.go:238-243 | writes the frame once to each session, in order |

## Left out

- DOM rendering and scroll geometry are not modelled. This covers `renderMessage`,
  `renderMessageAtTop`, the indicator and badge nodes, the chat-with name and the scroll-height
  restoration. Their visible state is kept as fields: the roster, the badge texts, the typing
  marks, the window's `hidden` class, and the messages a handler draws (`rendered`).
- Real timers are events. The 1 s debounce, the 500 ms minimum loader time and the 100 ms
  re-check are not clocks: a handler arms a timer with an effect, and its firing is a method
  call. The debounce's clearing of an earlier timer is not tracked, so a stale pause event is
  the caller's to avoid.
- The websocket, `fetch`, HTTP status codes and JSON parsing are not modelled. A response is a
  `Result` argument; the server's status codes are the `Response` constructors.
- A `typing` frame with a missing or non-boolean `isTyping` is not modelled. The router's
  `data.isTyping` is taken to be a boolean.
- The goroutine per connection and the unsynchronised access to `clients` are not modelled.
  The registry is updated one event at a time.
- Go's aliasing of `append(sessions[:i], sessions[i+1:]...)` on the shared backing array is not
  modelled. Session lists are values, so only the resulting list is.
- The WebSocket read and write error paths are not modelled: the `WriteJSON` failures (printed
  and ignored), the read error that ends the loop (the disconnect is its own method), and the
  `rows.Scan` error of `GetMessagesHandler`.
- The clock is a parameter. So is the UUID of a new session, and so are the outcomes of
  `CheckSession`, the upgrade, the insert and the query.
- bcrypt, cookies and the session table are not modelled; they sit behind `CheckSession`.
- SQLite is not modelled beyond the history query.
- The server's `/notification` handler (`S.Notification`) is not part of this model. Its reply
  is an argument of `Chat.ChatState.OnNotificationReply`.
- `unreadCounts`, `messagePerPage`, `TYPING_TIMEOUT` and `typingTimeout` are declared but never
  used, so they have no field.
- `logged` and `showSection` (`static/app.js`) are reduced to the `loggedIn` field.
- The nil `usernames` slice of `broadcastUserList` is not modelled. It stays nil when no name is
  appended: with an empty registry (then no session receives it), or, for `lastsender` `""`,
  with a registry whose only user has the empty nickname, which registration does not reject.
  That user's sessions then receive `"users": null`, where the model writes an empty list. The
  client ends with an empty roster either way: `setUserList` clears the list before its
  `forEach` throws on `null`.
- Messages.SortByTime, Messages.SortByTimeDesc: one integer order stands for both the server's
  text order and the client's instant order. After a change of the server's UTC offset (a
  daylight-saving fall-back, say), "…T02:10:00+01:00" sorts before "…T02:50:00+02:00" in SQL
  though it is the later instant. The two orders then disagree, and the model does not capture
  that.
- The first-page response that arrives with no chat selected is stored by the client under the
  key `null`. The model does not keep that entry. A scroll after the chat is closed reads and
  extends it in `loadMessagesPage`, but nothing renders it.
- Posts, comments, registration, login and logout are not part of the chat engine.
- A second `startChatFeature` call is not modelled. The `/logged` failure (static/chat.js:281-284)
  logs out without a reload, and the next login (static/login.js:25) calls it again. That keeps
  the earlier cache, selection and flags, opens a second socket and adds a second set of input,
  blur and send listeners; the model has one client per started feature.
- Backend.Server.BroadcastUserList, Backend.Server.UserNames: the map iteration order is not
  fixed, so the contracts state only membership, distinctness and the position of
  `lastsender`.

## Findings

| source | as written | input that shows it | evidently intended | confidence | as-written member | corrected member |
|---|---|---|---|---|---|---|
| static/chat.js:43 | `loadMessagesPage` reads `displayedMessagesCount`, which nothing declares. `chat.js` is an ES module, so that is a ReferenceError thrown before the `try`. No request is made, the `finally` never runs, and `isFetching` stays `true`, so pagination stops for good | open a chat with any peer, then scroll the message list to the top | a declared offset counter, starting at 0 and growing by each loaded page | not executed | Chat.ChatState.OnScrollAsWritten, Chat.PaginationStuckAsWritten | Chat.ChatState.OnScroll, Chat.PaginationProceeds |
| backend/handlers.go:325-336 | `var messages []Message` stays the nil slice when the query returns no rows, and `json.NewEncoder(w).Encode` writes it as `null`. As written, the effect shows when a chat with no messages is opened: `messages.sort` on `null` (static/chat.js:396) throws into the `catch`, so nothing is cached and every reopening fetches the first page again. Once the counter of static/chat.js:43 is declared, older-page loads are affected too: `messages.length` throws, `noMoreMessages` is never set, and the scroll re-check keeps asking for the same empty page | open a chat with a peer you have never exchanged messages with, then open it again; with the counter fixed, scroll past the oldest message of a conversation | an empty JSON array `[]`, so that the client sees the empty page and stops paging | not executed | Pages.EncodePageAsWritten, Backend.Server.GetMessagesHandler, Pages.ExhaustedPageIsErrorAsWritten, Chat.EmptyChatRefetchedAsWritten, Chat.ExhaustedHistoryKeepsPagingAsWritten | Pages.EncodePage, Pages.PageRoundTrip, Chat.EmptyChatCachedOnce, Chat.ExhaustedHistoryEndsPaging |
