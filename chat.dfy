/**
 * The browser side of the chat engine, static/chat.js. Its module-level variables are the fields
 * of one `ChatState`; each event handler is a method. What a handler hands to the outside world
 * (a websocket frame, a `fetch`, a timer it arms) is returned as a sequence of `Effect`s, and
 * what comes back (a reply, a timer firing) is the argument of another method. DOM nodes are
 * reduced to the state they show: the roster, the badges, the typing overlays.
 */
module Chat {
  import opened Wrappers
  import opened Messages
  import opened Text
  import opened Throttling
  import opened Notifications
  import opened Pages

  /** The `wait` the chat gives `throttle` for the scroll handler, in milliseconds. */
  const ScrollWait: int := 200
  /** `scrollTop <= 100` counts as near the top. */
  const NearTop: int := 100

  /** The `setTimeout`s the chat arms: the 1 s typing debounce, the loader's minimum display
      time after a page load, and the 100 ms re-check that may dispatch another scroll. */
  datatype Timer = TypingPause | LoaderHide | ScrollRetry

  datatype Effect =
    | Send(frame: Frame)                                      // socket.send(JSON.stringify(...))
    | Notify(payload: Payload)                                // POST /notification
    | FetchPage(from: string, to: Option<string>, offset: int) // GET /messages?from=&to=&offset=
    | CheckLogged                                             // GET /logged
    | StartTimer(timer: Timer)

  /** JavaScript truthiness of `selectedUser`: not null and not the empty string. */
  predicate Truthy(u: Option<string>) {
    u.Some? && u.value != ""
  }

  /** `from === currentUser ? to : from`: the peer whose conversation a message belongs to. */
  function ChatKey(m: Message, me: string): (key: string)
    ensures key == m.from || key == m.to
    ensures m.from != me ==> key == m.from
  {
    if m.from == me then m.to else m.from
  }

  /** The same conversation key for both directions of a conversation. */
  lemma ChatKeyBothDirections(me: string, peer: string, c1: string, c2: string, t1: int, t2: int)
    requires peer != me
    ensures ChatKey(Message(me, peer, c1, t1), me) == peer
    ensures ChatKey(Message(peer, me, c2, t2), me) == peer
  {
  }

  /** `sendTypingStatus(v)`: nothing without a socket or a truthy `selectedUser`, otherwise
      one typing frame from the current user to the selected one. */
  function TypingStatus(socketOpen: bool, selected: Option<string>, me: string, v: bool): (out: seq<Effect>)
    ensures out == [] <==> !socketOpen || !Truthy(selected)
    ensures out != [] ==> out == [Send(Typing(me, selected.value, v))]
  {
    if !socketOpen || !Truthy(selected) then [] else [Send(Typing(me, selected.value, v))]
  }

  /** `sendTypingStatus` called once for each value of `vs`, in order. */
  function TypingFrames(socketOpen: bool, selected: Option<string>, me: string, vs: seq<bool>): (out: seq<Effect>)
    ensures !socketOpen || !Truthy(selected) ==> out == []
    ensures socketOpen && Truthy(selected) ==>
              |out| == |vs| && forall i :: 0 <= i < |vs| ==> out[i] == Send(Typing(me, selected.value, vs[i]))
  {
    if vs == [] then [] else TypingStatus(socketOpen, selected, me, vs[0]) + TypingFrames(socketOpen, selected, me, vs[1..])
  }

  /** The events that move the local typing flag. */
  datatype TypingEvent =
    | Input(value: string)  // 'input' on the message box, with the box's new value
    | Pause                 // the debounced callback, 1 s after the last non-blank input
    | Blur                  // 'blur' on the message box
    | SendPressed           // sendMessage, before the liveness check
    | Switch                // a click on another user in the roster
    | Close                 // the close-chat button

  /** `isTyping` after the handler for `e`. */
  function TypingNext(typing: bool, e: TypingEvent): bool {
    match e
    case Input(v) =>
      if !typing && Trim(v) != "" then true
      else if typing && Trim(v) == "" then false
      else typing
    case _ => false
  }

  /** The values the handler for `e` passes to `sendTypingStatus`, in order. */
  function TypingSignals(typing: bool, e: TypingEvent): seq<bool> {
    match e
    case Input(v) =>
      if !typing && Trim(v) != "" then [true]
      else if typing && Trim(v) == "" then [false]
      else []
    case _ => if typing then [false] else []
  }

  /** Every change of the flag reports the new value exactly once, and nothing is reported
      when the flag does not change. */
  lemma SignalsAreTransitions(typing: bool, e: TypingEvent)
    ensures TypingSignals(typing, e) == (if TypingNext(typing, e) != typing then [TypingNext(typing, e)] else [])
  {
  }

  /** The flag rises only on an input whose trimmed value is not empty. */
  lemma RisesOnlyOnText(typing: bool, e: TypingEvent)
    ensures !typing && TypingNext(typing, e) <==> !typing && e.Input? && Trim(e.value) != ""
  {
  }

  /** The flag falls on a blank input and on every other event; a non-blank input while typing
      changes nothing and reports nothing. */
  lemma FallsOrStays(e: TypingEvent)
    ensures !TypingNext(true, e) <==> !e.Input? || Trim(e.value) == ""
    ensures e.Input? && Trim(e.value) != "" ==> TypingNext(true, e) && TypingSignals(true, e) == []
  {
  }

  /** The flag and the values reported so far. */
  datatype TypingRun = TypingRun(typing: bool, sent: seq<bool>)

  /** The flag and the reported values after a sequence of events. */
  function RunTyping(typing: bool, es: seq<TypingEvent>): TypingRun {
    if es == [] then TypingRun(typing, [])
    else
      var prev := RunTyping(typing, es[..|es| - 1]);
      var e := es[|es| - 1];
      TypingRun(TypingNext(prev.typing, e), prev.sent + TypingSignals(prev.typing, e))
  }

  predicate NonBlankInputs(es: seq<TypingEvent>) {
    forall i :: 0 <= i < |es| ==> es[i].Input? && Trim(es[i].value) != ""
  }

  /** A burst of non-blank inputs from idle reports `true` exactly once ... */
  lemma {:induction false} BurstReportsOnce(es: seq<TypingEvent>)
    requires es != [] && NonBlankInputs(es)
    ensures RunTyping(false, es) == TypingRun(true, [true])
  {
    var front, e := es[..|es| - 1], es[|es| - 1];
    var prev := RunTyping(false, front);
    assert TypingNext(prev.typing, e) && prev.sent + TypingSignals(prev.typing, e) == [true] by {
      if |es| > 1 {
        NonBlankFront(es);
        BurstReportsOnce(front);
      } else {
        assert front == [];
      }
      NonBlankStep(prev.typing, e);
    }
  }

  /** A non-blank input sets the flag, and reports that only when the flag was clear. */
  lemma NonBlankStep(typing: bool, e: TypingEvent)
    requires e.Input? && Trim(e.value) != ""
    ensures TypingNext(typing, e)
    ensures TypingSignals(typing, e) == if typing then [] else [true]
  {
  }

  lemma NonBlankFront(es: seq<TypingEvent>)
    requires es != [] && NonBlankInputs(es)
    ensures NonBlankInputs(es[..|es| - 1])
  {
    var front := es[..|es| - 1];
    forall i | 0 <= i < |front| ensures front[i].Input? && Trim(front[i].value) != "" {
      assert front[i] == es[i];
    }
  }

  /** ... and the debounce expiry that follows reports `false` exactly once. */
  lemma BurstThenPause(es: seq<TypingEvent>)
    requires es != [] && NonBlankInputs(es)
    ensures RunTyping(false, es + [Pause]) == TypingRun(false, [true, false])
  {
    BurstReportsOnce(es);
    assert (es + [Pause])[..|es + [Pause]| - 1] == es;
  }

  /** The roster `setUserList` builds: every listed user but the current one, in order. */
  function Listed(users: seq<string>, me: string): (r: seq<string>)
    ensures forall u :: u in r <==> u in users && u != me
  {
    if users == [] then []
    else
      var last := users[|users| - 1];
      assert forall u :: u in users <==> u in users[..|users| - 1] || u == last by {
        assert users == users[..|users| - 1] + [last];
      }
      Listed(users[..|users| - 1], me) + (if last != me then [last] else [])
  }

  /** The roster keeps the list's order: filtering `a + b` filters `a`, then `b`. */
  lemma {:induction false} ListedAppend(a: seq<string>, b: seq<string>, me: string)
    ensures Listed(a + b, me) == Listed(a, me) + Listed(b, me)
    decreases |b|
  {
    if b == [] {
      assert a + b == a;
    } else {
      var front := b[..|b| - 1];
      assert (a + b)[..|a + b| - 1] == a + front;
      assert (a + b)[|a + b| - 1] == b[|b| - 1];
      ListedAppend(a, front, me);
    }
  }

  /** A single name is kept exactly when it is not the current user. */
  lemma ListedSingle(u: string, me: string)
    ensures Listed([u], me) == if u != me then [u] else []
  {
    assert [u][..0] == [];
  }

  /** The `notification(currentUser, username)` requests, without a count, for a roster. */
  function RosterNotifications(me: string, roster: seq<string>): (out: seq<Effect>)
    ensures |out| == |roster|
    ensures forall i :: 0 <= i < |roster| ==> out[i] == Notify(NotifData(me, roster[i], None))
  {
    if roster == [] then []
    else RosterNotifications(me, roster[..|roster| - 1]) + [Notify(NotifData(me, roster[|roster| - 1], None))]
  }

  /** `showTypingInUserList(name, show)`: only a listed user can carry the badge. */
  function ShowTypingBadge(badges: set<string>, name: string, show: bool, roster: seq<string>): set<string> {
    if name !in roster then badges else if show then badges + {name} else badges - {name}
  }

  /**
   * The page `loadMessagesPage` puts in front of the cache: `messages.sort(...)` sorts the
   * array in place, `sortedMessages.reverse()` reverses that same array in place, and the
   * second `messages.sort(...)` sorts it again.
   */
  function MergedPage(page: seq<Message>): (r: seq<Message>)
    ensures Ascending(r)
    ensures multiset(r) == multiset(page)
  {
    ReversePermutes(SortByTime(page));
    SortByTime(Reverse(SortByTime(page)))
  }

  class ChatState {
    var chatCache: map<string, seq<Message>>
    var selectedUser: Option<string>
    var currentUser: string
    /** `socket` is not null. */
    var socketOpen: bool
    var chatPage: int
    var isFetching: bool
    var noMoreMessages: bool
    /** The offset of the next older page (`displayedMessagesCount`, declared here; see README). */
    var displayedMessagesCount: int
    var newMessages: int
    var isTyping: bool
    /** `input.value` of the message box. */
    var inputValue: string
    /** `chatWindow` carries the class `hidden`. */
    var chatWindowHidden: bool
    /** What the last `logged(...)` call showed. */
    var loggedIn: bool
    /** The names in `#userList`, in order. */
    var roster: seq<string>
    /** The `.notification-badge` text per listed user; None is an empty text. */
    var badges: map<string, Option<int>>
    /** The listed users that show a `.typing-badge`. */
    var typingBadges: set<string>
    /** `#typingIndicator` is in the open chat. */
    var typingIndicator: bool
    /** The throttled scroll listener of `#chatMessages`, once a chat has been opened. */
    var scrollHandler: Throttle?

    ghost predicate Valid()
      reads this`scrollHandler, scrollHandler
    {
      scrollHandler != null ==> scrollHandler.Valid() && scrollHandler.wait == ScrollWait
    }

    /** `chatCache.get(key) || []`. */
    function Cached(key: string): seq<Message>
      reads this`chatCache
    {
      if key in chatCache then chatCache[key] else []
    }

    /** The module's initial values, then the first `startChatFeature(currentUsername)`, which
        itself sets only `currentUser` and opens the socket. */
    constructor (currentUsername: string)
      ensures Valid()
      ensures currentUser == currentUsername && socketOpen && loggedIn
      ensures chatCache == map[] && selectedUser == None && scrollHandler == null
      ensures chatPage == 0 && !isFetching && !noMoreMessages && displayedMessagesCount == 0
      ensures newMessages == 0 && !isTyping && inputValue == "" && chatWindowHidden
      ensures roster == [] && badges == map[] && typingBadges == {} && !typingIndicator
    {
      chatCache := map[];
      selectedUser := None;
      currentUser := currentUsername;
      socketOpen := true;
      chatPage := 0;
      isFetching := false;
      noMoreMessages := false;
      displayedMessagesCount := 0;
      newMessages := 0;
      isTyping := false;
      inputValue := "";
      chatWindowHidden := true;
      loggedIn := true;
      roster := [];
      badges := map[];
      typingBadges := {};
      typingIndicator := false;
      scrollHandler := null;
    }

    /** `if (isTyping) { isTyping = false; sendTypingStatus(false) }`, shared by five handlers. */
    method StopTyping(ghost e: TypingEvent) returns (out: seq<Effect>)
      requires !e.Input?
      modifies this`isTyping
      ensures !isTyping && isTyping == TypingNext(old(isTyping), e)
      ensures out == TypingFrames(socketOpen, selectedUser, currentUser, TypingSignals(old(isTyping), e))
    {
      out := [];
      if isTyping {
        isTyping := false;
        out := TypingStatus(socketOpen, selectedUser, currentUser, false);
      }
    }

    /** The 'input' listener, after the box's value became `value`. */
    method OnInput(value: string) returns (out: seq<Effect>)
      modifies this`inputValue, this`isTyping
      ensures inputValue == value
      ensures isTyping == TypingNext(old(isTyping), Input(value))
      ensures out == TypingFrames(socketOpen, selectedUser, currentUser, TypingSignals(old(isTyping), Input(value)))
                     + (if Trim(value) != "" then [StartTimer(TypingPause)] else [])
    {
      inputValue := value;
      out := [];
      var trimmed := Trim(value);
      if !isTyping && trimmed != "" {
        isTyping := true;
        out := TypingStatus(socketOpen, selectedUser, currentUser, true);
      } else if isTyping && trimmed == "" {
        isTyping := false;
        out := TypingStatus(socketOpen, selectedUser, currentUser, false);
        return;
      }
      if trimmed != "" {
        out := out + [StartTimer(TypingPause)];
      }
    }

    /** The debounced `handleTyping` callback fires. */
    method OnTypingPause() returns (out: seq<Effect>)
      modifies this`isTyping
      ensures isTyping == TypingNext(old(isTyping), Pause)
      ensures out == TypingFrames(socketOpen, selectedUser, currentUser, TypingSignals(old(isTyping), Pause))
    {
      out := StopTyping(Pause);
    }

    /** The 'blur' listener. */
    method OnBlur() returns (out: seq<Effect>)
      modifies this`isTyping
      ensures isTyping == TypingNext(old(isTyping), Blur)
      ensures out == TypingFrames(socketOpen, selectedUser, currentUser, TypingSignals(old(isTyping), Blur))
    {
      out := StopTyping(Blur);
    }

    /** `sendMessage` up to its `fetch('/logged')`: typing stops, then the liveness check goes out. */
    method OnSendPressed() returns (out: seq<Effect>)
      modifies this`isTyping
      ensures isTyping == TypingNext(old(isTyping), SendPressed)
      ensures out == TypingFrames(socketOpen, selectedUser, currentUser, TypingSignals(old(isTyping), SendPressed))
                     + [CheckLogged]
    {
      out := StopTyping(SendPressed);
      out := out + [CheckLogged];
    }

    /**
     * The continuation of `sendMessage` once `/logged` answered (`ok`) or failed, at time `now`.
     * On failure the user is shown as logged out and the chat window is hidden; nothing is sent.
     * On success the trimmed box content, if any, goes out to a truthy `selectedUser` and is
     * appended to that peer's cache.
     */
    method OnLoggedReply(ok: bool, now: int) returns (out: seq<Effect>)
      modifies this`loggedIn, this`chatWindowHidden, this`chatCache, this`inputValue
      ensures !ok ==> !loggedIn && chatWindowHidden && out == []
                      && chatCache == old(chatCache) && inputValue == old(inputValue)
      ensures ok ==> loggedIn == old(loggedIn) && chatWindowHidden == old(chatWindowHidden)
      ensures ok && (Trim(old(inputValue)) == "" || !Truthy(selectedUser)) ==>
                out == [] && chatCache == old(chatCache) && inputValue == old(inputValue)
      ensures ok && Trim(old(inputValue)) != "" && Truthy(selectedUser) ==>
                var m := Message(currentUser, selectedUser.value, Trim(old(inputValue)), now);
                && out == [Send(Chat(m))]
                && chatCache == old(chatCache)[selectedUser.value := old(Cached(selectedUser.value)) + [m]]
                && inputValue == ""
      ensures out != [] ==> ok
    {
      out := [];
      if !ok {
        loggedIn := false;
        chatWindowHidden := true;
        return;
      }
      var content := Trim(inputValue);
      if content == "" || !Truthy(selectedUser) {
        return;
      }
      var m := Message(currentUser, selectedUser.value, content, now);
      out := [Send(Chat(m))];
      chatCache := chatCache[selectedUser.value := Cached(selectedUser.value) + [m]];
      inputValue := "";
    }

    /** The close-chat button: typing stops (reported to the peer still selected), the window
        hides and no user is selected. */
    method OnCloseChat() returns (out: seq<Effect>)
      modifies this`isTyping, this`chatWindowHidden, this`selectedUser
      ensures isTyping == TypingNext(old(isTyping), Close)
      ensures out == TypingFrames(socketOpen, old(selectedUser), currentUser, TypingSignals(old(isTyping), Close))
      ensures chatWindowHidden && selectedUser == None
    {
      out := StopTyping(Close);
      chatWindowHidden := true;
      selectedUser := None;
    }

    /**
     * The part of a click on `username` in the roster that precedes the history lookup. Typing
     * stops (reported to the previous peer), the pagination flags reset, a fresh throttled
     * scroll listener replaces the old one, the chat opens with `username`, its badges go, and
     * an unread reset (`notification(currentUser, username, 0)`) is posted.
     */
    method SwitchTo(username: string) returns (out: seq<Effect>)
      modifies this`isTyping, this`chatPage, this`noMoreMessages, this`scrollHandler, this`selectedUser
      modifies this`chatWindowHidden, this`typingIndicator, this`badges, this`typingBadges
      ensures Valid()
      ensures isTyping == TypingNext(old(isTyping), Switch)
      ensures chatPage == 0 && !noMoreMessages
      ensures fresh(scrollHandler) && scrollHandler.lastTime == 0
      ensures selectedUser == Some(username) && !chatWindowHidden && !typingIndicator
      ensures badges == old(badges) - {username} && typingBadges == old(typingBadges) - {username}
      ensures out == TypingFrames(socketOpen, old(selectedUser), currentUser, TypingSignals(old(isTyping), Switch))
                     + [Notify(NotifData(currentUser, username, Some(0)))]
    {
      out := StopTyping(Switch);
      ShowChat(username);
      out := out + [Notify(NotifData(currentUser, username, Some(0)))];
    }

    /** The state half of `SwitchTo`, after typing has stopped. */
    method ShowChat(username: string)
      modifies this`chatPage, this`noMoreMessages, this`scrollHandler, this`selectedUser
      modifies this`chatWindowHidden, this`typingIndicator, this`badges, this`typingBadges
      ensures Valid()
      ensures chatPage == 0 && !noMoreMessages
      ensures fresh(scrollHandler) && scrollHandler.lastTime == 0
      ensures selectedUser == Some(username) && !chatWindowHidden && !typingIndicator
      ensures badges == old(badges) - {username} && typingBadges == old(typingBadges) - {username}
    {
      chatPage := 0;
      noMoreMessages := false;
      scrollHandler := new Throttle(ScrollWait);
      selectedUser := Some(username);
      chatWindowHidden := false;
      typingIndicator := false;
      badges := badges - {username};
      typingBadges := typingBadges - {username};
    }

    /**
     * A click on `username` in the roster: `SwitchTo`, then a cached conversation (even an
     * empty one) is rendered as a sorted copy and the cache is left alone; otherwise the first
     * page is requested at offset 0, to be handled by `OnHistory`. `rendered` is what is drawn
     * right away.
     */
    method OpenChat(username: string) returns (out: seq<Effect>, rendered: seq<Message>)
      modifies this`isTyping, this`chatPage, this`noMoreMessages, this`scrollHandler, this`selectedUser
      modifies this`chatWindowHidden, this`typingIndicator, this`badges, this`typingBadges
      ensures Valid()
      ensures isTyping == TypingNext(old(isTyping), Switch)
      ensures chatPage == 0 && !noMoreMessages
      ensures fresh(scrollHandler) && scrollHandler.lastTime == 0
      ensures selectedUser == Some(username) && !chatWindowHidden && !typingIndicator
      ensures badges == old(badges) - {username} && typingBadges == old(typingBadges) - {username}
      ensures var reset := TypingFrames(socketOpen, old(selectedUser), currentUser, TypingSignals(old(isTyping), Switch))
                           + [Notify(NotifData(currentUser, username, Some(0)))];
              if username in chatCache then
                out == reset && rendered == SortByTime(chatCache[username])
              else
                out == reset + [FetchPage(currentUser, Some(username), 0)] && rendered == []
    {
      out := SwitchTo(username);
      if username in chatCache {
        rendered := SortByTime(chatCache[username]);
      } else {
        rendered := [];
        out := out + [FetchPage(currentUser, Some(username), 0)];
      }
    }

    /**
     * The first-page response of `OpenChat`. The sorted page is stored under the user selected
     * when the response arrives, which need not be the one it was requested for; with no user
     * selected it goes under the key `null`, which nothing renders; the model does not keep that
     * entry, so the cache is as before.
     */
    method OnHistory(result: Result<seq<Message>, string>) returns (rendered: seq<Message>)
      modifies this`chatCache
      ensures result.Success? && selectedUser.Some? ==>
                chatCache == old(chatCache)[selectedUser.value := SortByTime(result.value)]
                && rendered == SortByTime(result.value)
      ensures result.Failure? || selectedUser.None? ==> chatCache == old(chatCache)
      ensures result.Failure? ==> rendered == []
      ensures result.Success? ==> Ascending(rendered) && multiset(rendered) == multiset(result.value)
    {
      rendered := [];
      if result.Success? {
        rendered := SortByTime(result.value);
        if selectedUser.Some? {
          chatCache := chatCache[selectedUser.value := rendered];
        }
      }
    }

    /**
     * A 'scroll' event on `#chatMessages` at time `now`, through the throttled listener. When the
     * throttle lets it through and the view is near the top with no fetch in flight and history
     * left, `isFetching` is set, `chatPage` advances and `loadMessagesPage` requests the page at
     * the current offset for the selected user.
     */
    method OnScroll(now: int, scrollTop: int) returns (out: seq<Effect>)
      requires Valid()
      modifies this`isFetching, this`chatPage, scrollHandler
      ensures Valid()
      ensures scrollHandler == null ==> out == [] && isFetching == old(isFetching) && chatPage == old(chatPage)
      ensures scrollHandler != null ==>
                var ran := now - old(scrollHandler.lastTime) >= ScrollWait;
                var go := ran && scrollTop <= NearTop && !old(isFetching) && !noMoreMessages;
                && scrollHandler.lastTime == (if ran then now else old(scrollHandler.lastTime))
                && isFetching == (old(isFetching) || go)
                && chatPage == old(chatPage) + (if go then 1 else 0)
                && out == (if go then [FetchPage(currentUser, selectedUser, displayedMessagesCount)] else [])
      ensures out != [] ==> scrollTop <= NearTop && !old(isFetching) && !noMoreMessages && isFetching
    {
      out := [];
      if scrollHandler != null {
        var ran := scrollHandler.Call(now);
        if ran {
          var isNearTop := scrollTop <= NearTop;
          var isAtTop := scrollTop == 0;
          if (isNearTop || isAtTop) && !isFetching && !noMoreMessages {
            isFetching := true;
            chatPage := chatPage + 1;
            out := [FetchPage(currentUser, selectedUser, displayedMessagesCount)];
          }
        }
      }
    }

    /**
     * The response to the page request made for `peer` (the `to` argument of that
     * `loadMessagesPage` call). An empty page marks the history exhausted and clears
     * `isFetching`; a non-empty one, sorted, goes in front of that peer's cache and advances the
     * offset by its length; a failed fetch changes nothing. The loader timer is armed on
     * every path (the `finally` block).
     */
    method OnPageLoaded(peer: Option<string>, result: Result<seq<Message>, string>) returns (out: seq<Effect>)
      modifies this`noMoreMessages, this`isFetching, this`displayedMessagesCount, this`chatCache
      ensures out == [StartTimer(LoaderHide)]
      ensures result.Failure? ==>
                && chatCache == old(chatCache) && noMoreMessages == old(noMoreMessages)
                && isFetching == old(isFetching) && displayedMessagesCount == old(displayedMessagesCount)
      ensures result.Success? && result.value == [] ==>
                && noMoreMessages && !isFetching
                && chatCache == old(chatCache) && displayedMessagesCount == old(displayedMessagesCount)
      ensures result.Success? && result.value != [] ==>
                && noMoreMessages == old(noMoreMessages) && isFetching == old(isFetching)
                && displayedMessagesCount == old(displayedMessagesCount) + |result.value|
                && chatCache == (if peer.Some?
                                 then old(chatCache)[peer.value := MergedPage(result.value) + old(Cached(peer.value))]
                                 else old(chatCache))
    {
      out := [StartTimer(LoaderHide)];
      if result.Failure? {
        return;
      }
      var messages := result.value;
      if |messages| == 0 {
        noMoreMessages := true;
        isFetching := false;
        return;
      }
      displayedMessagesCount := displayedMessagesCount + |messages|;
      if peer.Some? {
        var cached := Cached(peer.value);
        chatCache := chatCache[peer.value := MergedPage(messages) + cached];
      }
    }

    /** The loader timer fires: `isFetching` clears and, if history is left and the view is still
        near the top, the re-check timer is armed. */
    method OnLoaderHidden(scrollTop: int) returns (out: seq<Effect>)
      modifies this`isFetching
      ensures !isFetching
      ensures out == (if !noMoreMessages && scrollTop <= NearTop then [StartTimer(ScrollRetry)] else [])
    {
      isFetching := false;
      out := [];
      if !noMoreMessages && scrollTop <= NearTop {
        out := [StartTimer(ScrollRetry)];
      }
    }

    /** The re-check timer fires at `now`: if the view is still near the top, nothing is in flight
        and history is left, a 'scroll' event is dispatched to the current listener. */
    method OnScrollRetry(now: int, scrollTop: int) returns (out: seq<Effect>)
      requires Valid()
      modifies this`isFetching, this`chatPage, scrollHandler
      ensures Valid()
      ensures !(scrollTop <= NearTop && !old(isFetching) && !noMoreMessages) ==>
                out == [] && isFetching == old(isFetching) && chatPage == old(chatPage)
                && (scrollHandler != null ==> scrollHandler.lastTime == old(scrollHandler.lastTime))
      ensures scrollTop <= NearTop && !old(isFetching) && !noMoreMessages && scrollHandler != null ==>
                var ran := now - old(scrollHandler.lastTime) >= ScrollWait;
                && scrollHandler.lastTime == (if ran then now else old(scrollHandler.lastTime))
                && isFetching == ran && chatPage == old(chatPage) + (if ran then 1 else 0)
                && out == (if ran then [FetchPage(currentUser, selectedUser, displayedMessagesCount)] else [])
      ensures scrollHandler == null ==> out == [] && isFetching == old(isFetching) && chatPage == old(chatPage)
    {
      out := [];
      if scrollTop <= NearTop && !isFetching && !noMoreMessages {
        out := OnScroll(now, scrollTop);
      }
    }

    /** `setUserList(users)`: the roster is rebuilt without the current user, every badge goes,
        and one count-less notification request per listed user is posted. */
    method SetUserList(users: seq<string>) returns (out: seq<Effect>)
      modifies this`roster, this`badges, this`typingBadges
      ensures roster == Listed(users, currentUser)
      ensures badges == map[] && typingBadges == {}
      ensures out == RosterNotifications(currentUser, roster)
    {
      roster := [];
      badges := map[];
      typingBadges := {};
      out := [];
      var i := 0;
      while i < |users|
        invariant 0 <= i <= |users|
        invariant roster == Listed(users[..i], currentUser)
        invariant out == RosterNotifications(currentUser, roster)
        invariant badges == map[] && typingBadges == {}
      {
        assert users[..i + 1][..i] == users[..i];
        if users[i] != currentUser {
          roster := roster + [users[i]];
          out := out + [Notify(NotifData(currentUser, users[i], None))];
        }
        i := i + 1;
      }
      assert users[..|users|] == users;
    }

    /**
     * The socket's 'message' listener. A `user_list` frame rebuilds the roster. A `typing` frame
     * shows or hides the indicator in the open chat when it comes from the selected user, and
     * the sender's roster badge otherwise. Any other frame is a chat message: its typing marks
     * go; if it is from or to the selected user it is appended to the tail of its conversation's
     * cache; else, if it is addressed to the current user, one unread increment is posted.
     */
    method OnFrame(f: Frame) returns (out: seq<Effect>)
      modifies this`roster, this`badges, this`typingBadges, this`typingIndicator, this`newMessages, this`chatCache
      ensures f.UserList? ==>
                && roster == Listed(f.users, currentUser) && badges == map[] && typingBadges == {}
                && out == RosterNotifications(currentUser, roster)
                && typingIndicator == old(typingIndicator) && newMessages == old(newMessages)
                && chatCache == old(chatCache)
      ensures f.Typing? ==>
                && roster == old(roster) && badges == old(badges) && out == []
                && newMessages == old(newMessages) && chatCache == old(chatCache)
                && (if selectedUser == Some(f.from)
                    then typingIndicator == f.isTyping && typingBadges == old(typingBadges)
                    else typingIndicator == old(typingIndicator)
                         && typingBadges == ShowTypingBadge(old(typingBadges), f.from, f.isTyping, roster))
      ensures f.Chat? ==>
                var m := f.msg;
                var key := ChatKey(m, currentUser);
                && roster == old(roster) && badges == old(badges)
                && newMessages == old(newMessages) + 1
                && typingIndicator == (if selectedUser == Some(m.from) then false else old(typingIndicator))
                && typingBadges == ShowTypingBadge(old(typingBadges), m.from, false, roster)
                && (if selectedUser == Some(m.from) || selectedUser == Some(m.to)
                    then chatCache == old(chatCache)[key := old(Cached(key)) + [m]] && out == []
                    else chatCache == old(chatCache)
                         && out == (if m.to == currentUser then [Notify(NotifData(m.to, m.from, Some(1)))] else []))
    {
      out := [];
      match f
      case UserList(users) =>
        out := SetUserList(users);
      case Typing(from, _, show) =>
        if selectedUser == Some(from) {
          typingIndicator := show;
        } else {
          typingBadges := ShowTypingBadge(typingBadges, from, show, roster);
        }
      case Chat(m) =>
        if selectedUser == Some(m.from) {
          typingIndicator := false;
        }
        typingBadges := ShowTypingBadge(typingBadges, m.from, false, roster);
        newMessages := newMessages + 1;
        if selectedUser == Some(m.from) || selectedUser == Some(m.to) {
          var key := ChatKey(m, currentUser);
          chatCache := chatCache[key := Cached(key) + [m]];
        } else if m.to == currentUser {
          out := [Notify(NotifData(m.to, m.from, Some(1)))];
        }
    }

    /**
     * `updateNotificationBadge(data)` for the reply to a notification request (None when the
     * request failed). A count of 0 leaves every badge as it is; otherwise the badge of the
     * listed sender shows the server's count.
     */
    method OnNotificationReply(reply: Option<NotifReply>)
      modifies this`badges
      ensures reply.None? || reply.value.unread == Some(0) ==> badges == old(badges)
      ensures reply.Some? && reply.value.unread != Some(0) ==>
                badges == if reply.value.sender in roster
                          then old(badges)[reply.value.sender := reply.value.unread]
                          else old(badges)
    {
      if reply.None? || reply.value.unread == Some(0) {
        return;
      }
      var data := reply.value;
      var i := 0;
      while i < |roster|
        invariant 0 <= i <= |roster|
        invariant badges == if data.sender in roster[..i] then old(badges)[data.sender := data.unread] else old(badges)
      {
        assert roster[..i + 1] == roster[..i] + [roster[i]];
        if roster[i] == data.sender {
          badges := badges[data.sender := data.unread];
        }
        i := i + 1;
      }
      assert roster[..|roster|] == roster;
    }

    /**
     * The scroll listener as static/chat.js has it: `loadMessagesPage` starts by reading
     * `displayedMessagesCount`, which nothing declares, so it throws a ReferenceError before its
     * `try`: no request is made, no `finally` runs, and `isFetching` stays set.
     */
    method OnScrollAsWritten(now: int, scrollTop: int) returns (out: seq<Effect>)
      requires Valid()
      modifies this`isFetching, this`chatPage, scrollHandler
      ensures Valid()
      ensures out == []
      ensures scrollHandler != null ==>
                var ran := now - old(scrollHandler.lastTime) >= ScrollWait;
                var go := ran && scrollTop <= NearTop && !old(isFetching) && !noMoreMessages;
                && scrollHandler.lastTime == (if ran then now else old(scrollHandler.lastTime))
                && isFetching == (old(isFetching) || go)
                && chatPage == old(chatPage) + (if go then 1 else 0)
      ensures scrollHandler == null ==> isFetching == old(isFetching) && chatPage == old(chatPage)
    {
      out := [];
      if scrollHandler != null {
        var ran := scrollHandler.Call(now);
        if ran && scrollTop <= NearTop && !isFetching && !noMoreMessages {
          isFetching := true;
          chatPage := chatPage + 1;
        }
      }
    }
  }

  /**
   * A client that has just started opens its first chat, with `peer`: nothing is cached, so
   * besides the unread reset it requests the first page, and the pagination state is fresh.
   */
  method FirstChat(me: string, peer: string) returns (st: ChatState, onOpen: seq<Effect>)
    ensures fresh(st) && fresh(st.scrollHandler) && st.Valid()
    ensures st.currentUser == me && st.selectedUser == Some(peer) && st.chatCache == map[]
    ensures st.scrollHandler != null && st.scrollHandler.lastTime == 0
    ensures !st.isTyping && !st.isFetching && !st.noMoreMessages && st.displayedMessagesCount == 0
    ensures onOpen == [Notify(NotifData(me, peer, Some(0))), FetchPage(me, Some(peer), 0)]
  {
    st := new ChatState(me);
    var shown;
    onOpen, shown := st.OpenChat(peer);
  }

  /**
   * As written, the first scroll to the top after opening a chat marks a fetch in flight and
   * requests nothing, and every later scroll is refused because that fetch never ends.
   */
  method PaginationStuckAsWritten() returns (first: seq<Effect>, later: seq<Effect>, fetching: bool)
    ensures first == [] && later == [] && fetching
  {
    var st, onOpen := FirstChat("alice", "bob");
    first := st.OnScrollAsWritten(1000, 0);
    later := st.OnScrollAsWritten(5000, 0);
    fetching := st.isFetching;
  }

  /** With the counter declared, the same scroll requests the next page. */
  method PaginationProceeds() returns (first: seq<Effect>, fetching: bool)
    ensures first == [FetchPage("alice", Some("bob"), 0)] && fetching
  {
    var st, onOpen := FirstChat("alice", "bob");
    first := st.OnScroll(1000, 0);
    fetching := st.isFetching;
  }

  /**
   * The offset counter is neither reset nor advanced by the first-page load of `OpenChat`, so
   * the first older page asked for after it starts again at offset 0: the page already shown.
   */
  method FirstOlderPageRepeatsOffsetZero() returns (onOpen: seq<Effect>, older: seq<Effect>)
    ensures onOpen != [] && onOpen[|onOpen| - 1] == FetchPage("alice", Some("bob"), 0)
    ensures older == [FetchPage("alice", Some("bob"), 0)]
  {
    var st;
    st, onOpen := FirstChat("alice", "bob");
    var shown := st.OnHistory(Success([Message("bob", "alice", "hi", 1)]));
    older := st.OnScroll(1000, 0);
  }

  /**
   * A history response that arrives after the user has switched to another chat is stored
   * under the chat now selected.
   */
  method StaleHistoryLandsOnNewPeer() returns (cached: seq<Message>)
    ensures cached == [Message("bob", "alice", "hi", 1)]
  {
    var st, out := FirstChat("alice", "bob");
    var shown;
    out, shown := st.OpenChat("carol");
    var m := Message("bob", "alice", "hi", 1);
    shown := st.OnHistory(Success([m]));
    assert SortByTime([m]) == [m];
    cached := st.Cached("carol");
  }

  /** With the server's `[]` for no rows, scrolling past the oldest message marks the history
      exhausted and ends the fetch. */
  method ExhaustedHistoryEndsPaging(history: seq<Message>, k: int) returns (exhausted: bool, fetching: bool)
    requires k >= |Conversation(history, "alice", "bob")|
    ensures exhausted && !fetching
  {
    var st := new ChatState("alice");
    PageEmptyPastEnd(history, "alice", "bob", k);
    var out := st.OnPageLoaded(Some("bob"), DecodePage(EncodePage(Page(history, "alice", "bob", k))));
    exhausted, fetching := st.noMoreMessages, st.isFetching;
  }

  /** With the server's `null` for no rows, the same response leaves the history looking
      unexhausted, so every later scroll to the top asks again. */
  method ExhaustedHistoryKeepsPagingAsWritten(history: seq<Message>, k: int) returns (exhausted: bool)
    requires k >= |Conversation(history, "alice", "bob")|
    ensures !exhausted
  {
    var st := new ChatState("alice");
    ExhaustedPageIsErrorAsWritten(history, "alice", "bob", k);
    var out := st.OnPageLoaded(Some("bob"), DecodePage(EncodePageAsWritten(Page(history, "alice", "bob", k))));
    exhausted := st.noMoreMessages;
  }

  /**
   * With the server's `null` for no rows, the first-page load of an empty conversation fails in
   * `messages.sort`, so nothing is cached and opening the same chat again requests the first
   * page again.
   */
  method EmptyChatRefetchedAsWritten(history: seq<Message>) returns (cached: bool, reopen: seq<Effect>)
    requires Conversation(history, "alice", "bob") == []
    ensures !cached
    ensures reopen == [Notify(NotifData("alice", "bob", Some(0))), FetchPage("alice", Some("bob"), 0)]
  {
    var st, onOpen := FirstChat("alice", "bob");
    ExhaustedPageIsErrorAsWritten(history, "alice", "bob", 0);
    var shown := st.OnHistory(DecodePage(EncodePageAsWritten(Page(history, "alice", "bob", 0))));
    cached := "bob" in st.chatCache;
    reopen, shown := st.OpenChat("bob");
  }

  /** With `[]` for no rows, the empty conversation is cached on the first open, and opening it
      again requests nothing. */
  method EmptyChatCachedOnce(history: seq<Message>) returns (cached: bool, reopen: seq<Effect>)
    requires Conversation(history, "alice", "bob") == []
    ensures cached
    ensures reopen == [Notify(NotifData("alice", "bob", Some(0)))]
  {
    var st, onOpen := FirstChat("alice", "bob");
    PageRoundTrip(history, "alice", "bob", 0);
    var shown := st.OnHistory(DecodePage(EncodePage(Page(history, "alice", "bob", 0))));
    cached := "bob" in st.chatCache;
    reopen, shown := st.OpenChat("bob");
  }
}
