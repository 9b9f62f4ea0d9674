/**
 * The websocket side of the Go server (backend/Server.go, backend/handlers.go): the registry of
 * open sessions per user, the `user_list` broadcast, the fan-out of one received message, and
 * the `GET /messages` handler. A websocket write is a `Delivery`; the session store, the
 * upgrade, the UUID generator, the clock and the database are parameters.
 */
module Backend {
  import opened Wrappers
  import opened Messages
  import opened Text
  import opened Pages

  /** One websocket session of a logged-in user. */
  datatype Client = Client(id: string, username: string)

  /** One `WriteJSON` to a session. */
  datatype Delivery = Delivery(to: Client, frame: Frame)

  /** The sessions of `u`, or none (`S.clients[u]` on a missing key is a nil slice). */
  function SessionsOf(m: map<string, seq<Client>>, u: string): seq<Client> {
    if u in m then m[u] else []
  }

  /** The registry keeps no empty session list, and files every session under its own user. */
  ghost predicate WellFormed(m: map<string, seq<Client>>) {
    forall u :: u in m ==> m[u] != [] && forall c :: c in m[u] ==> c.username == u
  }

  /** How often the registry lists `c`: it can only be filed under its own user. */
  ghost function Listings(m: map<string, seq<Client>>, c: Client): nat {
    multiset(SessionsOf(m, c.username))[c]
  }

  /** The names of a `user_list` frame: `lastsender`, when not empty, first, then every user with
      a session other than `lastsender`, once each, in no fixed order (Go map iteration). */
  ghost predicate UserListFor(m: map<string, seq<Client>>, lastsender: string, users: seq<string>) {
    && (lastsender != "" ==> users != [] && users[0] == lastsender)
    && (forall u :: u in users <==> (u == lastsender && lastsender != "") || (u in m && u != lastsender))
    && Distinct(users)
  }

  predicate Distinct(s: seq<string>) {
    forall i, j :: 0 <= i < j < |s| ==> s[i] != s[j]
  }

  lemma DistinctSnoc(s: seq<string>, x: string)
    requires Distinct(s) && x !in s
    ensures Distinct(s + [x])
  {
    forall i, j | 0 <= i < j < |s| + 1 ensures (s + [x])[i] != (s + [x])[j] {
      if j == |s| {
        assert s[i] in s;
      }
    }
  }

  function Recipients(out: seq<Delivery>): (r: seq<Client>)
    ensures |r| == |out|
    ensures forall i :: 0 <= i < |out| ==> r[i] == out[i].to
  {
    if out == [] then [] else Recipients(out[..|out| - 1]) + [out[|out| - 1].to]
  }

  /** Every write of `out` carries `f`. */
  predicate AllFrames(out: seq<Delivery>, f: Frame) {
    forall i :: 0 <= i < |out| ==> out[i].frame == f
  }

  lemma AllFramesAppend(a: seq<Delivery>, b: seq<Delivery>, f: Frame)
    requires AllFrames(a, f) && AllFrames(b, f)
    ensures AllFrames(a + b, f)
  {
  }

  /** `out` writes the frame `UserList(users)` to every open session, once per listing, and to
      nothing else. */
  ghost predicate SentToAll(m: map<string, seq<Client>>, users: seq<string>, out: seq<Delivery>) {
    && (forall c :: multiset(Recipients(out))[c] == Listings(m, c))
    && AllFrames(out, UserList(users))
  }

  /** The sessions of `cs` other than the one with `id`, in order. */
  function Others(cs: seq<Client>, id: string): (r: seq<Client>)
    ensures forall c :: c in r <==> c in cs && c.id != id
  {
    if cs == [] then []
    else
      var last := cs[|cs| - 1];
      assert forall c :: c in cs <==> c in cs[..|cs| - 1] || c == last by {
        assert cs == cs[..|cs| - 1] + [last];
      }
      Others(cs[..|cs| - 1], id) + (if last.id != id then [last] else [])
  }

  /** The filter keeps order: the sessions kept from `a + b` are those kept from `a`, then those
      kept from `b`. */
  lemma {:induction false} OthersAppend(a: seq<Client>, b: seq<Client>, id: string)
    ensures Others(a + b, id) == Others(a, id) + Others(b, id)
    decreases |b|
  {
    if b == [] {
      assert a + b == a;
    } else {
      var front := b[..|b| - 1];
      assert (a + b)[..|a + b| - 1] == a + front;
      assert (a + b)[|a + b| - 1] == b[|b| - 1];
      OthersAppend(a, front, id);
    }
  }

  /** A single session is kept exactly when its id differs. */
  lemma OthersSingle(c: Client, id: string)
    ensures Others([c], id) == if c.id != id then [c] else []
  {
    assert [c][..0] == [];
  }

  /** A chat frame written to each of `cs`, in order. */
  function Relay(cs: seq<Client>, msg: Message): (out: seq<Delivery>)
    ensures |out| == |cs|
    ensures forall i :: 0 <= i < |cs| ==> out[i] == Delivery(cs[i], Chat(msg))
  {
    if cs == [] then [] else Relay(cs[..|cs| - 1], msg) + [Delivery(cs[|cs| - 1], Chat(msg))]
  }

  /** The chat frames among `out`, in order. */
  function ChatPart(out: seq<Delivery>): (r: seq<Delivery>)
    ensures |r| <= |out|
  {
    if out == [] then []
    else
      var last := out[|out| - 1];
      ChatPart(out[..|out| - 1]) + (if last.frame.Chat? then [last] else [])
  }

  /** A run of user-list writes holds no chat frame. */
  lemma {:induction false} ChatPartNone(out: seq<Delivery>)
    requires forall k :: 0 <= k < |out| ==> out[k].frame.UserList?
    ensures ChatPart(out) == []
  {
    if out != [] {
      ChatPartNone(out[..|out| - 1]);
    }
  }

  lemma {:induction false} ChatPartAppend(a: seq<Delivery>, b: seq<Delivery>)
    ensures ChatPart(a + b) == ChatPart(a) + ChatPart(b)
    decreases |b|
  {
    if b == [] {
      assert a + b == a;
    } else {
      assert (a + b)[..|a + b| - 1] == a + b[..|b| - 1];
      assert (a + b)[|a + b| - 1] == b[|b| - 1];
      ChatPartAppend(a, b[..|b| - 1]);
    }
  }

  /** Relaying writes only chat frames. */
  lemma {:induction false} ChatPartRelay(cs: seq<Client>, msg: Message)
    ensures ChatPart(Relay(cs, msg)) == Relay(cs, msg)
  {
    if cs != [] {
      var out := Relay(cs, msg);
      ChatPartRelay(cs[..|cs| - 1], msg);
      assert out[..|out| - 1] == Relay(cs[..|cs| - 1], msg);
    }
  }

  /** The position of the first session with `id`, or `|s|` when there is none. */
  function IndexOf(s: seq<Client>, id: string): (i: nat)
    ensures i <= |s|
    ensures i < |s| ==> s[i].id == id
    ensures forall j :: 0 <= j < i ==> s[j].id != id
  {
    if s == [] then 0 else if s[0].id == id then 0 else 1 + IndexOf(s[1..], id)
  }

  /** `append(sessions[:i], sessions[i+1:]...)` at the first session with `id`; nothing when
      there is none. */
  function RemoveFirst(s: seq<Client>, id: string): (r: seq<Client>)
    ensures IndexOf(s, id) == |s| ==> r == s
    ensures IndexOf(s, id) < |s| ==> |r| == |s| - 1 && multiset(r) + multiset{s[IndexOf(s, id)]} == multiset(s)
    ensures IndexOf(s, id) < |s| ==>
              r[..IndexOf(s, id)] == s[..IndexOf(s, id)] && r[IndexOf(s, id)..] == s[IndexOf(s, id) + 1..]
    ensures forall c :: c in r ==> c in s
  {
    var i := IndexOf(s, id);
    if i == |s| then s
    else
      assert s == s[..i] + [s[i]] + s[i + 1..];
      s[..i] + s[i + 1..]
  }

  /** The registry after `client`'s session closes: its first listing goes, and a user left with
      no session goes too. Every other user keeps exactly the sessions they had. */
  function RemoveSession(m: map<string, seq<Client>>, client: Client): (r: map<string, seq<Client>>)
    ensures forall u :: u != client.username ==> (u in r <==> u in m) && (u in r ==> r[u] == m[u])
    ensures client.username in r <==> client.username in m && RemoveFirst(m[client.username], client.id) != []
    ensures client.username in r ==> r[client.username] == RemoveFirst(m[client.username], client.id)
  {
    var u := client.username;
    if u !in m then m
    else
      var rest := RemoveFirst(m[u], client.id);
      if rest == [] then m - {u} else m[u := rest]
  }

  /** The registry after `client` connects: its session goes after the user's other ones. */
  function AddSession(m: map<string, seq<Client>>, client: Client): (r: map<string, seq<Client>>)
    ensures r.Keys == m.Keys + {client.username}
    ensures r[client.username] == SessionsOf(m, client.username) + [client]
    ensures forall u :: u in m && u != client.username ==> r[u] == m[u]
  {
    m[client.username := SessionsOf(m, client.username) + [client]]
  }

  /** Closing a session removes exactly one listing of it from the registry, and keeps the
      registry well formed. */
  lemma RemoveSessionCount(m: map<string, seq<Client>>, client: Client, c: Client)
    requires WellFormed(m)
    ensures WellFormed(RemoveSession(m, client))
    ensures var s := SessionsOf(m, client.username);
            var i := IndexOf(s, client.id);
            Listings(RemoveSession(m, client), c)
              == if i < |s| && c == s[i] then Listings(m, c) - 1 else Listings(m, c)
  {
    RemoveSessionWellFormed(m, client);
    var u, s := client.username, SessionsOf(m, client.username);
    if c.username == u {
      assert SessionsOf(RemoveSession(m, client), u) == RemoveFirst(s, client.id);
      RemoveFirstCount(s, client.id, c);
    } else {
      assert SessionsOf(RemoveSession(m, client), c.username) == SessionsOf(m, c.username);
      var i := IndexOf(s, client.id);
      assert i < |s| ==> s[i] in m[u];
    }
  }

  lemma RemoveSessionWellFormed(m: map<string, seq<Client>>, client: Client)
    requires WellFormed(m)
    ensures WellFormed(RemoveSession(m, client))
  {
  }

  /** Removing the first session with `id` drops one occurrence of that session. */
  lemma RemoveFirstCount(s: seq<Client>, id: string, c: Client)
    ensures var i := IndexOf(s, id);
            multiset(RemoveFirst(s, id))[c] == if i < |s| && c == s[i] then multiset(s)[c] - 1 else multiset(s)[c]
  {
  }

  /** A session that connects and then disconnects leaves the registry as it found it, when its
      id is new. */
  lemma ConnectThenDisconnect(m: map<string, seq<Client>>, client: Client)
    requires client.username in m ==> m[client.username] != []
    requires forall c :: c in SessionsOf(m, client.username) ==> c.id != client.id
    ensures RemoveSession(AddSession(m, client), client) == m
  {
    var u := client.username;
    RemoveAppended(SessionsOf(m, u), client);
    if u in m {
      RestoreSessions(m, client);
    } else {
      RestoreUser(m, client);
    }
  }

  lemma RestoreSessions(m: map<string, seq<Client>>, client: Client)
    requires client.username in m && m[client.username] != []
    requires RemoveFirst(m[client.username] + [client], client.id) == m[client.username]
    ensures RemoveSession(AddSession(m, client), client) == m
  {
    var u := client.username;
    assert AddSession(m, client)[u := m[u]] == m;
  }

  lemma RestoreUser(m: map<string, seq<Client>>, client: Client)
    requires client.username !in m
    requires RemoveFirst([client], client.id) == []
    ensures RemoveSession(AddSession(m, client), client) == m
  {
    assert AddSession(m, client) - {client.username} == m;
  }

  /** Removing a session appended after sessions with other ids gives back the sessions before it. */
  lemma RemoveAppended(s: seq<Client>, client: Client)
    requires forall c :: c in s ==> c.id != client.id
    ensures RemoveFirst(s + [client], client.id) == s
  {
    var t := s + [client];
    var i := IndexOf(t, client.id);
    assert t[|s|] == client;
    assert i == |s|;
    assert t[..i] == s && t[i + 1..] == [];
  }

  /** What `receiveMessages` decodes from an incoming frame with `ReadJSON` into a `Message`:
      fields it does not know (`type`, `isTyping`, `users`) are dropped, missing ones are empty. */
  function Incoming(f: Frame): (m: Message)
    ensures f.Chat? ==> m == f.msg
    ensures f.Typing? ==> m.from == f.from && m.to == f.to && m.content == ""
    ensures f.UserList? ==> m.to == "" && m.content == ""
  {
    match f
    case Chat(msg) => msg
    case Typing(from, to, _) => Message(from, to, "", 0)
    case UserList(_) => Message("", "", "", 0)
  }

  /** The message as relayed: the sender is the session's user and the time is the server's. */
  function Received(client: Client, f: Frame, now: int): (m: Message)
    ensures m.from == client.username && m.timestamp == now
    ensures m.to == Incoming(f).to && m.content == Incoming(f).content
  {
    Incoming(f).(from := client.username, timestamp := now)
  }

  /** The row `INSERT INTO messages` stores for a relayed message: its content HTML-escaped. */
  function Row(m: Message): (r: Message)
    ensures r.from == m.from && r.to == m.to && r.timestamp == m.timestamp
    ensures forall i :: 0 <= i < |r.content| ==> !IsMarkup(r.content[i])
  {
    m.(content := HtmlEscape(m.content))
  }

  /** The live copy and the stored copy of a message agree once the stored one is unescaped. */
  lemma RowUnescapes(m: Message)
    ensures Row(m).(content := HtmlUnescape(Row(m).content)) == m
  {
    HtmlEscapeRoundTrip(m.content);
  }

  /** A typing frame from a client is stored and relayed as an empty chat message. */
  lemma TypingRelayedAsChat(client: Client, from: string, to: string, isTyping: bool, now: int)
    ensures Received(client, Typing(from, to, isTyping), now) == Message(client.username, to, "", now)
    ensures Row(Received(client, Typing(from, to, isTyping), now)) == Message(client.username, to, "", now)
  {
    assert HtmlEscape("") == "";
  }

  /** The outcome of `HandleWebSocket`. */
  datatype ConnectResult = Unauthorized | UpgradeFailed | Connected(client: Client)

  /** The outcome of `GetMessagesHandler`: a 400, a 500, or a JSON body. */
  datatype Response = BadRequest | DbError | Ok(body: Body)

  class Server {
    /** `clients`: the sessions of each connected user. */
    var clients: map<string, seq<Client>>

    ghost predicate Valid()
      reads this
    {
      WellFormed(clients)
    }

    /** `S.clients = make(map[string][]*Client)` in `Run`. */
    constructor ()
      ensures Valid() && clients == map[]
    {
      clients := map[];
    }

    /**
     * `broadcastUserList(lastsender)`: builds the name list, then writes it to every session of
     * every user. The registry is only read.
     */
    method BroadcastUserList(lastsender: string) returns (users: seq<string>, out: seq<Delivery>)
      requires Valid()
      ensures UserListFor(clients, lastsender, users)
      ensures SentToAll(clients, users, out)
    {
      users := UserNames(lastsender);
      out := SendUserList(users);
    }

    /** The first loop of `broadcastUserList`. */
    method UserNames(lastsender: string) returns (users: seq<string>)
      ensures UserListFor(clients, lastsender, users)
    {
      users := if lastsender != "" then [lastsender] else [];
      var todo := clients.Keys;
      ghost var seen: set<string> := {};
      while todo != {}
        invariant todo <= clients.Keys && seen == clients.Keys - todo
        invariant lastsender != "" ==> users != [] && users[0] == lastsender
        invariant forall v :: v in users <==> (v == lastsender && lastsender != "") || (v in seen && v != lastsender)
        invariant Distinct(users)
        decreases |todo|
      {
        var u :| u in todo;
        if lastsender != u {
          assert u !in users;
          DistinctSnoc(users, u);
          users := users + [u];
        }
        todo := todo - {u};
        seen := seen + {u};
      }
    }

    /** The second loop of `broadcastUserList`: one write of the list per session. */
    method SendUserList(users: seq<string>) returns (out: seq<Delivery>)
      requires Valid()
      ensures SentToAll(clients, users, out)
    {
      out := [];
      var todo := clients.Keys;
      while todo != {}
        invariant todo <= clients.Keys
        invariant forall c :: multiset(Recipients(out))[c] == if c.username in todo then 0 else Listings(clients, c)
        invariant AllFrames(out, UserList(users))
        decreases |todo|
      {
        var u :| u in todo;
        ghost var before := out;
        var part := WriteEach(clients[u], UserList(users));
        out := out + part;
        RecipientsAppend(before, part);
        AllFramesAppend(before, part, UserList(users));
        SendStep(clients, todo, u, Recipients(before), Recipients(out));
        todo := todo - {u};
      }
    }

    /**
     * `HandleWebSocket` for a request whose session cookie names `session` (None when
     * `CheckSession` fails), whose upgrade succeeds when `upgradeOk`, with `id` the new UUID.
     * A new session is appended to its user's list and everyone gets the new user list.
     */
    method Connect(session: Option<string>, upgradeOk: bool, id: string)
      returns (result: ConnectResult, users: seq<string>, out: seq<Delivery>)
      requires Valid()
      modifies this
      ensures Valid()
      ensures session.None? ==> result == Unauthorized && clients == old(clients) && out == []
      ensures session.Some? && !upgradeOk ==> result == UpgradeFailed && clients == old(clients) && out == []
      ensures session.Some? && upgradeOk ==>
                && result == Connected(Client(id, session.value))
                && clients == AddSession(old(clients), Client(id, session.value))
                && UserListFor(clients, "", users) && SentToAll(clients, users, out)
    {
      users, out := [], [];
      if session.None? {
        result := Unauthorized;
        return;
      }
      if !upgradeOk {
        result := UpgradeFailed;
        return;
      }
      var client := Client(id, session.value);
      clients := clients[client.username := SessionsOf(clients, client.username) + [client]];
      result := Connected(client);
      users, out := BroadcastUserList("");
    }

    /**
     * The deferred clean-up of `receiveMessages` once reading from `client` fails: its first
     * listing is removed, the user is dropped when no session is left, and everyone gets the
     * new user list.
     */
    method Disconnect(client: Client) returns (users: seq<string>, out: seq<Delivery>)
      requires Valid()
      modifies this
      ensures Valid()
      ensures clients == RemoveSession(old(clients), client)
      ensures UserListFor(clients, "", users) && SentToAll(clients, users, out)
    {
      if client.username in clients {
        var sessions := clients[client.username];
        var i := FindSession(sessions, client.id);
        if i < |sessions| {
          clients := clients[client.username := sessions[..i] + sessions[i + 1..]];
        }
        if |clients[client.username]| == 0 {
          clients := clients - {client.username};
        }
      }
      users, out := BroadcastUserList("");
    }

    /**
     * One pass of the read loop of `receiveMessages` for the frame `f` read from `client`, at
     * server time `now`, where the insert succeeds when `insertOk`. Returns the stored row and
     * the writes: for each session of the addressee, a user-list broadcast naming the addressee
     * first, then the message; then the message to each other session of the sender.
     */
    method ReceiveMessage(client: Client, f: Frame, now: int, insertOk: bool)
      returns (row: Option<Message>, out: seq<Delivery>, ghost names: seq<seq<string>>, ghost lists: seq<seq<Delivery>>)
      requires Valid()
      ensures !insertOk ==> row == None && out == []
      ensures insertOk ==> row == Some(Row(Received(client, f, now)))
      ensures insertOk ==>
                var msg := Received(client, f, now);
                && Broadcasts(clients, msg.to, names, lists, SessionsOf(clients, msg.to))
                && out == AddresseeWrites(lists, SessionsOf(clients, msg.to), msg)
                          + Relay(Others(SessionsOf(clients, msg.from), client.id), msg)
      ensures insertOk ==>
                var msg := Received(client, f, now);
                ChatPart(out) == Relay(SessionsOf(clients, msg.to), msg)
                                 + Relay(Others(SessionsOf(clients, msg.from), client.id), msg)
      ensures forall i :: 0 <= i < |out| && out[i].frame.UserList? ==>
                var to := Received(client, f, now).to;
                to != "" ==> out[i].frame.users != [] && out[i].frame.users[0] == to
    {
      row, out, names, lists := None, [], [], [];
      var msg := Received(client, f, now);
      if !insertOk {
        return;
      }
      row := Some(Row(msg));
      var toAddressee;
      toAddressee, names, lists := DeliverToAddressee(msg);
      var toSender := EchoToSender(msg, client.id);
      out := toAddressee + toSender;
      ChatPartAppend(toAddressee, toSender);
      ChatPartRelay(Others(SessionsOf(clients, msg.from), client.id), msg);
    }

    /** The first loop of the read loop: each session of the addressee gets a full user-list
        broadcast naming the addressee first, then the message. */
    method DeliverToAddressee(msg: Message)
      returns (out: seq<Delivery>, ghost names: seq<seq<string>>, ghost lists: seq<seq<Delivery>>)
      requires Valid()
      ensures Broadcasts(clients, msg.to, names, lists, SessionsOf(clients, msg.to))
      ensures out == AddresseeWrites(lists, SessionsOf(clients, msg.to), msg)
      ensures ChatPart(out) == Relay(SessionsOf(clients, msg.to), msg)
      ensures forall k :: 0 <= k < |out| && out[k].frame.UserList? ==>
                msg.to != "" ==> out[k].frame.users != [] && out[k].frame.users[0] == msg.to
    {
      out, names, lists := [], [], [];
      if msg.to in clients {
        var recipients := clients[msg.to];
        var i := 0;
        while i < |recipients|
          invariant 0 <= i <= |recipients|
          invariant Broadcasts(clients, msg.to, names, lists, recipients[..i])
          invariant out == AddresseeWrites(lists, recipients[..i], msg)
        {
          var users, list := BroadcastUserList(msg.to);
          AddresseeWritesSnoc(lists, list, recipients, i, msg);
          BroadcastsSnoc(clients, msg.to, names, lists, users, list, recipients, i);
          out := out + list + [Delivery(recipients[i], Chat(msg))];
          names, lists := names + [users], lists + [list];
          i := i + 1;
        }
        assert recipients[..i] == recipients;
      }
      AddresseeChats(clients, msg.to, names, lists, SessionsOf(clients, msg.to), msg);
      AddresseeListsFirst(clients, msg.to, names, lists, SessionsOf(clients, msg.to), msg);
    }

    /** The second loop of the read loop: the message goes to the sender's other sessions. */
    method EchoToSender(msg: Message, id: string) returns (out: seq<Delivery>)
      ensures out == Relay(Others(SessionsOf(clients, msg.from), id), msg)
    {
      out := [];
      if msg.from in clients {
        var senders := clients[msg.from];
        var i := 0;
        while i < |senders|
          invariant 0 <= i <= |senders|
          invariant out == Relay(Others(senders[..i], id), msg)
        {
          OthersSnoc(senders, i, id);
          if senders[i].id != id {
            RelayAppend(Others(senders[..i], id), [senders[i]], msg);
            out := out + [Delivery(senders[i], Chat(msg))];
          }
          i := i + 1;
        }
        assert senders[..i] == senders;
      }
    }

    /**
     * `GetMessagesHandler` for the query parameters `from`, `to` and `offset`, over the
     * `messages` table `history`, where the query succeeds when `queryOk`. Each scanned row is
     * put in front of the rows scanned before it, and the result is encoded as written: with no
     * row the body is `null` (`EncodePage` is the encoding the client needs).
     */
    method GetMessagesHandler(from: string, to: string, offsetParam: string, history: seq<Message>, queryOk: bool)
      returns (resp: Response)
      ensures from == "" || to == "" ==> resp == BadRequest
      ensures from != "" && to != "" && !queryOk ==> resp == DbError
      ensures from != "" && to != "" && queryOk ==>
                resp == Ok(EncodePageAsWritten(Page(history, from, to, Offset(offsetParam))))
    {
      if from == "" || to == "" {
        return BadRequest;
      }
      var offset := Offset(offsetParam);
      if !queryOk {
        return DbError;
      }
      var rows := Window(history, from, to, offset);
      var messages := [];
      var i := 0;
      while i < |rows|
        invariant 0 <= i <= |rows|
        invariant messages == Reverse(rows[..i])
      {
        ReversePrepend(rows, i);
        messages := [rows[i]] + messages;
        i := i + 1;
      }
      assert rows[..i] == rows;
      resp := Ok(EncodePageAsWritten(messages));
    }
  }

  /** The writes of the addressee loop: for each session of `cs`, its user-list broadcast
      `lists[i]`, then the message. */
  function AddresseeWrites(lists: seq<seq<Delivery>>, cs: seq<Client>, msg: Message): seq<Delivery>
    requires |lists| == |cs|
  {
    if cs == [] then []
    else AddresseeWrites(lists[..|cs| - 1], cs[..|cs| - 1], msg) + lists[|cs| - 1] + [Delivery(cs[|cs| - 1], Chat(msg))]
  }

  /** One name list and one broadcast of it per session of `cs`: each a `broadcastUserList(to)`
      of the registry `m`. */
  ghost predicate Broadcasts(m: map<string, seq<Client>>, to: string, names: seq<seq<string>>,
                             lists: seq<seq<Delivery>>, cs: seq<Client>) {
    && |names| == |lists| == |cs|
    && forall j :: 0 <= j < |cs| ==> UserListFor(m, to, names[j]) && SentToAll(m, names[j], lists[j])
  }

  lemma AddresseeWritesSnoc(lists: seq<seq<Delivery>>, list: seq<Delivery>, cs: seq<Client>, i: nat, msg: Message)
    requires |lists| == i < |cs|
    ensures AddresseeWrites(lists + [list], cs[..i + 1], msg)
            == AddresseeWrites(lists, cs[..i], msg) + list + [Delivery(cs[i], Chat(msg))]
  {
    var ls, c := lists + [list], cs[..i + 1];
    assert ls[..i] == lists && c[..i] == cs[..i] && ls[i] == list && c[i] == cs[i];
  }

  lemma BroadcastsSnoc(m: map<string, seq<Client>>, to: string, names: seq<seq<string>>, lists: seq<seq<Delivery>>,
                       users: seq<string>, list: seq<Delivery>, cs: seq<Client>, i: nat)
    requires i < |cs| && Broadcasts(m, to, names, lists, cs[..i])
    requires UserListFor(m, to, users) && SentToAll(m, users, list)
    ensures Broadcasts(m, to, names + [users], lists + [list], cs[..i + 1])
  {
  }

  /** The chat frames of the addressee loop are the message, once to each session in order. */
  lemma {:induction false} AddresseeChats(m: map<string, seq<Client>>, to: string, names: seq<seq<string>>,
                                          lists: seq<seq<Delivery>>, cs: seq<Client>, msg: Message)
    requires Broadcasts(m, to, names, lists, cs)
    ensures ChatPart(AddresseeWrites(lists, cs, msg)) == Relay(cs, msg)
  {
    if cs != [] {
      var n := |cs| - 1;
      assert Broadcasts(m, to, names[..n], lists[..n], cs[..n]);
      AddresseeChats(m, to, names[..n], lists[..n], cs[..n], msg);
      assert AllFrames(lists[n], UserList(names[n]));
      AddresseeStep(AddresseeWrites(lists[..n], cs[..n], msg), lists[n], cs, n, msg);
      assert cs[..n + 1] == cs;
    }
  }

  /** Every user list among `out` names `to` first, when `to` is not empty. */
  predicate ListsNameFirst(out: seq<Delivery>, to: string) {
    forall k :: 0 <= k < |out| && out[k].frame.UserList? ==>
      to != "" ==> out[k].frame.users != [] && out[k].frame.users[0] == to
  }

  /** Every user list the addressee loop writes names the addressee first. */
  lemma {:induction false} AddresseeListsFirst(m: map<string, seq<Client>>, to: string, names: seq<seq<string>>,
                                               lists: seq<seq<Delivery>>, cs: seq<Client>, msg: Message)
    requires Broadcasts(m, to, names, lists, cs)
    ensures ListsNameFirst(AddresseeWrites(lists, cs, msg), to)
  {
    if cs != [] {
      var n := |cs| - 1;
      var pre := AddresseeWrites(lists[..n], cs[..n], msg);
      assert Broadcasts(m, to, names[..n], lists[..n], cs[..n]);
      AddresseeListsFirst(m, to, names[..n], lists[..n], cs[..n], msg);
      assert ListsNameFirst(pre, to);
      assert UserListFor(m, to, names[n]) && AllFrames(lists[n], UserList(names[n]));
      var w := pre + lists[n] + [Delivery(cs[n], Chat(msg))];
      forall k | 0 <= k < |w| && w[k].frame.UserList? && to != ""
        ensures w[k].frame.users != [] && w[k].frame.users[0] == to
      {
        if k < |pre| {
          assert w[k] == pre[k];
        } else if k < |pre| + |lists[n]| {
          assert w[k] == lists[n][k - |pre|];
          assert w[k].frame == UserList(names[n]);
          assert names[n] != [] && names[n][0] == to;
        }
      }
    }
  }

  /** One turn of the addressee loop adds one chat frame, to the next session. */
  lemma AddresseeStep(out: seq<Delivery>, list: seq<Delivery>, cs: seq<Client>, i: nat, msg: Message)
    requires i < |cs|
    requires ChatPart(out) == Relay(cs[..i], msg)
    requires forall k :: 0 <= k < |list| ==> list[k].frame.UserList?
    ensures ChatPart(out + list + [Delivery(cs[i], Chat(msg))]) == Relay(cs[..i + 1], msg)
  {
    var d := Delivery(cs[i], Chat(msg));
    calc {
      ChatPart(out + list + [d]);
      { ChatPartAppend(out + list, [d]); }
      ChatPart(out + list) + ChatPart([d]);
      { ChatPartAppend(out, list); ChatPartNone(list); }
      ChatPart(out) + ChatPart([d]);
      { assert [d][..0] == []; }
      Relay(cs[..i], msg) + [d];
      { RelayAppend(cs[..i], [cs[i]], msg); }
      Relay(cs[..i] + [cs[i]], msg);
      { assert cs[..i + 1] == cs[..i] + [cs[i]]; }
      Relay(cs[..i + 1], msg);
    }
  }

  /** The search loop of the disconnect clean-up: the position of the first session with `id`,
      or `|sessions|` when there is none. */
  method FindSession(sessions: seq<Client>, id: string) returns (i: nat)
    ensures i == IndexOf(sessions, id)
  {
    i := 0;
    while i < |sessions|
      invariant i <= |sessions|
      invariant forall j :: 0 <= j < i ==> sessions[j].id != id
    {
      if sessions[i].id == id {
        return;
      }
      i := i + 1;
    }
  }

  /** `for _, client := range clientSessions`: one write of `frame` to each session, in order. */
  method WriteEach(sessions: seq<Client>, frame: Frame) returns (out: seq<Delivery>)
    ensures Recipients(out) == sessions
    ensures AllFrames(out, frame)
  {
    out := [];
    var j := 0;
    while j < |sessions|
      invariant 0 <= j <= |sessions|
      invariant Recipients(out) == sessions[..j]
      invariant AllFrames(out, frame)
    {
      var d := Delivery(sessions[j], frame);
      RecipientsSnoc(out, d, sessions, j);
      AllFramesAppend(out, [d], frame);
      out := out + [d];
      j := j + 1;
    }
    assert sessions[..j] == sessions;
  }

  lemma RecipientsAppend(a: seq<Delivery>, b: seq<Delivery>)
    ensures Recipients(a + b) == Recipients(a) + Recipients(b)
  {
  }

  lemma RecipientsSnoc(out: seq<Delivery>, d: Delivery, cs: seq<Client>, j: nat)
    requires j < |cs| && d.to == cs[j]
    requires Recipients(out) == cs[..j]
    ensures Recipients(out + [d]) == cs[..j + 1]
  {
    assert (out + [d])[..|out|] == out;
    assert cs[..j + 1] == cs[..j] + [cs[j]];
  }

  /** One turn of the session loop of `broadcastUserList`: the sessions of `u` move from the
      ones still to write to the ones written. */
  lemma SendStep(m: map<string, seq<Client>>, todo: set<string>, u: string, before: seq<Client>, after: seq<Client>)
    requires WellFormed(m) && u in todo && u in m
    requires forall c :: multiset(before)[c] == if c.username in todo then 0 else Listings(m, c)
    requires after == before + m[u]
    ensures forall c :: multiset(after)[c] == if c.username in todo - {u} then 0 else Listings(m, c)
  {
    forall c ensures multiset(after)[c] == if c.username in todo - {u} then 0 else Listings(m, c) {
      assert multiset(after)[c] == multiset(before)[c] + multiset(m[u])[c];
      if c.username != u {
        assert c !in m[u];
      }
    }
  }

  lemma OthersSnoc(cs: seq<Client>, i: nat, id: string)
    requires i < |cs|
    ensures Others(cs[..i + 1], id) == Others(cs[..i], id) + (if cs[i].id != id then [cs[i]] else [])
  {
    assert cs[..i + 1][..i] == cs[..i];
  }

  lemma RelayAppend(a: seq<Client>, b: seq<Client>, msg: Message)
    ensures Relay(a + b, msg) == Relay(a, msg) + Relay(b, msg)
  {
  }

  lemma ReversePrepend(rows: seq<Message>, i: nat)
    requires i < |rows|
    ensures Reverse(rows[..i + 1]) == [rows[i]] + Reverse(rows[..i])
  {
    assert rows[..i + 1] == rows[..i] + [rows[i]];
    ReverseAppend(rows[..i], [rows[i]]);
  }
}
