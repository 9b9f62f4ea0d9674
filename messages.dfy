/**
 * Chat messages and the frames that travel over the websocket, shared by the browser client
 * and the Go server. A timestamp is an integer clock reading standing for the ISO 8601 /
 * RFC 3339 text both sides put in `timestamp`; `new Date(a.timestamp) - new Date(b.timestamp)`
 * on the client and `ORDER BY timestamp` on the server both compare these readings.
 */
module Messages {

  /** backend/Objects.go `Message`, and the plain objects the client builds with the same four keys. */
  datatype Message = Message(from: string, to: string, content: string, timestamp: int)

  /** A websocket frame, discriminated by its JSON `type` key (absent for a plain message). */
  datatype Frame =
    | UserList(users: seq<string>)                   // {type: "user_list", users}
    | Typing(from: string, to: string, isTyping: bool) // {type: "typing", from, to, isTyping}
    | Chat(msg: Message)                             // {from, to, content, timestamp}

  ghost predicate Ascending(s: seq<Message>) {
    forall i, j :: 0 <= i < j < |s| ==> s[i].timestamp <= s[j].timestamp
  }

  ghost predicate Descending(s: seq<Message>) {
    forall i, j :: 0 <= i < j < |s| ==> s[i].timestamp >= s[j].timestamp
  }

  /** Puts `m` in front of the first element that is not older than it. */
  function Insert(m: Message, s: seq<Message>): (r: seq<Message>)
    ensures |r| == |s| + 1
    ensures multiset(r) == multiset(s) + multiset{m}
    ensures forall x :: x in r ==> x == m || x in s
    ensures Ascending(s) ==> Ascending(r)
  {
    if s == [] then [m]
    else if m.timestamp <= s[0].timestamp then [m] + s
    else
      var rest := Insert(m, s[1..]);
      assert s == [s[0]] + s[1..];
      InsertHeadAscending(s[0], rest, s[1..], m);
      [s[0]] + rest
  }

  lemma InsertHeadAscending(h: Message, rest: seq<Message>, tail: seq<Message>, m: Message)
    requires h.timestamp < m.timestamp
    requires forall x :: x in rest ==> x == m || x in tail
    requires Ascending([h] + tail) ==> Ascending(tail) && Ascending(rest)
    ensures Ascending([h] + tail) ==> Ascending([h] + rest)
  {
    if Ascending([h] + tail) {
      forall x | x in tail ensures h.timestamp <= x.timestamp {
        var k :| 0 <= k < |tail| && tail[k] == x;
        assert ([h] + tail)[0] == h && ([h] + tail)[k + 1] == x;
        assert ([h] + tail)[0].timestamp <= ([h] + tail)[k + 1].timestamp;
      }
      forall i, j | 0 <= i < j < |[h] + rest|
        ensures ([h] + rest)[i].timestamp <= ([h] + rest)[j].timestamp
      {
        if i == 0 {
          assert ([h] + rest)[j] == rest[j - 1];
          assert rest[j - 1] in rest;
        } else {
          assert ([h] + rest)[i] == rest[i - 1] && ([h] + rest)[j] == rest[j - 1];
        }
      }
    }
  }

  /**
   * `Array.prototype.sort` with the comparator `(a, b) => new Date(a.timestamp) - new Date(b.timestamp)`:
   * a stable sort into ascending timestamp order.
   */
  function SortByTime(s: seq<Message>): (r: seq<Message>)
    ensures |r| == |s|
    ensures Ascending(r)
    ensures multiset(r) == multiset(s)
  {
    if s == [] then []
    else
      assert s == [s[0]] + s[1..];
      Insert(s[0], SortByTime(s[1..]))
  }

  /** `Array.prototype.reverse`, and the order that prepending row by row produces. */
  function Reverse<T>(s: seq<T>): (r: seq<T>)
    ensures |r| == |s|
    ensures forall i :: 0 <= i < |s| ==> r[i] == s[|s| - 1 - i]
  {
    if s == [] then [] else Reverse(s[1..]) + [s[0]]
  }

  lemma ReversePermutes<T>(s: seq<T>)
    ensures multiset(Reverse(s)) == multiset(s)
  {
    if s != [] {
      ReversePermutes(s[1..]);
      assert s == [s[0]] + s[1..];
    }
  }

  lemma ReverseAppend<T>(a: seq<T>, b: seq<T>)
    ensures Reverse(a + b) == Reverse(b) + Reverse(a)
  {
    assert |Reverse(a + b)| == |Reverse(b) + Reverse(a)|;
    forall i | 0 <= i < |a| + |b|
      ensures Reverse(a + b)[i] == (Reverse(b) + Reverse(a))[i]
    {
      if i < |b| {
        assert Reverse(a + b)[i] == (a + b)[|a| + |b| - 1 - i] == b[|b| - 1 - i];
      } else {
        assert Reverse(a + b)[i] == (a + b)[|a| + |b| - 1 - i] == a[|a| - 1 - (i - |b|)];
      }
    }
  }

  lemma ReverseAscending(s: seq<Message>)
    ensures Ascending(s) ==> Descending(Reverse(s))
    ensures Descending(s) ==> Ascending(Reverse(s))
  {
  }

  /**
   * Stable descending sort: messages with equal timestamps keep their relative order. This is the
   * order in which the model lets `ORDER BY timestamp DESC` return rows.
   */
  function SortByTimeDesc(s: seq<Message>): (r: seq<Message>)
    ensures |r| == |s|
    ensures Descending(r)
    ensures multiset(r) == multiset(s)
  {
    var up := SortByTime(Reverse(s));
    ReverseAscending(up);
    ReversePermutes(s);
    ReversePermutes(up);
    Reverse(up)
  }

  /** Sorting a sequence that is already in ascending order leaves it as it is (the sort is stable). */
  lemma {:induction false} SortAscendingIsIdentity(s: seq<Message>)
    requires Ascending(s)
    ensures SortByTime(s) == s
  {
    if s != [] {
      SortAscendingIsIdentity(s[1..]);
      assert s == [s[0]] + s[1..];
    }
  }
}
