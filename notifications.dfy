/**
 * The `/notification` exchange of static/chat.js: the request body `notifData` the client
 * posts, how the server's `Notification` struct (backend/Objects.go) reads that body, and
 * the reply the client turns into a badge.
 */
module Notifications {
  import opened Wrappers

  /** The JSON values that occur in a notification body. */
  datatype Json = JNull | JNum(n: int) | JStr(s: string)

  /** A JSON object, key by key. */
  type Payload = map<string, Json>

  /**
   * `{receiver_nickname: receiver, sender_nickname: sender, ...(unread != null && {unread_messages: unread})}`.
   * `unread` is None for both `null` and `undefined` (loose `!= null`); a number, 0 included, is Some.
   */
  function NotifData(receiver: string, sender: string, unread: Option<int>): (d: Payload)
    ensures "unread_messages" in d <==> unread.Some?
    ensures d.Keys - {"unread_messages"} == {"receiver_nickname", "sender_nickname"}
    ensures unread.Some? ==> d["unread_messages"] == JNum(unread.value)
  {
    var base := map["receiver_nickname" := JStr(receiver), "sender_nickname" := JStr(sender)];
    if unread.Some? then base["unread_messages" := JNum(unread.value)] else base
  }

  /** backend/Objects.go `Notification`; `unread` is the `*int` field, None for nil. */
  datatype Notification = Notification(id: int, receiver: string, sender: string, unread: Option<int>)

  /** What `encoding/json` leaves in a zero `Notification` after decoding `d`: absent keys keep
      their zero value, an absent or `null` `unread_messages` leaves the pointer nil. */
  function DecodeNotification(d: Payload): Notification {
    Notification(
      if "id" in d && d["id"].JNum? then d["id"].n else 0,
      if "receiver_nickname" in d && d["receiver_nickname"].JStr? then d["receiver_nickname"].s else "",
      if "sender_nickname" in d && d["sender_nickname"].JStr? then d["sender_nickname"].s else "",
      if "unread_messages" in d && d["unread_messages"].JNum? then Some(d["unread_messages"].n) else None)
  }

  /** The server reads back exactly the three arguments of `notification`; a missing count stays nil
      rather than becoming 0, so "report activity" and "reset to 0" stay distinguishable. */
  lemma DecodeNotifData(receiver: string, sender: string, unread: Option<int>)
    ensures DecodeNotification(NotifData(receiver, sender, unread)) == Notification(0, receiver, sender, unread)
  {
  }

  /** The server's reply body: `sender_nickname` and the authoritative `unread_messages` (possibly null). */
  datatype NotifReply = NotifReply(sender: string, unread: Option<int>)
}
