/**
 * The history query behind `GET /messages` (backend/handlers.go): the rows of the `messages`
 * table exchanged between two users, newest first, ten at a time from an offset, and the way
 * the handler turns those rows into the JSON body the client reads.
 *
 * The table is a sequence of messages in insertion order. `ORDER BY timestamp DESC` leaves the
 * order of equal timestamps to SQLite; the model fixes one such order (`SortByTimeDesc`).
 */
module Pages {
  import opened Wrappers
  import opened Messages
  import opened Text

  /** `LIMIT 10`. */
  const PageSize: int := 10

  function Min(a: int, b: int): int { if a <= b then a else b }
  function Max(a: int, b: int): int { if a >= b then a else b }

  /** `(sender = a AND receiver = b) OR (sender = b AND receiver = a)`. */
  predicate Between(m: Message, a: string, b: string) {
    (m.from == a && m.to == b) || (m.from == b && m.to == a)
  }

  /** The rows of `history` the `WHERE` clause keeps, in table order. */
  function Conversation(history: seq<Message>, a: string, b: string): (r: seq<Message>)
    ensures forall m :: m in r <==> m in history && Between(m, a, b)
    ensures |r| <= |history|
  {
    if history == [] then []
    else
      var last := history[|history| - 1];
      assert forall m :: m in history <==> m in history[..|history| - 1] || m == last by {
        assert history == history[..|history| - 1] + [last];
      }
      Conversation(history[..|history| - 1], a, b) + (if Between(last, a, b) then [last] else [])
  }

  /** The filter keeps every copy of a matching row and no copy of any other: the table's
      multiplicities, restricted to the two users. */
  lemma {:induction false} ConversationCounts(history: seq<Message>, a: string, b: string, m: Message)
    ensures multiset(Conversation(history, a, b))[m] == if Between(m, a, b) then multiset(history)[m] else 0
  {
    if history != [] {
      var front, last := history[..|history| - 1], history[|history| - 1];
      assert history == front + [last];
      ConversationCounts(front, a, b, m);
    }
  }

  /** The conversation as `ORDER BY timestamp DESC` returns it. */
  function NewestFirst(history: seq<Message>, a: string, b: string): (r: seq<Message>)
    ensures |r| == |Conversation(history, a, b)|
    ensures Descending(r)
    ensures multiset(r) == multiset(Conversation(history, a, b))
  {
    SortByTimeDesc(Conversation(history, a, b))
  }

  /** The first row `OFFSET k` keeps; SQLite reads a negative offset as 0. */
  function WindowStart(n: nat, k: int): (lo: nat)
    ensures k <= 0 ==> lo == 0
    ensures 0 <= k <= n ==> lo == k
    ensures k >= n ==> lo == n
  {
    Min(Max(k, 0), n)
  }

  /** Rows `LIMIT 10 OFFSET k` keeps of the sorted rows `nf`. */
  function Slice(nf: seq<Message>, k: int): seq<Message> {
    var lo := WindowStart(|nf|, k);
    nf[lo..Min(lo + PageSize, |nf|)]
  }

  /** The rows `LIMIT 10 OFFSET k` returns, newest first. */
  function Window(history: seq<Message>, a: string, b: string, k: int): seq<Message> {
    Slice(NewestFirst(history, a, b), k)
  }

  /** The page the handler builds: each scanned row is put in front of the ones before it. */
  function Page(history: seq<Message>, a: string, b: string, k: int): seq<Message> {
    Reverse(Window(history, a, b, k))
  }

  /** Every row of a page is from the table and between the two users. */
  lemma PageMembers(history: seq<Message>, a: string, b: string, k: int, m: Message)
    requires m in Page(history, a, b, k)
    ensures m in history && Between(m, a, b)
  {
    var nf := NewestFirst(history, a, b);
    SliceMembers(nf, k, m);
    assert m in multiset(nf);
    assert m in multiset(Conversation(history, a, b));
  }

  lemma SliceMembers(nf: seq<Message>, k: int, m: Message)
    requires m in Reverse(Slice(nf, k))
    ensures m in nf
  {
    var w := Slice(nf, k);
    ReversePermutes(w);
    assert m in multiset(Reverse(w));
    assert m in w;
  }

  /** A page holds ten rows, or the rows left after the offset when fewer remain. */
  lemma PageLength(history: seq<Message>, a: string, b: string, k: int)
    ensures |Page(history, a, b, k)| == Min(PageSize, Max(0, |Conversation(history, a, b)| - Max(k, 0)))
  {
    SliceLength(NewestFirst(history, a, b), k);
  }

  lemma SliceLength(nf: seq<Message>, k: int)
    ensures |Slice(nf, k)| == Min(PageSize, Max(0, |nf| - Max(k, 0)))
  {
  }

  /** A page is in chronological order, oldest first. */
  lemma PageAscending(history: seq<Message>, a: string, b: string, k: int)
    ensures Ascending(Page(history, a, b, k))
  {
    var w := Window(history, a, b, k);
    assert Descending(w);
    ReverseAscending(w);
  }

  /** The query does not depend on which of the two users asks. */
  lemma {:induction false} ConversationSymmetric(history: seq<Message>, a: string, b: string)
    ensures Conversation(history, a, b) == Conversation(history, b, a)
  {
    if history != [] {
      ConversationSymmetric(history[..|history| - 1], a, b);
    }
  }

  lemma PageSymmetric(history: seq<Message>, a: string, b: string, k: int)
    ensures Page(history, a, b, k) == Page(history, b, a, k)
  {
    ConversationSymmetric(history, a, b);
  }

  /** What the client holds after loading the pages at offsets 0, 10, ..., 10 * (j - 1) of the
      sorted rows `nf`, each put in front of the ones loaded before it. */
  function StackedOf(nf: seq<Message>, j: nat): seq<Message> {
    if j == 0 then [] else Reverse(Slice(nf, PageSize * (j - 1))) + StackedOf(nf, j - 1)
  }

  function Stacked(history: seq<Message>, a: string, b: string, j: nat): seq<Message> {
    StackedOf(NewestFirst(history, a, b), j)
  }

  lemma {:induction false} StackedPrefix(nf: seq<Message>, j: nat)
    ensures StackedOf(nf, j) == Reverse(nf[..Min(PageSize * j, |nf|)])
  {
    if j > 0 {
      var k := PageSize * (j - 1);
      var lo, hi := Min(k, |nf|), Min(k + PageSize, |nf|);
      assert Min(PageSize * j, |nf|) == hi by {
        assert PageSize * j == k + PageSize;
      }
      calc {
        StackedOf(nf, j);
        Reverse(Slice(nf, k)) + StackedOf(nf, j - 1);
        { assert WindowStart(|nf|, k) == lo; }
        Reverse(nf[lo..hi]) + StackedOf(nf, j - 1);
        { StackedPrefix(nf, j - 1); }
        Reverse(nf[lo..hi]) + Reverse(nf[..lo]);
        { ReverseSplit(nf, lo, hi); }
        Reverse(nf[..hi]);
      }
    }
  }

  /** Loading the first `j` pages in turn yields the newest `10 * j` messages of the
      conversation (all of them once it is exhausted), in chronological order, with no gap and
      no message twice. */
  lemma StackedPages(history: seq<Message>, a: string, b: string, j: nat)
    ensures j > 0 ==> Stacked(history, a, b, j) == Page(history, a, b, PageSize * (j - 1)) + Stacked(history, a, b, j - 1)
    ensures var nf := NewestFirst(history, a, b);
            Stacked(history, a, b, j) == Reverse(nf[..Min(PageSize * j, |nf|)])
  {
    StackedPrefix(NewestFirst(history, a, b), j);
  }

  lemma ReverseSplit(s: seq<Message>, lo: nat, hi: nat)
    requires lo <= hi <= |s|
    ensures Reverse(s[lo..hi]) + Reverse(s[..lo]) == Reverse(s[..hi])
  {
    assert s[..hi] == s[..lo] + s[lo..hi];
    ReverseAppend(s[..lo], s[lo..hi]);
  }

  /** The value of the `offset` query parameter: `strconv.Atoi`, and 0 when it fails. */
  function Offset(param: string): (k: int)
    ensures Atoi(param).Some? ==> k == Atoi(param).value
    ensures Atoi(param).None? ==> k == 0
  {
    match Atoi(param)
    case Some(n) => n
    case None => 0
  }

  /** The offset the client writes in the URL reaches the query unchanged. */
  lemma ClientOffsetReachesQuery(n: nat)
    requires n <= MaxInt64
    ensures Offset(Decimal(n)) == n
  {
    AtoiDecimal(n);
  }

  /** The JSON body of a 200 response. */
  datatype Body = JsonNull | JsonArray(items: seq<Message>)

  /**
   * `json.NewEncoder(w).Encode(messages)` as the handler has it: `messages` is declared
   * `var messages []Message` and only grows by `append`, so with no row it is still the nil
   * slice, which the encoder writes as `null`.
   */
  function EncodePageAsWritten(messages: seq<Message>): (b: Body)
    ensures b == JsonNull <==> messages == []
    ensures b.JsonArray? ==> b.items == messages
  {
    if messages == [] then JsonNull else JsonArray(messages)
  }

  /** The encoding the client needs: a JSON array in every case, `[]` for no rows. */
  function EncodePage(messages: seq<Message>): (b: Body)
    ensures b.JsonArray? && b.items == messages
  {
    JsonArray(messages)
  }

  /**
   * The client's reading of a 200 body in `loadMessagesPage`: `messages.length` and
   * `messages.sort` throw a TypeError on `null`, which lands in the `catch`.
   */
  function DecodePage(b: Body): (r: Result<seq<Message>, string>)
    ensures r.Success? <==> b.JsonArray?
    ensures r.Success? ==> r.value == b.items
  {
    match b
    case JsonNull => Failure("TypeError")
    case JsonArray(items) => Success(items)
  }

  /** Past the end of the conversation the page is empty. */
  lemma PageEmptyPastEnd(history: seq<Message>, a: string, b: string, k: int)
    requires k >= |Conversation(history, a, b)|
    ensures Page(history, a, b, k) == []
  {
    var nf := NewestFirst(history, a, b);
    assert WindowStart(|nf|, k) == |nf|;
    assert Slice(nf, k) == [];
  }

  /** As written, an offset past the end of the conversation reaches the client as a failure,
      not as the empty page that would mark the history exhausted. */
  lemma ExhaustedPageIsErrorAsWritten(history: seq<Message>, a: string, b: string, k: int)
    requires k >= |Conversation(history, a, b)|
    ensures DecodePage(EncodePageAsWritten(Page(history, a, b, k))).Failure?
  {
    PageEmptyPastEnd(history, a, b, k);
  }

  /** With `[]` for no rows, the client decodes exactly the page the query returned; past the
      end of the conversation that is the empty page. */
  lemma PageRoundTrip(history: seq<Message>, a: string, b: string, k: int)
    ensures DecodePage(EncodePage(Page(history, a, b, k))) == Success(Page(history, a, b, k))
    ensures k >= |Conversation(history, a, b)| ==> DecodePage(EncodePage(Page(history, a, b, k))) == Success([])
  {
    if k >= |Conversation(history, a, b)| {
      PageEmptyPastEnd(history, a, b, k);
    }
  }
}
