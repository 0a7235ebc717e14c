/**
 Listing a conversation's messages newest first, by keyset or by offset, while new messages keep
 arriving (internal/messaging/store.go, `ListMessages` and `AddMessage`).
 */
module Paging {
  import opened Options

  /** Identifiers are opaque but ordered, as the database orders them. */
  datatype Message = Message(id: int, conversation: int, createdAt: int, body: string)

  datatype Key = Key(createdAt: int, id: int)

  function KeyOf(m: Message): Key {
    Key(m.createdAt, m.id)
  }

  /** `created_at < ? OR (created_at = ? AND id < ?)`. */
  predicate Below(a: Key, b: Key) {
    a.createdAt < b.createdAt || (a.createdAt == b.createdAt && a.id < b.id)
  }

  predicate Eligible(m: Message, conversation: int, before: Option<Key>) {
    m.conversation == conversation && (before.Some? ==> Below(KeyOf(m), before.value))
  }

  /** The identifier is the primary key. */
  predicate Table(ms: seq<Message>) {
    forall i, j :: 0 <= i < j < |ms| ==> ms[i].id != ms[j].id
  }

  /** The eligible message with the greatest key among the first k rows. */
  function Newest(ms: seq<Message>, conversation: int, before: Option<Key>, k: nat): Option<Message>
    requires k <= |ms|
  {
    if k == 0 then None
    else
      var best := Newest(ms, conversation, before, k - 1);
      if Eligible(ms[k - 1], conversation, before) && (best.None? || Below(KeyOf(best.value), KeyOf(ms[k - 1])))
      then Some(ms[k - 1]) else best
  }

  /** `ORDER BY created_at DESC, id DESC LIMIT n`: the newest, then the newest below it, and so on. */
  function Page(ms: seq<Message>, conversation: int, before: Option<Key>, limit: nat): (r: seq<Message>)
    ensures |r| <= limit
    decreases limit
  {
    if limit == 0 then []
    else
      match Newest(ms, conversation, before, |ms|)
      case None => []
      case Some(m) => [m] + Page(ms, conversation, Some(KeyOf(m)), limit - 1)
  }

  /** With a cursor the offset is ignored. */
  function Listed(ms: seq<Message>, conversation: int, limit: nat, offset: nat, before: Option<Key>): seq<Message> {
    if before.Some? then Page(ms, conversation, before, limit)
    else
      var all := Page(ms, conversation, None, offset + limit);
      if |all| <= offset then [] else all[offset..]
  }

  class MessageStore {
    var messages: seq<Message>

    constructor ()
      ensures messages == []
    {
      messages := [];
    }

    method AddMessage(id: int, conversation: int, createdAt: int, body: string) returns (m: Message)
      requires Table(messages) && forall i :: 0 <= i < |messages| ==> messages[i].id != id
      modifies this
      ensures Table(messages)
      ensures m == Message(id, conversation, createdAt, body) && messages == old(messages) + [m]
    {
      m := Message(id, conversation, createdAt, body);
      messages := messages + [m];
    }

    method ListMessages(conversation: int, limit: nat, offset: nat, before: Option<Key>) returns (out: seq<Message>)
      ensures out == Listed(messages, conversation, limit, offset, before)
    {
      var rows := Select(conversation, before, if before.Some? then limit else offset + limit);
      if before.Some? { return rows; }
      if |rows| <= offset { return []; }
      return rows[offset..];
    }

    method Select(conversation: int, before: Option<Key>, limit: nat) returns (out: seq<Message>)
      ensures out == Page(messages, conversation, before, limit)
    {
      out := [];
      var cursor := before;
      while |out| < limit
        invariant |out| <= limit
        invariant out + Page(messages, conversation, cursor, limit - |out|) == Page(messages, conversation, before, limit)
      {
        var best: Option<Message> := None;
        for i := 0 to |messages|
          invariant best == Newest(messages, conversation, cursor, i)
        {
          if Eligible(messages[i], conversation, cursor)
             && (best.None? || Below(KeyOf(best.value), KeyOf(messages[i]))) {
            best := Some(messages[i]);
          }
        }
        if best.None? { return; }
        out := out + [best.value];
        cursor := Some(KeyOf(best.value));
      }
    }
  }

  // ----- what a page is -----

  predicate Decreasing(s: seq<Message>) {
    forall i, j :: 0 <= i < j < |s| ==> Below(KeyOf(s[j]), KeyOf(s[i]))
  }

  lemma {:induction false} NewestIs(ms: seq<Message>, conversation: int, before: Option<Key>, k: nat)
    requires k <= |ms|
    ensures var r := Newest(ms, conversation, before, k);
      && (r.Some? ==> r.value in ms && Eligible(r.value, conversation, before))
      && (forall i :: 0 <= i < k && Eligible(ms[i], conversation, before) ==>
            r.Some? && !Below(KeyOf(r.value), KeyOf(ms[i])))
  {
    if k > 0 { NewestIs(ms, conversation, before, k - 1); }
  }

  lemma SameKeySameRow(ms: seq<Message>, a: Message, b: Message)
    requires Table(ms) && a in ms && b in ms && !Below(KeyOf(a), KeyOf(b)) && !Below(KeyOf(b), KeyOf(a))
    ensures a == b
  {
    assert a.id == b.id;
  }

  /** Rows of the page are eligible rows of the table, newest first, and nothing eligible is skipped. */
  ghost predicate IsPage(ms: seq<Message>, conversation: int, before: Option<Key>, limit: nat, page: seq<Message>) {
    && |page| <= limit
    && Decreasing(page)
    && (forall i :: 0 <= i < |page| ==> page[i] in ms && Eligible(page[i], conversation, before))
    && (forall m :: m in ms && Eligible(m, conversation, before) ==>
          m in page || (|page| == limit && forall i :: 0 <= i < |page| ==> Below(KeyOf(m), KeyOf(page[i]))))
  }

  lemma {:induction false} PageIs(ms: seq<Message>, conversation: int, before: Option<Key>, limit: nat)
    requires Table(ms)
    ensures IsPage(ms, conversation, before, limit, Page(ms, conversation, before, limit))
    decreases limit
  {
    var page := Page(ms, conversation, before, limit);
    NewestIs(ms, conversation, before, |ms|);
    var first := Newest(ms, conversation, before, |ms|);
    if limit > 0 && first.Some? {
      var rest := Page(ms, conversation, Some(KeyOf(first.value)), limit - 1);
      PageIs(ms, conversation, Some(KeyOf(first.value)), limit - 1);
      forall m | m in ms && Eligible(m, conversation, before)
        ensures m in page || (|page| == limit && forall i :: 0 <= i < |page| ==> Below(KeyOf(m), KeyOf(page[i])))
      {
        if m != first.value {
          if !Below(KeyOf(m), KeyOf(first.value)) { SameKeySameRow(ms, m, first.value); }
          assert Eligible(m, conversation, Some(KeyOf(first.value)));
          if m in rest { assert m in page; }
        }
      }
    }
  }

  /** By time never increasing, and by identifier decreasing where times are equal. */
  predicate NewestFirst(s: seq<Message>) {
    forall i, j :: 0 <= i < j < |s| ==>
      s[j].createdAt <= s[i].createdAt && (s[j].createdAt == s[i].createdAt ==> s[j].id < s[i].id)
  }

  /** A page is of the conversation, newest first, and with a cursor starts strictly behind it. */
  lemma PageNewestFirst(ms: seq<Message>, conversation: int, before: Option<Key>, limit: nat)
    requires Table(ms)
    ensures var page := Page(ms, conversation, before, limit);
      && NewestFirst(page)
      && (forall i :: 0 <= i < |page| ==> page[i].conversation == conversation)
      && (forall i :: 0 <= i < |page| && before.Some? ==>
            && page[i].createdAt <= before.value.createdAt
            && (page[i].createdAt == before.value.createdAt ==> page[i].id < before.value.id))
  {
    PageIs(ms, conversation, before, limit);
    var page := Page(ms, conversation, before, limit);
    forall i, j | 0 <= i < j < |page|
      ensures page[j].createdAt <= page[i].createdAt && (page[j].createdAt == page[i].createdAt ==> page[j].id < page[i].id)
    {
      assert Below(KeyOf(page[j]), KeyOf(page[i]));
    }
  }

  // ----- paging through a growing table -----

  function CursorAfter(seen: seq<Message>): Option<Key> {
    if seen == [] then None else Some(KeyOf(seen[|seen| - 1]))
  }

  /** What a client has after k pages, the i-th read from the i-th table. */
  function Feed(tables: seq<seq<Message>>, conversation: int, limit: nat, k: nat): seq<Message>
    requires k <= |tables|
  {
    if k == 0 then []
    else
      var seen := Feed(tables, conversation, limit, k - 1);
      seen + Page(tables[k - 1], conversation, CursorAfter(seen), limit)
  }

  /** Messages are added between pages and never removed. */
  ghost predicate Growing(tables: seq<seq<Message>>) {
    && (forall i :: 0 <= i < |tables| ==> Table(tables[i]))
    && (forall i, j, m :: 0 <= i <= j < |tables| && m in tables[i] ==> m in tables[j])
  }

  /** The cursor has reached the message. */
  predicate Passed(m: Message, seen: seq<Message>) {
    seen != [] && !Below(KeyOf(m), KeyOf(seen[|seen| - 1]))
  }

  /** The feed is in strictly decreasing order and has every message of the table down to the cursor. */
  ghost predicate UpToDate(ms: seq<Message>, conversation: int, seen: seq<Message>) {
    && Decreasing(seen)
    && (forall m :: m in ms && m.conversation == conversation && Passed(m, seen) ==> m in seen)
  }

  lemma OnePage(first: seq<Message>, ms: seq<Message>, conversation: int, limit: nat, seen: seq<Message>)
    requires Table(ms) && (forall m :: m in first ==> m in ms) && UpToDate(first, conversation, seen)
    ensures var page := Page(ms, conversation, CursorAfter(seen), limit);
      && UpToDate(first, conversation, seen + page)
      && (|page| < limit ==> forall m :: m in first && m.conversation == conversation ==> m in seen + page)
  {
    var page := Page(ms, conversation, CursorAfter(seen), limit);
    PageIs(ms, conversation, CursorAfter(seen), limit);
    var all := seen + page;
    forall i, j | 0 <= i < j < |all| ensures Below(KeyOf(all[j]), KeyOf(all[i])) {
      if i < |seen| <= j { assert Eligible(page[j - |seen|], conversation, CursorAfter(seen)); }
    }
    forall m | m in first && m.conversation == conversation
      ensures Passed(m, all) ==> m in all
      ensures |page| < limit ==> m in all
    {
      if Eligible(m, conversation, CursorAfter(seen)) && m !in page {
        assert |page| == limit;
        if page != [] { assert Below(KeyOf(m), KeyOf(page[|page| - 1])); }
      }
    }
  }

  /**
   However many messages arrive between pages, the feed is strictly decreasing, so nothing appears
   twice, and every message there at the start has appeared once the cursor has passed it.
   */
  lemma {:induction false} NothingMissedOrRepeated(tables: seq<seq<Message>>, conversation: int, limit: nat, k: nat)
    requires 0 < |tables| && k <= |tables| && Growing(tables)
    ensures UpToDate(tables[0], conversation, Feed(tables, conversation, limit, k))
  {
    if k > 0 {
      NothingMissedOrRepeated(tables, conversation, limit, k - 1);
      OnePage(tables[0], tables[k - 1], conversation, limit, Feed(tables, conversation, limit, k - 1));
    }
  }

  /** What the client reads, page after page, is newest first throughout. */
  lemma FeedNewestFirst(tables: seq<seq<Message>>, conversation: int, limit: nat, k: nat)
    requires 0 < |tables| && k <= |tables| && Growing(tables)
    ensures NewestFirst(Feed(tables, conversation, limit, k))
  {
    NothingMissedOrRepeated(tables, conversation, limit, k);
    var feed := Feed(tables, conversation, limit, k);
    forall i, j | 0 <= i < j < |feed|
      ensures feed[j].createdAt <= feed[i].createdAt && (feed[j].createdAt == feed[i].createdAt ==> feed[j].id < feed[i].id)
    {
      assert Below(KeyOf(feed[j]), KeyOf(feed[i]));
    }
  }

  /** The page after the first k brings fewer rows than asked for. */
  predicate ShortPage(tables: seq<seq<Message>>, conversation: int, limit: nat, k: nat)
    requires k < |tables|
  {
    |Page(tables[k], conversation, CursorAfter(Feed(tables, conversation, limit, k)), limit)| < limit
  }

  /** A short page ends the feed: everything there at the start has been delivered. */
  lemma ShortPageMeansAll(tables: seq<seq<Message>>, conversation: int, limit: nat, k: nat)
    requires k < |tables| && Growing(tables) && ShortPage(tables, conversation, limit, k)
    ensures forall m :: m in tables[0] && m.conversation == conversation ==> m in Feed(tables, conversation, limit, k + 1)
  {
    NothingMissedOrRepeated(tables, conversation, limit, k);
    OnePage(tables[0], tables[k], conversation, limit, Feed(tables, conversation, limit, k));
  }

  // ----- a short page comes -----

  lemma {:induction false} FeedInTable(tables: seq<seq<Message>>, conversation: int, limit: nat, k: nat, i: nat)
    requires k <= |tables| && 0 < |tables| && Growing(tables) && i < |Feed(tables, conversation, limit, k)|
    ensures Feed(tables, conversation, limit, k)[i] in tables[|tables| - 1]
  {
    if k > 0 {
      var seen := Feed(tables, conversation, limit, k - 1);
      if i < |seen| {
        FeedInTable(tables, conversation, limit, k - 1, i);
      } else {
        PageIs(tables[k - 1], conversation, CursorAfter(seen), limit);
        assert Feed(tables, conversation, limit, k)[i] in tables[k - 1];
      }
    }
  }

  function Rows(s: seq<Message>, k: nat): set<Message>
    requires k <= |s|
  {
    if k == 0 then {} else Rows(s, k - 1) + {s[k - 1]}
  }

  lemma {:induction false} RowIn(s: seq<Message>, k: nat, i: nat)
    requires i < k <= |s|
    ensures s[i] in Rows(s, k)
  {
    if i < k - 1 { RowIn(s, k - 1, i); }
  }

  lemma {:induction false} InRows(s: seq<Message>, k: nat, m: Message) returns (i: nat)
    requires k <= |s| && m in Rows(s, k)
    ensures i < k && s[i] == m
  {
    if m == s[k - 1] { i := k - 1; } else { i := InRows(s, k - 1, m); }
  }

  lemma {:induction false} RowsCount(s: seq<Message>, k: nat)
    requires k <= |s|
    ensures |Rows(s, k)| <= k
    ensures Decreasing(s) ==> |Rows(s, k)| == k
  {
    if k > 0 {
      RowsCount(s, k - 1);
      if Decreasing(s) && s[k - 1] in Rows(s, k - 1) {
        var i := InRows(s, k - 1, s[k - 1]);
      }
    }
  }

  /** The feed never outgrows the table, so full pages cannot go on for ever. */
  lemma FeedFits(tables: seq<seq<Message>>, conversation: int, limit: nat)
    requires 0 < |tables| && Growing(tables)
    ensures |Feed(tables, conversation, limit, |tables|)| <= |tables[|tables| - 1]|
  {
    var feed := Feed(tables, conversation, limit, |tables|);
    var last := tables[|tables| - 1];
    NothingMissedOrRepeated(tables, conversation, limit, |tables|);
    RowsCount(feed, |feed|);
    RowsCount(last, |last|);
    forall m | m in Rows(feed, |feed|) ensures m in Rows(last, |last|) {
      var i := InRows(feed, |feed|, m);
      FeedInTable(tables, conversation, limit, |tables|, i);
      var j :| 0 <= j < |last| && last[j] == m;
      RowIn(last, |last|, j);
    }
    Smaller(Rows(feed, |feed|), Rows(last, |last|));
  }

  lemma Smaller(a: set<Message>, b: set<Message>)
    requires a <= b
    ensures |a| <= |b|
  {
    assert b == a + (b - a);
  }

  lemma {:induction false} FullPages(tables: seq<seq<Message>>, conversation: int, limit: nat, k: nat)
    requires k <= |tables| && forall j :: 0 <= j < k ==> !ShortPage(tables, conversation, limit, j)
    ensures |Feed(tables, conversation, limit, k)| == k * limit
  {
    if k > 0 {
      FullPages(tables, conversation, limit, k - 1);
      assert !ShortPage(tables, conversation, limit, k - 1);
      assert k * limit == (k - 1) * limit + limit;
    }
  }

  /** Enough pages to hold the whole table include a short one, after which everything is delivered. */
  lemma PagingEnds(tables: seq<seq<Message>>, conversation: int, limit: nat)
    requires 0 < |tables| && Growing(tables) && |tables[|tables| - 1]| < |tables| * limit
    ensures exists k :: 0 <= k < |tables| && ShortPage(tables, conversation, limit, k)
  {
    if forall k :: 0 <= k < |tables| ==> !ShortPage(tables, conversation, limit, k) {
      FullPages(tables, conversation, limit, |tables|);
      FeedFits(tables, conversation, limit);
    }
  }

  // ----- by offset instead -----

  lemma {:induction false} SameNewest(ms: seq<Message>, m: Message, conversation: int,
                                      a: Option<Key>, b: Option<Key>, k: nat)
    requires k <= |ms|
    requires forall x :: x in ms ==> (Eligible(x, conversation, a) <==> Eligible(x, conversation, b))
    ensures Newest(ms + [m], conversation, a, k) == Newest(ms, conversation, b, k)
  {
    if k > 0 { SameNewest(ms, m, conversation, a, b, k - 1); }
  }

  /** A row that is not eligible makes no difference. */
  lemma {:induction false} SamePage(ms: seq<Message>, m: Message, conversation: int, before: Option<Key>, n: nat)
    requires !Eligible(m, conversation, before)
    ensures Page(ms + [m], conversation, before, n) == Page(ms, conversation, before, n)
    decreases n
  {
    SameNewest(ms, m, conversation, before, before, |ms|);
    assert (ms + [m])[|ms|] == m;
    NewestIs(ms, conversation, before, |ms|);
    var first := Newest(ms, conversation, before, |ms|);
    if n > 0 && first.Some? { SamePage(ms, m, conversation, Some(KeyOf(first.value)), n - 1); }
  }

  /** Below a row newer than everything eligible, the page is what it was without the row. */
  lemma PageBelow(ms: seq<Message>, m: Message, conversation: int, before: Option<Key>, n: nat)
    requires Eligible(m, conversation, before)
    requires forall x :: x in ms && Eligible(x, conversation, before) ==> Below(KeyOf(x), KeyOf(m))
    ensures Page(ms + [m], conversation, before, n + 1) == [m] + Page(ms, conversation, before, n)
  {
    SameNewest(ms, m, conversation, before, before, |ms|);
    NewestIs(ms, conversation, before, |ms|);
    assert (ms + [m])[|ms|] == m;
    assert Newest(ms + [m], conversation, before, |ms| + 1) == Some(m);
    SamePage(ms, m, conversation, Some(KeyOf(m)), n);
    SameNewest(ms, m, conversation, Some(KeyOf(m)), before, |ms|);
    SameNewest(ms, m, conversation, before, before, |ms|);
    SameNewest(ms, m, conversation, Some(KeyOf(m)), Some(KeyOf(m)), |ms|);
  }

  /** A row that belongs somewhere on a full page pushes the page's last row one place on. */
  lemma {:induction false} PushedDown(ms: seq<Message>, m: Message, conversation: int, before: Option<Key>, n: nat)
    requires Table(ms + [m]) && Eligible(m, conversation, before) && 0 < n == |Page(ms, conversation, before, n)|
    requires Below(KeyOf(Page(ms, conversation, before, n)[n - 1]), KeyOf(m))
    ensures var page := Page(ms + [m], conversation, before, n + 1);
      |page| == n + 1 && page[n] == Page(ms, conversation, before, n)[n - 1]
    decreases n
  {
    NewestIs(ms, conversation, before, |ms|);
    var first := Newest(ms, conversation, before, |ms|).value;
    if Below(KeyOf(first), KeyOf(m)) {
      PageBelow(ms, m, conversation, before, n);
    } else {
      DifferentKeys(ms, m, first);
      SameNewest(ms, m, conversation, before, before, |ms|);
      assert (ms + [m])[|ms|] == m;
      PushedDown(ms, m, conversation, Some(KeyOf(first)), n - 1);
    }
  }

  lemma DifferentKeys(ms: seq<Message>, m: Message, x: Message)
    requires Table(ms + [m]) && x in ms
    ensures Below(KeyOf(x), KeyOf(m)) || Below(KeyOf(m), KeyOf(x))
  {
    var more := ms + [m];
    var i :| 0 <= i < |ms| && ms[i] == x;
    assert more[i].id != more[|ms|].id;
  }

  /** A row older than a full page leaves the page as it is. */
  lemma {:induction false} Kept(ms: seq<Message>, m: Message, conversation: int, before: Option<Key>, n: nat)
    requires n == |Page(ms, conversation, before, n)|
    requires forall x :: x in Page(ms, conversation, before, n) ==> Below(KeyOf(m), KeyOf(x))
    ensures Page(ms + [m], conversation, before, n) == Page(ms, conversation, before, n)
    decreases n
  {
    if n > 0 {
      var first := Newest(ms, conversation, before, |ms|).value;
      var rest := Page(ms, conversation, Some(KeyOf(first)), n - 1);
      assert Page(ms, conversation, before, n) == [first] + rest;
      assert Below(KeyOf(m), KeyOf(first));
      SameNewest(ms, m, conversation, before, before, |ms|);
      assert (ms + [m])[|ms|] == m;
      Kept(ms, m, conversation, Some(KeyOf(first)), n - 1);
    }
  }

  lemma {:induction false} PagePrefix(ms: seq<Message>, conversation: int, before: Option<Key>, a: nat, b: nat)
    requires a <= b
    ensures var p, q := Page(ms, conversation, before, a), Page(ms, conversation, before, b);
      |p| <= |q| && p == q[..|p|]
    decreases a
  {
    var first := Newest(ms, conversation, before, |ms|);
    if a > 0 && first.Some? { PagePrefix(ms, conversation, Some(KeyOf(first.value)), a - 1, b - 1); }
  }

  ghost predicate Repeats(first: seq<Message>, second: seq<Message>) {
    exists x :: x in first && x in second
  }

  /** The arrival belongs on the first page: its last row begins the second page as well. */
  lemma OffsetRepeats(ms: seq<Message>, m: Message, conversation: int, limit: nat)
    requires Table(ms + [m]) && 0 < limit == |Listed(ms, conversation, limit, 0, None)|
    requires m.conversation == conversation
    requires Below(KeyOf(Listed(ms, conversation, limit, 0, None)[limit - 1]), KeyOf(m))
    ensures var second := Listed(ms + [m], conversation, limit, limit, None);
      second != [] && second[0] == Listed(ms, conversation, limit, 0, None)[limit - 1]
  {
    PushedDown(ms, m, conversation, None, limit);
    PagePrefix(ms + [m], conversation, None, limit + 1, limit + limit);
  }

  lemma FirstPageKept(ms: seq<Message>, m: Message, conversation: int, limit: nat)
    requires Table(ms + [m]) && 0 < limit == |Page(ms, conversation, None, limit)|
    requires m.conversation == conversation ==> !Below(KeyOf(Page(ms, conversation, None, limit)[limit - 1]), KeyOf(m))
    ensures Page(ms + [m], conversation, None, limit) == Page(ms, conversation, None, limit)
  {
    var first := Page(ms, conversation, None, limit);
    TablePrefix(ms, m);
    PageIs(ms, conversation, None, limit);
    if m.conversation == conversation {
      assert first[limit - 1] in ms;
      DifferentKeys(ms, m, first[limit - 1]);
      forall x | x in first ensures Below(KeyOf(m), KeyOf(x)) {
        var i :| 0 <= i < limit && first[i] == x;
        assert i < limit - 1 ==> Below(KeyOf(first[limit - 1]), KeyOf(first[i]));
      }
      Kept(ms, m, conversation, None, limit);
    } else {
      SamePage(ms, m, conversation, None, limit);
    }
  }

  lemma DecreasingNeverRepeats(all: seq<Message>, n: nat)
    requires Decreasing(all) && n <= |all|
    ensures !Repeats(all[..n], all[n..])
  {
    forall x | x in all[..n] ensures x !in all[n..] {
      var i :| 0 <= i < n && all[i] == x;
      forall j | 0 <= j < |all| - n ensures all[n..][j] != x {
        assert Below(KeyOf(all[n + j]), KeyOf(all[i]));
      }
    }
  }

  /** It does not: the first page is unchanged and the second continues below it. */
  lemma OffsetContinues(ms: seq<Message>, m: Message, conversation: int, limit: nat)
    requires Table(ms + [m]) && 0 < limit == |Listed(ms, conversation, limit, 0, None)|
    requires m.conversation == conversation ==>
      !Below(KeyOf(Listed(ms, conversation, limit, 0, None)[limit - 1]), KeyOf(m))
    ensures !Repeats(Listed(ms, conversation, limit, 0, None), Listed(ms + [m], conversation, limit, limit, None))
  {
    var all := Page(ms + [m], conversation, None, limit + limit);
    var first := Page(ms, conversation, None, limit);
    assert limit <= |all| && all[..limit] == first by {
      FirstPageKept(ms, m, conversation, limit);
      PagePrefix(ms + [m], conversation, None, limit, limit + limit);
    }
    assert Decreasing(all) by { PageIs(ms + [m], conversation, None, limit + limit); }
    DecreasingNeverRepeats(all, limit);
  }

  lemma TablePrefix(ms: seq<Message>, m: Message)
    requires Table(ms + [m])
    ensures Table(ms)
  {
    forall i, j | 0 <= i < j < |ms| ensures ms[i].id != ms[j].id {
      assert (ms + [m])[i].id != (ms + [m])[j].id;
    }
  }

  /** After one arrival behind a full first page, the second repeats a row exactly when the arrival belongs on the first. */
  lemma OffsetRepeatsIff(ms: seq<Message>, m: Message, conversation: int, limit: nat)
    requires Table(ms + [m]) && 0 < limit == |Listed(ms, conversation, limit, 0, None)|
    ensures var first := Listed(ms, conversation, limit, 0, None);
      Repeats(first, Listed(ms + [m], conversation, limit, limit, None)) <==>
        m.conversation == conversation && Below(KeyOf(first[limit - 1]), KeyOf(m))
  {
    var first := Listed(ms, conversation, limit, 0, None);
    if m.conversation == conversation && Below(KeyOf(first[limit - 1]), KeyOf(m)) {
      OffsetRepeats(ms, m, conversation, limit);
      assert first[limit - 1] in first && first[limit - 1] in Listed(ms + [m], conversation, limit, limit, None);
    } else {
      OffsetContinues(ms, m, conversation, limit);
    }
  }
}
