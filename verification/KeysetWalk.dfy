/**
 Keyset pagination of the errors and v2 observations routes: each page carries a
 cursor naming its last row, and the next request selects what comes after it in
 (start_time, id) descending order.
 */
module KeysetWalk {
  import opened Options
  import opened Orders
  import opened Texts

  datatype Key = Key(time: string, id: string)

  /** A project's rows: the start time of each id. */
  type Table = map<string, string>

  /** `ORDER BY start_time DESC, id DESC` lists `a` before `b`. */
  predicate Comes(a: Key, b: Key) {
    TextLess(b.time, a.time) || (a.time == b.time && TextLess(b.id, a.id))
  }

  function KeyIn(table: Table): string -> Key {
    id => Key(if id in table then table[id] else "", id)
  }

  /** The WHERE clause: the filters, and strictly after the cursor if there is one. */
  ghost function Selected(table: Table, matches: string -> bool, cursor: Option<Key>): set<string> {
    set id | id in table && matches(id) && (cursor.Some? ==> Comes(cursor.value, KeyIn(table)(id)))
  }

  ghost function Sorted(table: Table, matches: string -> bool, cursor: Option<Key>): seq<string> {
    OrderBy(Comes, KeyIn(table), Selected(table, matches, cursor))
  }

  /** A response: the page and the cursor sent along; or a 400; or no request because the walk is over. */
  datatype Reply = Rows(ids: seq<string>, cursor: Option<Key>) | BadCursor | Over

  /** `LIMIT n` */
  function Head<T>(s: seq<T>, n: nat): seq<T> {
    if n <= |s| then s[..n] else s
  }

  function Tail<T>(s: seq<T>, n: nat): seq<T> {
    if n <= |s| then s[n..] else []
  }

  /** One request. */
  ghost function Fetch(table: Table, matches: string -> bool, limit: nat, cursor: Option<Key>): Reply {
    Probe(table, Sorted(table, matches, cursor), limit)
  }

  /** Of what is selected read `limit + 1` rows, keep `limit`, and name the last one if there are more. */
  ghost function Probe(table: Table, listing: seq<string>, limit: nat): Reply {
    var rows := Head(listing, limit + 1);
    var hasMore := |rows| > limit;
    var ids := if hasMore then rows[..limit] else rows;
    Rows(ids, if hasMore && |ids| > 0 then Some(KeyIn(table)(ids[|ids| - 1])) else None)
  }

  /** What a request sees of a cursor that was sent for a row: nothing if it is refused. */
  type Codec = Key -> Option<Key>

  /** errors.ts: the stored values, refused when one of them is empty. */
  function ErrorsCursor(): Codec {
    (k: Key) => if k.time != "" && k.id != "" then Some(k) else None
  }

  /** `toDateStr`: a time without fractional seconds gets six zeros. */
  function ToDateStr(time: string, now: string): string {
    if time == "" then now else if '.' in time then time else time + ".000000"
  }

  /** observations-v2.ts: the time as the response shows it. `now` stands for the clock. */
  function ObservationsCursor(now: string): Codec {
    (k: Key) => var time := ToDateStr(k.time, now); if time != "" && k.id != "" then Some(Key(time, k.id)) else None
  }

  /** The reply to the request after `reply`, if a cursor was sent. */
  ghost function Next(codec: Codec, table: Table, matches: string -> bool, limit: nat, reply: Reply): Reply {
    if !reply.Rows? || reply.cursor.None? then Over
    else if codec(reply.cursor.value).None? then BadCursor
    else Fetch(table, matches, limit, codec(reply.cursor.value))
  }

  /** The reply to request number `k` of a client that follows cursors. */
  ghost function Nth(codec: Codec, table: Table, matches: string -> bool, limit: nat, k: nat): Reply
    decreases k
  {
    if k == 0 then Fetch(table, matches, limit, None)
    else Next(codec, table, matches, limit, Nth(codec, table, matches, limit, k - 1))
  }

  function Shown(reply: Reply): seq<string> {
    if reply.Rows? then reply.ids else []
  }

  /** The rows of the first `n` replies, one after the other. */
  ghost function Walked(codec: Codec, table: Table, matches: string -> bool, limit: nat, n: nat): seq<string> {
    Concat(seq(n, k requires 0 <= k < n => Shown(Nth(codec, table, matches, limit, k))))
  }

  /** A cursor for this row comes back as it was. */
  predicate Faithful(codec: Codec, k: Key) {
    codec(k) == Some(k)
  }

  /** Whether request `k` follows a full page. */
  ghost predicate Continues(table: Table, matches: string -> bool, limit: nat, k: nat) {
    k >= 1 && Start(limit, k) < |Sorted(table, matches, None)|
  }

  /** The last row of the page before request `k`. */
  ghost function Boundary(table: Table, matches: string -> bool, limit: nat, k: nat): Key {
    KeyIn(table)(LastOfPages(Sorted(table, matches, None), limit, k))
  }

  /** The page before request `k`, if it is full, ends with a row whose cursor is faithful. */
  ghost predicate FaithfulPage(codec: Codec, table: Table, matches: string -> bool, limit: nat, k: nat) {
    Continues(table, matches, limit, k) ==> Faithful(codec, Boundary(table, matches, limit, k))
  }

  ghost predicate FaithfulPages(codec: Codec, table: Table, matches: string -> bool, limit: nat, before: nat) {
    forall n :: 1 <= n <= before ==> FaithfulPage(codec, table, matches, limit, n)
  }

  /** How many rows `n` full pages hold. */
  function Start(limit: nat, n: nat): nat {
    if n == 0 then 0 else Start(limit, n - 1) + limit
  }

  lemma {:induction false} StartIsProduct(limit: nat, n: nat)
    ensures Start(limit, n) == n * limit
  {
    if n > 0 { StartIsProduct(limit, n - 1); }
  }

  lemma {:induction false} StartGrows(limit: nat, m: nat, n: nat)
    requires m <= n
    ensures Start(limit, m) <= Start(limit, n)
  {
    if m < n { StartGrows(limit, m, n - 1); }
  }

  /** The last row of the first `n` full pages. */
  function LastOfPages(all: seq<string>, limit: nat, n: nat): string {
    if 0 < Start(limit, n) <= |all| then all[Start(limit, n) - 1] else ""
  }

  // ---- The order --------------------------------------------------------------------

  lemma ComesStrictTotal()
    ensures StrictTotal(Comes)
  {
    TextLessStrictTotal();
  }

  lemma ComesAsymmetric(a: Key, b: Key)
    requires Comes(a, b)
    ensures !Comes(b, a) && a != b
  {
    ComesStrictTotal();
  }

  lemma KeysAreInjective(table: Table)
    ensures Injective(KeyIn(table))
  {
    forall x, y | KeyIn(table)(x) == KeyIn(table)(y) ensures x == y {
      assert KeyIn(table)(x).id == x && KeyIn(table)(y).id == y;
    }
  }

  lemma SortedIs(table: Table, matches: string -> bool, cursor: Option<Key>)
    ensures Ascending(Comes, KeyIn(table), Sorted(table, matches, cursor))
    ensures forall id :: id in Sorted(table, matches, cursor) <==> id in Selected(table, matches, cursor)
  {
    ComesStrictTotal();
    KeysAreInjective(table);
    OrderBySorts(Comes, KeyIn(table), Selected(table, matches, cursor));
  }

  lemma NotBefore(table: Table, all: seq<string>, i: nat, n: nat)
    requires Ascending(Comes, KeyIn(table), all) && i < |all| && 0 < n <= |all|
    requires Comes(KeyIn(table)(all[n - 1]), KeyIn(table)(all[i]))
    ensures i >= n
  {
    ComesAsymmetric(KeyIn(table)(all[n - 1]), KeyIn(table)(all[i]));
  }

  /** What comes after the n-th row is the rest of the listing. */
  lemma AfterRow(table: Table, matches: string -> bool, n: nat)
    requires 0 < n <= |Sorted(table, matches, None)|
    ensures Sorted(table, matches, Some(KeyIn(table)(Sorted(table, matches, None)[n - 1])))
         == Sorted(table, matches, None)[n..]
  {
    var all := Sorted(table, matches, None);
    var key := KeyIn(table);
    var cursor := Some(key(all[n - 1]));
    ComesStrictTotal();
    SortedIs(table, matches, None);
    SortedIs(table, matches, cursor);
    var rest := all[n..];
    forall id ensures id in rest <==> id in Sorted(table, matches, cursor) {
      if id in rest {
        var j :| 0 <= j < |rest| && rest[j] == id;
        assert all[n + j] == id;
        assert Comes(key(all[n - 1]), key(all[n + j]));
        assert id in all;
      }
      if id in Selected(table, matches, cursor) {
        assert id in Selected(table, matches, None);
        var i :| 0 <= i < |all| && all[i] == id;
        NotBefore(table, all, i, n);
        assert rest[i - n] == id;
      }
    }
    AscendingIsUnique(Comes, key, Sorted(table, matches, cursor), rest);
  }

  // ---- The walk ---------------------------------------------------------------------

  /** The reply that shows the page of `all` at `offset`. */
  ghost function PageAt(table: Table, all: seq<string>, limit: nat, offset: nat): Reply
    requires limit >= 1
  {
    Rows(Head(Tail(all, offset), limit), if offset + limit < |all| then Some(KeyIn(table)(all[offset + limit - 1])) else None)
  }

  /** The reply a correct walk gives to request `k`. */
  ghost function Expected(table: Table, matches: string -> bool, limit: nat, k: nat): Reply
    requires limit >= 1
  {
    if k > 0 && !Continues(table, matches, limit, k) then Over
    else PageAt(table, Sorted(table, matches, None), limit, Start(limit, k))
  }

  lemma FetchRest(table: Table, matches: string -> bool, limit: nat, offset: nat, cursor: Option<Key>)
    requires limit >= 1 && offset <= |Sorted(table, matches, None)|
    requires Sorted(table, matches, cursor) == Sorted(table, matches, None)[offset..]
    ensures Fetch(table, matches, limit, cursor) == PageAt(table, Sorted(table, matches, None), limit, offset)
  {
    ProbeRest(table, Sorted(table, matches, None), limit, offset);
  }

  lemma ProbeRest(table: Table, all: seq<string>, limit: nat, offset: nat)
    requires limit >= 1 && offset <= |all|
    ensures Probe(table, all[offset..], limit) == PageAt(table, all, limit, offset)
  {
    var rest := all[offset..];
    if |rest| > limit {
      assert rest[..limit + 1][..limit] == rest[..limit];
      assert rest[limit - 1] == all[offset + limit - 1];
    }
  }

  /** The request after page `k - 1`. */
  lemma NextReply(codec: Codec, table: Table, matches: string -> bool, limit: nat, k: nat)
    requires limit >= 1 && k >= 1
    requires Nth(codec, table, matches, limit, k - 1) == Expected(table, matches, limit, k - 1)
    ensures Nth(codec, table, matches, limit, k)
         == if !Continues(table, matches, limit, k) then Over
            else if codec(Boundary(table, matches, limit, k)).None? then BadCursor
            else Fetch(table, matches, limit, codec(Boundary(table, matches, limit, k)))
  {
    hide Sorted, Fetch, Head, Tail;
    assert Start(limit, k) == Start(limit, k - 1) + limit;
  }

  lemma FetchBoundary(table: Table, matches: string -> bool, limit: nat, k: nat)
    requires limit >= 1 && Continues(table, matches, limit, k)
    ensures Fetch(table, matches, limit, Some(Boundary(table, matches, limit, k))) == Expected(table, matches, limit, k)
  {
    hide Sorted, Fetch;
    AfterRow(table, matches, Start(limit, k));
    FetchRest(table, matches, limit, Start(limit, k), Some(Boundary(table, matches, limit, k)));
  }

  lemma FetchFirst(codec: Codec, table: Table, matches: string -> bool, limit: nat)
    requires limit >= 1
    ensures Nth(codec, table, matches, limit, 0) == Expected(table, matches, limit, 0)
  {
    assert Sorted(table, matches, None)[0..] == Sorted(table, matches, None);
    FetchRest(table, matches, limit, 0, None);
  }

  /** As long as cursors come back as they were sent, reply `k` is page `k` of the listing. */
  lemma {:induction false} NthIsPage(codec: Codec, table: Table, matches: string -> bool, limit: nat, k: nat)
    requires limit >= 1 && FaithfulPages(codec, table, matches, limit, k)
    ensures Nth(codec, table, matches, limit, k) == Expected(table, matches, limit, k)
    decreases k
  {
    hide Sorted, Fetch;
    if k == 0 {
      FetchFirst(codec, table, matches, limit);
    } else {
      NthIsPage(codec, table, matches, limit, k - 1);
      NextReply(codec, table, matches, limit, k);
      assert FaithfulPage(codec, table, matches, limit, k);
      if Continues(table, matches, limit, k) { FetchBoundary(table, matches, limit, k); }
    }
  }

  lemma NthShows(codec: Codec, table: Table, matches: string -> bool, limit: nat, k: nat)
    requires limit >= 1 && FaithfulPages(codec, table, matches, limit, k)
    ensures Shown(Nth(codec, table, matches, limit, k)) == Head(Tail(Sorted(table, matches, None), Start(limit, k)), limit)
  {
    NthIsPage(codec, table, matches, limit, k);
    ExpectedRows(table, matches, limit, k);
  }

  lemma ExpectedRows(table: Table, matches: string -> bool, limit: nat, k: nat)
    requires limit >= 1
    ensures Shown(Expected(table, matches, limit, k))
         == Head(Tail(Sorted(table, matches, None), Start(limit, k)), limit)
  {
  }

  ghost predicate ArePages(all: seq<string>, limit: nat, pages: seq<seq<string>>) {
    forall k :: 0 <= k < |pages| ==> pages[k] == Head(Tail(all, Start(limit, k)), limit)
  }

  lemma FewerPages(all: seq<string>, limit: nat, pages: seq<seq<string>>)
    requires ArePages(all, limit, pages) && pages != []
    ensures ArePages(all, limit, pages[..|pages| - 1])
    ensures pages[|pages| - 1] == Head(Tail(all, Start(limit, |pages| - 1)), limit)
  {
    hide Start, Head, Tail;
  }

  /** Consecutive slices join to a prefix. */
  lemma {:induction false} ConcatPages(all: seq<string>, limit: nat, pages: seq<seq<string>>)
    requires ArePages(all, limit, pages)
    ensures Concat(pages) == Head(all, Start(limit, |pages|))
  {
    if pages == [] {
      assert all[..0] == [];
    } else {
      hide Start, Head, Tail, ArePages;
      var n := |pages| - 1;
      FewerPages(all, limit, pages);
      ConcatPages(all, limit, pages[..n]);
      HeadExtends(all, limit, Start(limit, n));
      StartNext(limit, n);
    }
  }

  lemma StartNext(limit: nat, n: nat)
    ensures Start(limit, n + 1) == Start(limit, n) + limit
  {
  }

  lemma WalkedIsAll(codec: Codec, table: Table, matches: string -> bool, limit: nat, n: nat)
    requires limit >= 1 && n >= 1 && FaithfulPages(codec, table, matches, limit, n)
    requires !Continues(table, matches, limit, n)
    ensures Walked(codec, table, matches, limit, n) == Sorted(table, matches, None)
  {
    var pages := seq(n, k requires 0 <= k < n => Shown(Nth(codec, table, matches, limit, k)));
    forall k | 0 <= k < n ensures pages[k] == Head(Tail(Sorted(table, matches, None), Start(limit, k)), limit) {
      NthShows(codec, table, matches, limit, k);
    }
    ConcatPages(Sorted(table, matches, None), limit, pages);
  }

  lemma HeadExtends<T>(s: seq<T>, limit: nat, offset: nat)
    ensures Head(s, offset) + Head(Tail(s, offset), limit) == Head(s, offset + limit)
  {
  }

  /**
   Following cursors ends, after as many requests as the listing has pages, with
   every matching row listed exactly once in (start_time, id) descending order.
   */
  lemma WalkListsAllOnce(codec: Codec, table: Table, matches: string -> bool, limit: nat, n: nat)
    requires limit >= 1 && n >= 1 && FaithfulPages(codec, table, matches, limit, n)
    requires !Continues(table, matches, limit, n) && (n > 1 ==> Continues(table, matches, limit, n - 1))
    ensures Nth(codec, table, matches, limit, n - 1).Rows? && Nth(codec, table, matches, limit, n - 1).cursor == None
    ensures Nth(codec, table, matches, limit, n) == Over
    ensures forall k :: 0 <= k < n - 1 ==> Nth(codec, table, matches, limit, k).Rows? && Nth(codec, table, matches, limit, k).cursor.Some?
    ensures Ascending(Comes, KeyIn(table), Walked(codec, table, matches, limit, n))
    ensures forall id :: id in Walked(codec, table, matches, limit, n) <==> id in table && matches(id)
  {
    hide Sorted;
    WalkedIsAll(codec, table, matches, limit, n);
    SortedIs(table, matches, None);
    WalkEnds(codec, table, matches, limit, n);
    FullPages(codec, table, matches, limit, n);
  }

  /** Later times come first, and of rows with the same time the greater id. */
  predicate IsListedBefore(table: Table, a: string, b: string) {
    && a in table && b in table
    && if table[a] == table[b] then TextLess(b, a) else TextLess(table[b], table[a])
  }

  /** The rows in the order in which the walk shows them. */
  lemma WalkIsNewestFirst(codec: Codec, table: Table, matches: string -> bool, limit: nat, n: nat)
    requires limit >= 1 && n >= 1 && FaithfulPages(codec, table, matches, limit, n)
    requires !Continues(table, matches, limit, n) && (n > 1 ==> Continues(table, matches, limit, n - 1))
    ensures var rows := Walked(codec, table, matches, limit, n);
            forall i, j :: 0 <= i < j < |rows| ==> IsListedBefore(table, rows[i], rows[j])
  {
    hide Walked, Nth, TextLess, Continues, FaithfulPages;
    WalkListsAllOnce(codec, table, matches, limit, n);
    var rows := Walked(codec, table, matches, limit, n);
    forall i, j | 0 <= i < j < |rows| ensures IsListedBefore(table, rows[i], rows[j]) {
      assert rows[i] in rows && rows[j] in rows;
      assert Comes(KeyIn(table)(rows[i]), KeyIn(table)(rows[j]));
      TextLessIrreflexive(table[rows[i]]);
    }
  }

  /** Every page that is followed by another is full, and its cursor names its last row. */
  lemma FullPageIs(codec: Codec, table: Table, matches: string -> bool, limit: nat, k: nat)
    requires limit >= 1 && FaithfulPages(codec, table, matches, limit, k) && Continues(table, matches, limit, k + 1)
    ensures var reply := Nth(codec, table, matches, limit, k);
            && reply.Rows? && |reply.ids| == limit && reply.cursor.Some?
            && var id := reply.ids[limit - 1]; id in table && reply.cursor == Some(Key(table[id], id))
  {
    hide Sorted, Fetch, Nth;
    NthIsPage(codec, table, matches, limit, k);
    BoundaryIsRow(table, matches, limit, k + 1);
    assert Start(limit, k + 1) == Start(limit, k) + limit;
  }

  lemma WalkEnds(codec: Codec, table: Table, matches: string -> bool, limit: nat, n: nat)
    requires limit >= 1 && n >= 1 && FaithfulPages(codec, table, matches, limit, n)
    requires !Continues(table, matches, limit, n) && (n > 1 ==> Continues(table, matches, limit, n - 1))
    ensures Nth(codec, table, matches, limit, n - 1).Rows? && Nth(codec, table, matches, limit, n - 1).cursor == None
    ensures Nth(codec, table, matches, limit, n) == Over
  {
    hide Sorted, Fetch;
    LastReply(codec, table, matches, limit, n);
    NthIsPage(codec, table, matches, limit, n);
  }

  lemma LastReply(codec: Codec, table: Table, matches: string -> bool, limit: nat, n: nat)
    requires limit >= 1 && n >= 1 && FaithfulPages(codec, table, matches, limit, n - 1)
    requires !Continues(table, matches, limit, n) && (n > 1 ==> Continues(table, matches, limit, n - 1))
    ensures Nth(codec, table, matches, limit, n - 1).Rows? && Nth(codec, table, matches, limit, n - 1).cursor == None
  {
    hide Sorted, Fetch, Nth;
    LastPage(table, matches, limit, n);
    NthIsPage(codec, table, matches, limit, n - 1);
  }

  lemma FullPages(codec: Codec, table: Table, matches: string -> bool, limit: nat, n: nat)
    requires limit >= 1 && n >= 1 && FaithfulPages(codec, table, matches, limit, n)
    requires n > 1 ==> Continues(table, matches, limit, n - 1)
    ensures forall k :: 0 <= k < n - 1 ==> Nth(codec, table, matches, limit, k).Rows? && Nth(codec, table, matches, limit, k).cursor.Some?
  {
    hide Sorted, Fetch, Nth;
    forall k | 0 <= k < n - 1
      ensures Nth(codec, table, matches, limit, k).Rows? && Nth(codec, table, matches, limit, k).cursor.Some?
    {
      NthIsPage(codec, table, matches, limit, k);
      FullPage(table, matches, limit, k, n);
    }
  }

  lemma LastPage(table: Table, matches: string -> bool, limit: nat, n: nat)
    requires limit >= 1 && n >= 1
    requires !Continues(table, matches, limit, n) && (n > 1 ==> Continues(table, matches, limit, n - 1))
    ensures Expected(table, matches, limit, n - 1).Rows? && Expected(table, matches, limit, n - 1).cursor == None
    ensures Expected(table, matches, limit, n) == Over
  {
    assert Start(limit, n) == Start(limit, n - 1) + limit;
  }

  lemma FullPage(table: Table, matches: string -> bool, limit: nat, k: nat, n: nat)
    requires limit >= 1 && k + 1 < n && Continues(table, matches, limit, n - 1)
    ensures Expected(table, matches, limit, k).Rows? && Expected(table, matches, limit, k).cursor.Some?
  {
    StartGrows(limit, k + 1, n - 1);
    assert Start(limit, k + 1) == Start(limit, k) + limit;
  }

  /** There is such a number of requests, for every listing. */
  lemma {:induction false} PagesNeeded(table: Table, matches: string -> bool, limit: nat, from: nat) returns (n: nat)
    requires limit >= 1 && (from == 0 || Continues(table, matches, limit, from))
    ensures n >= 1 && !Continues(table, matches, limit, n) && (n > 1 ==> Continues(table, matches, limit, n - 1))
    decreases |Sorted(table, matches, None)| - Start(limit, from)
  {
    assert Start(limit, from + 1) == Start(limit, from) + limit;
    if Continues(table, matches, limit, from + 1) {
      n := PagesNeeded(table, matches, limit, from + 1);
    } else {
      n := from + 1;
    }
  }

  /** errors.ts: a walk over rows with non-empty times and ids is never refused. */
  lemma ErrorsWalk(table: Table, matches: string -> bool, limit: nat, n: nat)
    requires limit >= 1 && forall id :: id in table ==> id != "" && table[id] != ""
    ensures FaithfulPages(ErrorsCursor(), table, matches, limit, n)
  {
    RowsAreFaithful(ErrorsCursor(), table, matches, limit, n);
  }

  /** observations-v2.ts: the same where stored times carry fractional seconds. */
  lemma ObservationsWalk(now: string, table: Table, matches: string -> bool, limit: nat, n: nat)
    requires limit >= 1 && forall id :: id in table ==> id != "" && '.' in table[id]
    ensures FaithfulPages(ObservationsCursor(now), table, matches, limit, n)
  {
    RowsAreFaithful(ObservationsCursor(now), table, matches, limit, n);
  }

  lemma RowsAreFaithful(codec: Codec, table: Table, matches: string -> bool, limit: nat, n: nat)
    requires limit >= 1 && forall id :: id in table ==> Faithful(codec, KeyIn(table)(id))
    ensures FaithfulPages(codec, table, matches, limit, n)
  {
    forall m | 1 <= m <= n ensures FaithfulPage(codec, table, matches, limit, m) {
      if Continues(table, matches, limit, m) { BoundaryIsRow(table, matches, limit, m); }
    }
  }

  lemma BoundaryIsRow(table: Table, matches: string -> bool, limit: nat, k: nat)
    requires limit >= 1 && Continues(table, matches, limit, k)
    ensures Boundary(table, matches, limit, k).id in table
    ensures Boundary(table, matches, limit, k).time == table[Boundary(table, matches, limit, k).id]
  {
    SortedIs(table, matches, None);
    assert Start(limit, k) == Start(limit, k - 1) + limit;
    assert Sorted(table, matches, None)[Start(limit, k) - 1] in Sorted(table, matches, None);
  }

  // ---- Where the walk goes wrong ------------------------------------------------------

  lemma {:induction false} LongerIsGreater(a: string, b: string)
    requires b != []
    ensures TextLess(a, a + b)
  {
    if a != [] {
      LongerIsGreater(a[1..], b);
      assert (a + b)[1..] == a[1..] + b;
    }
  }

  /** A cursor that lies before the row it was made for selects that row once more. */
  lemma RepeatedRow(table: Table, matches: string -> bool, limit: nat, n: nat, seen: Key)
    requires limit >= 1 && 0 < n < |Sorted(table, matches, None)|
    requires Comes(seen, KeyIn(table)(Sorted(table, matches, None)[n - 1]))
    ensures Fetch(table, matches, limit, Some(seen)).ids != []
    ensures Fetch(table, matches, limit, Some(seen)).ids[0] != Sorted(table, matches, None)[n]
  {
    var all := Sorted(table, matches, None);
    var key := KeyIn(table);
    SortedIs(table, matches, None);
    SortedIs(table, matches, Some(seen));
    ComesStrictTotal();
    var again := Sorted(table, matches, Some(seen));
    assert all[n - 1] in all;
    assert all[n - 1] in again;
    var i :| 0 <= i < |again| && again[i] == all[n - 1];
    assert i > 0 ==> Comes(key(again[0]), key(again[i]));
    assert Comes(key(all[n - 1]), key(all[n]));
  }

  /** A row whose cursor observations-v2.ts gives back as it was. */
  predicate HasFraction(k: Key) {
    k.id != "" && '.' in k.time
  }

  /**
   observations-v2.ts answers a following request with the right page exactly when
   the previous page's last row has an id and fractional seconds.
   */
  lemma ObservationsPageIff(now: string, table: Table, matches: string -> bool, limit: nat, k: nat)
    requires now != "" && limit >= 1 && Continues(table, matches, limit, k)
    requires FaithfulPages(ObservationsCursor(now), table, matches, limit, k - 1)
    ensures Nth(ObservationsCursor(now), table, matches, limit, k) == Expected(table, matches, limit, k)
       <==> HasFraction(Boundary(table, matches, limit, k))
  {
    hide Sorted, Fetch, Expected, Boundary, ToDateStr;
    var last := Boundary(table, matches, limit, k);
    NthIsPage(ObservationsCursor(now), table, matches, limit, k - 1);
    NextReply(ObservationsCursor(now), table, matches, limit, k);
    ExpectedHasRows(table, matches, limit, k);
    SeenCursor(now, last);
    if '.' in last.time {
      FetchBoundary(table, matches, limit, k);
    } else {
      ShiftedCursor(table, matches, limit, k, ToDateStr(last.time, now));
    }
  }

  /** What observations-v2.ts sees of its own cursor. */
  lemma SeenCursor(now: string, k: Key)
    requires now != ""
    ensures ObservationsCursor(now)(k) == if k.id == "" then None else Some(Key(ToDateStr(k.time, now), k.id))
    ensures if '.' in k.time then ToDateStr(k.time, now) == k.time else TextLess(k.time, ToDateStr(k.time, now))
  {
    if '.' !in k.time { ShownIsLater(k.time, now); }
  }

  /** Without fractional seconds, or without any time at all, the time shown is later than the stored one. */
  lemma ShownIsLater(time: string, now: string)
    requires now != "" && '.' !in time
    ensures TextLess(time, ToDateStr(time, now))
  {
    LongerIsGreater(time, if time == "" then now else ".000000");
    assert "" + now == now;
  }

  lemma ShiftedCursor(table: Table, matches: string -> bool, limit: nat, k: nat, time: string)
    requires limit >= 1 && Continues(table, matches, limit, k)
    requires TextLess(Boundary(table, matches, limit, k).time, time)
    ensures Fetch(table, matches, limit, Some(Key(time, Boundary(table, matches, limit, k).id))) != Expected(table, matches, limit, k)
  {
    hide Sorted, Fetch;
    assert Start(limit, k) == Start(limit, k - 1) + limit;
    RepeatedRow(table, matches, limit, Start(limit, k), Key(time, Boundary(table, matches, limit, k).id));
  }

  /** The whole walk is right exactly when every page that is followed by another ends well. */
  lemma ObservationsWalkIff(now: string, table: Table, matches: string -> bool, limit: nat)
    requires now != "" && limit >= 1
    ensures (forall k: nat :: Nth(ObservationsCursor(now), table, matches, limit, k) == Expected(table, matches, limit, k))
       <==> (forall k: nat :: Continues(table, matches, limit, k) ==> HasFraction(Boundary(table, matches, limit, k)))
  {
    if forall k: nat :: Nth(ObservationsCursor(now), table, matches, limit, k) == Expected(table, matches, limit, k) {
      forall k: nat | Continues(table, matches, limit, k) ensures HasFraction(Boundary(table, matches, limit, k)) {
        RightPagesEndWell(now, table, matches, limit, k);
      }
    }
    if forall k: nat :: Continues(table, matches, limit, k) ==> HasFraction(Boundary(table, matches, limit, k)) {
      forall k: nat ensures Nth(ObservationsCursor(now), table, matches, limit, k) == Expected(table, matches, limit, k) {
        NthIsPage(ObservationsCursor(now), table, matches, limit, k);
      }
    }
  }

  lemma {:induction false} RightPagesEndWell(now: string, table: Table, matches: string -> bool, limit: nat, k: nat)
    requires now != "" && limit >= 1 && Continues(table, matches, limit, k)
    requires forall n: nat :: Nth(ObservationsCursor(now), table, matches, limit, n) == Expected(table, matches, limit, n)
    ensures HasFraction(Boundary(table, matches, limit, k))
    decreases k
  {
    forall n | 1 <= n <= k - 1 ensures FaithfulPage(ObservationsCursor(now), table, matches, limit, n) {
      if Continues(table, matches, limit, n) { RightPagesEndWell(now, table, matches, limit, n); }
    }
    ObservationsPageIff(now, table, matches, limit, k);
  }

  /**
   A first page that begins and ends at the same time, stored without fractional
   seconds or as the empty text, is sent again for every following request: the walk never ends.
   */
  lemma {:induction false} SameSecondRepeats(now: string, table: Table, matches: string -> bool, limit: nat, k: nat)
    requires now != "" && limit >= 1 && Continues(table, matches, limit, 1)
    requires Boundary(table, matches, limit, 1).id != ""
    requires '.' !in Boundary(table, matches, limit, 1).time
    requires KeyIn(table)(Sorted(table, matches, None)[0]).time == Boundary(table, matches, limit, 1).time
    ensures Nth(ObservationsCursor(now), table, matches, limit, k) == Expected(table, matches, limit, 0)
    ensures Expected(table, matches, limit, 0).Rows? && Expected(table, matches, limit, 0).cursor.Some?
    decreases k
  {
    hide Sorted, Fetch;
    FirstPageAgain(now, table, matches, limit);
    FetchFirst(ObservationsCursor(now), table, matches, limit);
    if k > 0 {
      SameSecondRepeats(now, table, matches, limit, k - 1);
    }
  }

  lemma FirstPageAgain(now: string, table: Table, matches: string -> bool, limit: nat)
    requires now != "" && limit >= 1 && Continues(table, matches, limit, 1)
    requires Boundary(table, matches, limit, 1).id != ""
    requires '.' !in Boundary(table, matches, limit, 1).time
    requires KeyIn(table)(Sorted(table, matches, None)[0]).time == Boundary(table, matches, limit, 1).time
    ensures Expected(table, matches, limit, 0).Rows? && Expected(table, matches, limit, 0).cursor.Some?
    ensures Next(ObservationsCursor(now), table, matches, limit, Expected(table, matches, limit, 0)) == Expected(table, matches, limit, 0)
  {
    var last := Boundary(table, matches, limit, 1);
    assert Start(limit, 1) == Start(limit, 0) + limit;
    assert Expected(table, matches, limit, 0).cursor == Some(last);
    var seen := Key(ToDateStr(last.time, now), last.id);
    ShownIsLater(last.time, now);
    AllComeAfter(table, matches, seen);
    assert Selected(table, matches, Some(seen)) == Selected(table, matches, None);
    assert Sorted(table, matches, None)[0..] == Sorted(table, matches, None);
    FetchRest(table, matches, limit, 0, Some(seen));
  }

  /** A cursor later than the newest row selects everything. */
  lemma AllComeAfter(table: Table, matches: string -> bool, seen: Key)
    requires Sorted(table, matches, None) != []
    requires TextLess(KeyIn(table)(Sorted(table, matches, None)[0]).time, seen.time)
    ensures forall id :: id in Selected(table, matches, None) ==> Comes(seen, KeyIn(table)(id))
  {
    var all := Sorted(table, matches, None);
    var first := KeyIn(table)(all[0]);
    SortedIs(table, matches, None);
    forall id | id in Selected(table, matches, None) ensures Comes(seen, KeyIn(table)(id)) {
      var i :| 0 <= i < |all| && all[i] == id;
      assert i > 0 ==> Comes(first, KeyIn(table)(all[i]));
      if TextLess(KeyIn(table)(id).time, first.time) {
        TextLessTransitive(KeyIn(table)(id).time, first.time, seen.time);
      }
    }
  }

  lemma ExpectedHasRows(table: Table, matches: string -> bool, limit: nat, k: nat)
    requires limit >= 1 && Continues(table, matches, limit, k)
    ensures Expected(table, matches, limit, k).Rows?
  {
  }

  /** errors.ts answers a following request with the right page exactly when its last row has a time and an id. */
  lemma ErrorsPageIff(table: Table, matches: string -> bool, limit: nat, k: nat)
    requires limit >= 1 && Continues(table, matches, limit, k)
    requires FaithfulPages(ErrorsCursor(), table, matches, limit, k - 1)
    ensures Nth(ErrorsCursor(), table, matches, limit, k) == Expected(table, matches, limit, k)
       <==> Boundary(table, matches, limit, k).time != "" && Boundary(table, matches, limit, k).id != ""
    ensures Nth(ErrorsCursor(), table, matches, limit, k) == Expected(table, matches, limit, k)
         || Nth(ErrorsCursor(), table, matches, limit, k) == BadCursor
  {
    hide Sorted, Fetch, Expected, Boundary;
    NthIsPage(ErrorsCursor(), table, matches, limit, k - 1);
    NextReply(ErrorsCursor(), table, matches, limit, k);
    FetchBoundary(table, matches, limit, k);
    var last := Boundary(table, matches, limit, k);
    assert ErrorsCursor()(last) == if last.time != "" && last.id != "" then Some(last) else None;
    ExpectedHasRows(table, matches, limit, k);
  }
}
