/**
 The response cache: small bodies kept in order of use within fixed bounds, and one
 request in flight per key whose outcome settles everyone who waits for it. A step is
 one stretch of code between two awaits; steps of different requests interleave freely.
 */
module ResponseCache {

  const MAX_ENTRIES := 1024
  const MAX_BYTES := 32 * 1024 * 1024
  const MAX_ENTRY_BYTES := 1024 * 1024
  const MAX_INFLIGHT := 128
  const MAX_WAITERS := 64

  /** A response body: which request produced it, and its size. */
  datatype Body = Body(owner: nat, size: nat)

  datatype Entry = Entry(key: string, body: Body, expiresAt: int)

  /** The least recently used entry first. */
  type Cache = seq<Entry>

  datatype Pending = Pending(owner: nat, subscribers: set<nat>)

  datatype Phase = Owning | Waiting | Served(body: Body) | PassedOn | TurnedAway | GaveUp | Finished

  datatype Request = Request(key: string, phase: Phase)

  type Flights = map<string, Pending>

  type Requests = map<nat, Request>

  /** The cache and the running total of its bytes. */
  datatype Stock = Stock(entries: Cache, bytes: int)

  datatype State = State(stock: Stock, inflight: Flights, requests: Requests)

  // ---- The bounded cache --------------------------------------------------------------------

  ghost predicate DistinctKeys(c: Cache) {
    forall i, j :: 0 <= i < j < |c| ==> c[i].key != c[j].key
  }

  predicate Has(c: Cache, key: string) {
    exists i :: 0 <= i < |c| && c[i].key == key
  }

  function Total(c: Cache): nat {
    if c == [] then 0 else Total(c[..|c| - 1]) + c[|c| - 1].body.size
  }

  function Without(c: Cache, key: string): (r: Cache)
    ensures |r| <= |c|
  {
    if c == [] then []
    else Without(c[..|c| - 1], key) + if c[|c| - 1].key == key then [] else [c[|c| - 1]]
  }

  /** The entry of a key. */
  function Find(c: Cache, key: string): Entry
    requires Has(c, key)
  {
    if c[|c| - 1].key == key then c[|c| - 1] else Find(c[..|c| - 1], key)
  }

  lemma {:induction false} TotalAppends(a: Cache, b: Cache)
    ensures Total(a + b) == Total(a) + Total(b)
    decreases |b|
  {
    if b == [] {
      assert a + b == a;
    } else {
      assert (a + b)[..|a + b| - 1] == a + b[..|b| - 1];
      TotalAppends(a, b[..|b| - 1]);
    }
  }

  lemma {:induction false} WithoutAppends(a: Cache, b: Cache, key: string)
    ensures Without(a + b, key) == Without(a, key) + Without(b, key)
    decreases |b|
  {
    if b == [] {
      assert a + b == a;
    } else {
      assert (a + b)[..|a + b| - 1] == a + b[..|b| - 1];
      WithoutAppends(a, b[..|b| - 1], key);
    }
  }

  lemma {:induction false} WithoutAbsent(c: Cache, key: string)
    requires !Has(c, key)
    ensures Without(c, key) == c
  {
    if c != [] {
      assert c[|c| - 1].key != key;
      var init := c[..|c| - 1];
      forall i | 0 <= i < |init| ensures init[i].key != key { assert c[i].key != key; }
      WithoutAbsent(init, key);
    }
  }

  lemma {:induction false} FindAt(c: Cache, i: nat)
    requires i < |c| && DistinctKeys(c)
    ensures Has(c, c[i].key) && Find(c, c[i].key) == c[i]
    decreases |c|
  {
    assert Has(c, c[i].key);
    if i < |c| - 1 {
      assert c[..|c| - 1][i] == c[i];
      FindAt(c[..|c| - 1], i);
    }
  }

  lemma WithoutBetween(a: Cache, e: Entry, b: Cache)
    requires !Has(a, e.key) && !Has(b, e.key)
    ensures Without(a + [e] + b, e.key) == a + b
  {
    hide Has, Without;
    WithoutAbsent(a, e.key);
    WithoutAbsent(b, e.key);
    WithoutAppends(a + [e], b, e.key);
    WithoutAppends(a, [e], e.key);
    DropsItself(e);
  }

  lemma DropsItself(e: Entry)
    ensures Without([e], e.key) == [] && Total([e]) == e.body.size
  {
    assert [e][..0] == [];
  }

  lemma TotalBetween(a: Cache, e: Entry, b: Cache)
    ensures Total(a + b) == Total(a + [e] + b) - e.body.size
  {
    hide Total;
    TotalAppends(a + [e], b);
    TotalAppends(a, [e]);
    TotalAppends(a, b);
    DropsItself(e);
  }

  /** In a cache with distinct keys dropping a key removes just its one entry. */
  lemma WithoutOne(c: Cache, i: nat)
    requires i < |c| && DistinctKeys(c)
    ensures Without(c, c[i].key) == c[..i] + c[i + 1..]
    ensures Total(c[..i] + c[i + 1..]) == Total(c) - c[i].body.size
    ensures DistinctKeys(c[..i] + c[i + 1..]) && !Has(c[..i] + c[i + 1..], c[i].key)
  {
    hide Has, Without, Total, DistinctKeys;
    OthersDiffer(c, i);
    assert c == c[..i] + [c[i]] + c[i + 1..];
    WithoutBetween(c[..i], c[i], c[i + 1..]);
    TotalBetween(c[..i], c[i], c[i + 1..]);
  }

  lemma OthersDiffer(c: Cache, i: nat)
    requires i < |c| && DistinctKeys(c)
    ensures !Has(c[..i], c[i].key) && !Has(c[i + 1..], c[i].key)
    ensures DistinctKeys(c[..i] + c[i + 1..]) && !Has(c[..i] + c[i + 1..], c[i].key)
  {
    var key, r := c[i].key, c[..i] + c[i + 1..];
    forall k | 0 <= k < |r| ensures r[k] == c[if k < i then k else k + 1] && r[k].key != key {
    }
    forall k | 0 <= k < i ensures c[..i][k].key != key { assert r[k] == c[..i][k]; }
    var rest := c[i + 1..];
    forall k | 0 <= k < |rest| ensures rest[k].key != key { assert rest[k] == c[i + 1 + k]; }
  }

  // ---- dropEntry, makeRoom and the timer ---------------------------------------------------------

  function DropEntry(s: Stock, key: string): (r: Stock)
    ensures |r.entries| <= |s.entries|
  {
    if !Has(s.entries, key) then s
    else Stock(Without(s.entries, key), s.bytes - Find(s.entries, key).body.size)
  }

  /** The running total is right, and both bounds hold. */
  ghost predicate InBounds(s: Stock) {
    && DistinctKeys(s.entries)
    && s.bytes == Total(s.entries)
    && s.bytes <= MAX_BYTES
    && |s.entries| <= MAX_ENTRIES
  }

  lemma DroppedInBounds(s: Stock, key: string)
    requires InBounds(s)
    ensures InBounds(DropEntry(s, key)) && !Has(DropEntry(s, key).entries, key)
    ensures forall e :: e in DropEntry(s, key).entries <==> e in s.entries && e.key != key
    ensures Has(s.entries, key) ==> |DropEntry(s, key).entries| == |s.entries| - 1
  {
    if Has(s.entries, key) {
      var i :| 0 <= i < |s.entries| && s.entries[i].key == key;
      FindAt(s.entries, i);
      WithoutOne(s.entries, i);
    }
    WithoutMembers(s.entries, key);
  }

  lemma {:induction false} WithoutMembers(c: Cache, key: string)
    ensures forall e :: e in Without(c, key) <==> e in c && e.key != key
  {
    if c != [] {
      WithoutMembers(c[..|c| - 1], key);
      assert c == c[..|c| - 1] + [c[|c| - 1]];
    }
  }

  lemma DropOldest(s: Stock)
    requires InBounds(s) && s.entries != []
    ensures DropEntry(s, s.entries[0].key) == Stock(s.entries[1..], Total(s.entries[1..]))
    ensures InBounds(DropEntry(s, s.entries[0].key))
  {
    FindAt(s.entries, 0);
    WithoutOne(s.entries, 0);
    assert s.entries[..0] + s.entries[1..] == s.entries[1..];
  }

  predicate Full(s: Stock, more: nat) {
    s.entries != [] && (|s.entries| >= MAX_ENTRIES || s.bytes + more > MAX_BYTES)
  }

  /** `makeRoom` leaves the most recently used entries: the `n` oldest go. */
  function AfterOldest(s: Stock, n: nat): Stock
    requires n <= |s.entries|
  {
    Stock(s.entries[n..], Total(s.entries[n..]))
  }

  /** `makeRoom` */
  function Room(s: Stock, more: nat): Stock
    decreases |s.entries|
  {
    if Full(s, more) then Room(AfterOldest(s, 1), more) else s
  }

  /** It drops the least recently used entries, no more of them than needed, and then the new one fits. */
  lemma {:induction false} RoomFacts(s: Stock, more: nat) returns (n: nat)
    requires InBounds(s) && more <= MAX_ENTRY_BYTES
    ensures n <= |s.entries| && Room(s, more) == AfterOldest(s, n) && InBounds(Room(s, more))
    ensures |Room(s, more).entries| < MAX_ENTRIES && Room(s, more).bytes + more <= MAX_BYTES
    ensures forall m :: 0 <= m < n ==> Full(AfterOldest(s, m), more)
    decreases |s.entries|
  {
    hide InBounds, Full, AfterOldest, Total;
    NoneDropped(s);
    if Full(s, more) {
      OneDropped(s, more);
      var k := RoomFacts(AfterOldest(s, 1), more);
      n := k + 1;
      forall m | 0 < m <= n ensures AfterOldest(s, m) == AfterOldest(AfterOldest(s, 1), m - 1) {
        OldestAgain(s, m);
      }
    } else {
      n := 0;
      RoomEnough(s, more);
    }
  }

  lemma OneDropped(s: Stock, more: nat)
    requires InBounds(s) && Full(s, more)
    ensures s.entries != [] && InBounds(AfterOldest(s, 1)) && |AfterOldest(s, 1).entries| == |s.entries| - 1
  {
    DropOldest(s);
  }

  lemma RoomEnough(s: Stock, more: nat)
    requires InBounds(s) && !Full(s, more) && more <= MAX_ENTRY_BYTES
    ensures |s.entries| < MAX_ENTRIES && s.bytes + more <= MAX_BYTES
  {
  }

  lemma NoneDropped(s: Stock)
    requires InBounds(s)
    ensures AfterOldest(s, 0) == s
  {
    assert s.entries[0..] == s.entries;
  }

  lemma OldestAgain(s: Stock, m: nat)
    requires 0 < m <= |s.entries|
    ensures AfterOldest(s, m) == AfterOldest(AfterOldest(s, 1), m - 1)
  {
    assert s.entries[1..][m - 1..] == s.entries[m..];
  }

  /** The timer: drop what has expired, one entry after the other. */
  function Purged(s: Stock, all: Cache, now: int): Stock {
    if all == [] then s
    else
      var t := Purged(s, all[..|all| - 1], now);
      if all[|all| - 1].expiresAt <= now then DropEntry(t, all[|all| - 1].key) else t
  }

  lemma {:induction false} PurgedInBounds(s: Stock, all: Cache, now: int)
    requires InBounds(s)
    ensures InBounds(Purged(s, all, now))
    ensures forall e :: e in Purged(s, all, now).entries <==>
              e in s.entries && !(exists x :: x in all && x.key == e.key && x.expiresAt <= now)
  {
    if all != [] {
      var init, last := all[..|all| - 1], all[|all| - 1];
      PurgedInBounds(s, init, now);
      assert all == init + [last];
      if last.expiresAt <= now { DroppedInBounds(Purged(s, init, now), last.key); }
    }
  }

  /** The timer leaves exactly the entries that have not expired. */
  lemma TimerDropsExpired(s: Stock, now: int)
    requires InBounds(s)
    ensures InBounds(Purged(s, s.entries, now))
    ensures forall e :: e in Purged(s, s.entries, now).entries <==> e in s.entries && e.expiresAt > now
  {
    PurgedInBounds(s, s.entries, now);
    forall e, x | e in s.entries && x in s.entries && x.key == e.key ensures x == e {
    }
  }

  // ---- Requests ------------------------------------------------------------------------------------

  datatype Event =
    | Arrive(q: nat, key: string, now: int, aborted: bool)
    | GiveUp(q: nat)
    | OwnerEnds(q: nat, shared: bool, size: nat, succeeded: bool, expiresAt: int)
    | Timer(now: int)
    | Clear

  /** An owner shares a body only if `bufferSmallResponse` could read it whole. */
  predicate Enabled(s: State, e: Event) {
    match e
    case Arrive(q, _, _, _) => q !in s.requests
    case GiveUp(q) => q in s.requests && s.requests[q].phase == Waiting
    case OwnerEnds(q, _, size, _, _) => q in s.requests && s.requests[q].phase == Owning && size <= MAX_ENTRY_BYTES
    case Timer(_) => true
    case Clear => true
  }

  function Step(s: State, e: Event): State
    requires Enabled(s, e)
  {
    match e
    case Arrive(q, key, now, aborted) => Arrived(s, q, key, now, aborted)
    case GiveUp(q) => GivenUp(s, q)
    case OwnerEnds(q, shared, size, succeeded, expiresAt) => Ended(s, q, shared, size, succeeded, expiresAt)
    case Timer(now) => s.(stock := Purged(s.stock, s.stock.entries, now))
    case Clear => s.(stock := Stock([], 0))
  }

  /** From the request to its first await. */
  function Arrived(s: State, q: nat, key: string, now: int, aborted: bool): State {
    if Has(s.stock.entries, key) && Find(s.stock.entries, key).expiresAt > now then
      var hit := Find(s.stock.entries, key);
      State(Stock(Without(s.stock.entries, key) + [hit], s.stock.bytes), s.inflight, s.requests[q := Request(key, Served(hit.body))])
    else Missed(s.(stock := DropEntry(s.stock, key)), q, key, aborted)
  }

  function Missed(s: State, q: nat, key: string, aborted: bool): State {
    if key in s.inflight then
      var pending := s.inflight[key];
      if |pending.subscribers| >= MAX_WAITERS then s.(requests := s.requests[q := Request(key, TurnedAway)])
      else if aborted then s.(requests := s.requests[q := Request(key, GaveUp)])
      else s.(inflight := s.inflight[key := Pending(pending.owner, pending.subscribers + {q})],
              requests := s.requests[q := Request(key, Waiting)])
    else if |s.inflight| >= MAX_INFLIGHT then s.(requests := s.requests[q := Request(key, TurnedAway)])
    else s.(inflight := s.inflight[key := Pending(q, {})], requests := s.requests[q := Request(key, Owning)])
  }

  /** A waiter is cancelled or times out. */
  function GivenUp(s: State, q: nat): State
    requires q in s.requests
  {
    var key := s.requests[q].key;
    var inflight := if key !in s.inflight then s.inflight
                    else s.inflight[key := Pending(s.inflight[key].owner, s.inflight[key].subscribers - {q})];
    s.(inflight := inflight, requests := s.requests[q := Request(key, GaveUp)])
  }

  /** `finish`: everyone in `waiters` is told. */
  function Told(requests: Requests, waiters: set<nat>, phase: Phase): Requests {
    map q | q in requests :: if q in waiters then Request(requests[q].key, phase) else requests[q]
  }

  /** From an owner's last await to its end: cache what may be cached, tell the waiters, leave. */
  function Ended(s: State, q: nat, shared: bool, size: nat, succeeded: bool, expiresAt: int): State
    requires q in s.requests
  {
    var key := s.requests[q].key;
    var body := Body(q, size);
    var waiters := if key in s.inflight then s.inflight[key].subscribers else {};
    var stock := if shared && succeeded then Inserted(Room(s.stock, size), Entry(key, body, expiresAt)) else s.stock;
    State(stock, s.inflight - {key}, Told(s.requests, waiters, if shared then Served(body) else PassedOn)[q := Request(key, Finished)])
  }

  function Inserted(s: Stock, e: Entry): Stock {
    Stock(s.entries + [e], s.bytes + e.body.size)
  }

  // ---- What holds at every await -------------------------------------------------------------------

  /** Cached and in-flight keys are disjoint, which is what makes adding to the byte count right. */
  ghost predicate Disjoint(c: Cache, inflight: Flights) {
    forall e :: e in c ==> e.key !in inflight
  }

  /** Every key in flight has one owner, which is running, and its subscribers wait for that key. */
  ghost predicate FlightsManned(inflight: Flights, requests: Requests) {
    forall key :: key in inflight ==>
      && inflight[key].owner in requests && requests[inflight[key].owner] == Request(key, Owning)
      && |inflight[key].subscribers| <= MAX_WAITERS
      && forall q :: q in inflight[key].subscribers ==> q in requests && requests[q] == Request(key, Waiting)
  }

  /** Nobody owns or waits but through the key in flight. */
  ghost predicate NobodyStranded(inflight: Flights, requests: Requests) {
    forall q :: q in requests ==>
      && (requests[q].phase == Owning ==> requests[q].key in inflight && inflight[requests[q].key].owner == q)
      && (requests[q].phase == Waiting ==> requests[q].key in inflight && q in inflight[requests[q].key].subscribers)
  }

  /** A body that is cached or was served came from a request for the same key. */
  ghost predicate SameKey(c: Cache, requests: Requests) {
    && (forall e :: e in c ==> e.body.owner in requests && requests[e.body.owner].key == e.key && e.body.size <= MAX_ENTRY_BYTES)
    && (forall q :: q in requests && requests[q].phase.Served? ==>
          requests[q].phase.body.owner in requests && requests[requests[q].phase.body.owner].key == requests[q].key)
  }

  ghost predicate Safe(s: State) {
    && InBounds(s.stock)
    && Disjoint(s.stock.entries, s.inflight)
    && |s.inflight| <= MAX_INFLIGHT
    && FlightsManned(s.inflight, s.requests)
    && NobodyStranded(s.inflight, s.requests)
    && SameKey(s.stock.entries, s.requests)
  }

  // ---- Arrivals ----

  /** A request that is answered at once changes nothing for the others. */
  lemma AnsweredAtOnce(inflight: Flights, requests: Requests, q: nat, request: Request)
    requires FlightsManned(inflight, requests) && NobodyStranded(inflight, requests) && q !in requests
    requires request.phase != Owning && request.phase != Waiting
    ensures FlightsManned(inflight, requests[q := request]) && NobodyStranded(inflight, requests[q := request])
  {
  }

  lemma NewRequestSameKey(c: Cache, requests: Requests, q: nat, request: Request)
    requires SameKey(c, requests) && q !in requests
    requires request.phase.Served? ==> request.phase.body.owner in requests && requests[request.phase.body.owner].key == request.key
    ensures SameKey(c, requests[q := request])
  {
  }

  lemma NewOwner(inflight: Flights, requests: Requests, q: nat, key: string)
    requires FlightsManned(inflight, requests) && NobodyStranded(inflight, requests) && q !in requests && key !in inflight
    ensures FlightsManned(inflight[key := Pending(q, {})], requests[q := Request(key, Owning)])
    ensures NobodyStranded(inflight[key := Pending(q, {})], requests[q := Request(key, Owning)])
    ensures |inflight[key := Pending(q, {})]| == |inflight| + 1
  {
    NewOwnerMans(inflight, requests, q, key);
    NewOwnerStrandsNobody(inflight, requests, q, key);
    assert inflight[key := Pending(q, {})].Keys == inflight.Keys + {key};
  }

  lemma NewOwnerMans(inflight: Flights, requests: Requests, q: nat, key: string)
    requires FlightsManned(inflight, requests) && q !in requests && key !in inflight
    ensures FlightsManned(inflight[key := Pending(q, {})], requests[q := Request(key, Owning)])
  {
  }

  lemma NewOwnerStrandsNobody(inflight: Flights, requests: Requests, q: nat, key: string)
    requires NobodyStranded(inflight, requests) && q !in requests && key !in inflight
    ensures NobodyStranded(inflight[key := Pending(q, {})], requests[q := Request(key, Owning)])
  {
  }

  lemma NewWaiter(inflight: Flights, requests: Requests, q: nat, key: string)
    requires FlightsManned(inflight, requests) && NobodyStranded(inflight, requests) && q !in requests
    requires key in inflight && |inflight[key].subscribers| < MAX_WAITERS
    ensures var joined := inflight[key := Pending(inflight[key].owner, inflight[key].subscribers + {q})];
            FlightsManned(joined, requests[q := Request(key, Waiting)]) && NobodyStranded(joined, requests[q := Request(key, Waiting)])
            && |joined| == |inflight| && joined.Keys == inflight.Keys
  {
    var joined := inflight[key := Pending(inflight[key].owner, inflight[key].subscribers + {q})];
    assert joined.Keys == inflight.Keys;
  }

  /** The entry of a hit moves to the end; nothing else changes. */
  lemma HitMoves(s: Stock, key: string)
    requires InBounds(s) && Has(s.entries, key)
    ensures InBounds(Stock(Without(s.entries, key) + [Find(s.entries, key)], s.bytes))
  {
    var c := s.entries;
    var i :| 0 <= i < |c| && c[i].key == key;
    FindAt(c, i);
    WithoutOne(c, i);
    MovedInBounds(s, c[..i] + c[i + 1..], c[i]);
  }

  lemma MovedInBounds(s: Stock, others: Cache, e: Entry)
    requires InBounds(s) && DistinctKeys(others) && !Has(others, e.key)
    requires Total(others) == Total(s.entries) - e.body.size && |others| == |s.entries| - 1
    ensures InBounds(Stock(others + [e], s.bytes))
  {
    TotalAppends(others, [e]);
    DropsItself(e);
    AppendDistinct(others, e);
  }

  lemma HitIsEntry(s: Stock, key: string)
    requires InBounds(s) && Has(s.entries, key)
    ensures Find(s.entries, key) in s.entries && Find(s.entries, key).key == key
    ensures forall e :: e in Without(s.entries, key) + [Find(s.entries, key)] ==> e in s.entries
  {
    var i :| 0 <= i < |s.entries| && s.entries[i].key == key;
    FindAt(s.entries, i);
    WithoutMembers(s.entries, key);
  }

  lemma AppendDistinct(c: Cache, e: Entry)
    requires DistinctKeys(c) && !Has(c, e.key)
    ensures DistinctKeys(c + [e])
  {
  }

  lemma HitIsSafe(s: State, q: nat, key: string)
    requires Safe(s) && q !in s.requests && Has(s.stock.entries, key)
    ensures Safe(State(Stock(Without(s.stock.entries, key) + [Find(s.stock.entries, key)], s.stock.bytes), s.inflight,
                       s.requests[q := Request(key, Served(Find(s.stock.entries, key).body))]))
  {
    hide InBounds, Without, Find;
    var hit := Find(s.stock.entries, key);
    HitMoves(s.stock, key);
    HitIsEntry(s.stock, key);
    AnsweredAtOnce(s.inflight, s.requests, q, Request(key, Served(hit.body)));
    NewRequestSameKey(s.stock.entries, s.requests, q, Request(key, Served(hit.body)));
    SameEntries(s.stock.entries, Without(s.stock.entries, key) + [hit], s.inflight, s.requests[q := Request(key, Served(hit.body))]);
  }

  lemma SameEntries(c: Cache, c': Cache, inflight: Flights, requests: Requests)
    requires forall e :: e in c' ==> e in c
    requires Disjoint(c, inflight) && SameKey(c, requests)
    ensures Disjoint(c', inflight) && SameKey(c', requests)
  {
  }

  lemma MissIsSafe(s: State, q: nat, key: string, aborted: bool)
    requires Safe(s) && q !in s.requests && !Has(s.stock.entries, key)
    ensures Safe(Missed(s, q, key, aborted))
  {
    var r := Missed(s, q, key, aborted);
    NewRequestSameKey(s.stock.entries, s.requests, q, r.requests[q]);
    if r.requests[q].phase == Owning {
      NewOwner(s.inflight, s.requests, q, key);
      NoEntryIsNew(s.stock.entries, key, s.inflight, q);
    } else if r.requests[q].phase == Waiting {
      NewWaiter(s.inflight, s.requests, q, key);
    } else {
      AnsweredAtOnce(s.inflight, s.requests, q, r.requests[q]);
    }
  }

  lemma NoEntryIsNew(c: Cache, key: string, inflight: Flights, q: nat)
    requires Disjoint(c, inflight) && !Has(c, key)
    ensures Disjoint(c, inflight[key := Pending(q, {})])
  {
    forall e | e in c ensures e.key != key {
      var i :| 0 <= i < |c| && c[i] == e;
      assert c[i].key != key;
    }
  }

  lemma DropIsSafe(s: State, key: string)
    requires Safe(s)
    ensures Safe(s.(stock := DropEntry(s.stock, key)))
  {
    DroppedInBounds(s.stock, key);
    SameEntries(s.stock.entries, DropEntry(s.stock, key).entries, s.inflight, s.requests);
  }

  lemma ArrivedIsSafe(s: State, q: nat, key: string, now: int, aborted: bool)
    requires Safe(s) && q !in s.requests
    ensures Safe(Arrived(s, q, key, now, aborted))
  {
    if Has(s.stock.entries, key) && Find(s.stock.entries, key).expiresAt > now {
      HitIsSafe(s, q, key);
    } else {
      DropIsSafe(s, key);
      DroppedInBounds(s.stock, key);
      MissIsSafe(s.(stock := DropEntry(s.stock, key)), q, key, aborted);
    }
  }

  // ---- Waiters leaving and owners ending ----

  lemma GivenUpIsSafe(s: State, q: nat)
    requires Safe(s) && Enabled(s, GiveUp(q))
    ensures Safe(GivenUp(s, q))
  {
    var r := GivenUp(s, q);
    var key := s.requests[q].key;
    assert r.inflight.Keys == s.inflight.Keys;
    assert r.inflight == s.inflight[key := Pending(s.inflight[key].owner, s.inflight[key].subscribers - {q})];
    WaiterLeaves(s.inflight, s.requests, q);
    Relabelled(s.stock.entries, s.requests, r.requests);
  }

  lemma WaiterLeaves(inflight: Flights, requests: Requests, q: nat)
    requires FlightsManned(inflight, requests) && NobodyStranded(inflight, requests)
    requires q in requests && requests[q].phase == Waiting
    ensures var key := requests[q].key;
            var left := inflight[key := Pending(inflight[key].owner, inflight[key].subscribers - {q})];
            FlightsManned(left, requests[q := Request(key, GaveUp)]) && NobodyStranded(left, requests[q := Request(key, GaveUp)])
  {
    var key := requests[q].key;
    var fewer := inflight[key].subscribers - {q};
    assert |fewer| <= |inflight[key].subscribers|;
  }

  /** Requests keep their keys; no other body is served than before. */
  lemma Relabelled(c: Cache, requests: Requests, after: Requests)
    requires SameKey(c, requests) && after.Keys == requests.Keys
    requires forall q :: q in requests ==> after[q].key == requests[q].key
    requires forall q :: q in requests && after[q].phase.Served? ==> after[q].phase == requests[q].phase
    ensures SameKey(c, after)
  {
  }

  /** The owner leaves with its key, and its waiters with it: every one of them is told. */
  lemma OwnerLeaves(inflight: Flights, requests: Requests, q: nat, phase: Phase)
    requires FlightsManned(inflight, requests) && NobodyStranded(inflight, requests)
    requires q in requests && requests[q].phase == Owning && phase != Owning && phase != Waiting
    ensures var key := requests[q].key;
            var after := Told(requests, inflight[key].subscribers, phase)[q := Request(key, Finished)];
            && FlightsManned(inflight - {key}, after) && NobodyStranded(inflight - {key}, after)
            && forall w :: w in requests && requests[w] == Request(key, Waiting) ==> after[w] == Request(key, phase)
  {
    var key := requests[q].key;
    var after := Told(requests, inflight[key].subscribers, phase)[q := Request(key, Finished)];
    forall k | k in inflight - {key}
      ensures inflight[k].owner in after && after[inflight[k].owner] == Request(k, Owning)
      ensures forall w :: w in inflight[k].subscribers ==> w in after && after[w] == Request(k, Waiting)
    {
      assert requests[inflight[k].owner] == Request(k, Owning);
      forall w | w in inflight[k].subscribers ensures w in after && after[w] == Request(k, Waiting) {
        assert requests[w] == Request(k, Waiting);
      }
    }
  }

  lemma TellingKeepsKeys(c: Cache, requests: Requests, waiters: set<nat>, q: nat, shared: bool, size: nat)
    requires SameKey(c, requests) && q in requests
    requires forall w :: w in waiters ==> w in requests && requests[w].key == requests[q].key
    ensures SameKey(c, Told(requests, waiters, if shared then Served(Body(q, size)) else PassedOn)
                         [q := Request(requests[q].key, Finished)])
  {
  }

  /** The new entry fits, and its key was not cached: that is where disjointness is needed. */
  lemma InsertedIsSafe(s: Stock, inflight: Flights, requests: Requests, q: nat, size: nat, expiresAt: int)
    requires InBounds(s) && Disjoint(s.entries, inflight) && SameKey(s.entries, requests)
    requires q in requests && requests[q].key in inflight && size <= MAX_ENTRY_BYTES
    ensures var e := Entry(requests[q].key, Body(q, size), expiresAt);
            var r := Inserted(Room(s, size), e);
            InBounds(r) && SameKey(r.entries, requests) && Disjoint(r.entries, inflight - {requests[q].key})
  {
    hide InBounds, Room, SameKey, Disjoint;
    var e := Entry(requests[q].key, Body(q, size), expiresAt);
    var n := RoomFacts(s, size);
    var room := Room(s, size);
    assert forall x :: x in room.entries ==> x in s.entries;
    SameEntries(s.entries, room.entries, inflight, requests);
    FlyingIsNotCached(room.entries, inflight, e.key);
    InsertedInBounds(room, e);
    InsertedSources(room.entries, inflight, requests, e);
  }

  lemma FlyingIsNotCached(c: Cache, inflight: Flights, key: string)
    requires Disjoint(c, inflight) && key in inflight
    ensures !Has(c, key)
  {
    forall i | 0 <= i < |c| ensures c[i].key != key {
      assert c[i] in c;
    }
  }

  lemma InsertedInBounds(s: Stock, e: Entry)
    requires InBounds(s) && !Has(s.entries, e.key)
    requires |s.entries| < MAX_ENTRIES && s.bytes + e.body.size <= MAX_BYTES
    ensures InBounds(Inserted(s, e))
  {
    TotalAppends(s.entries, [e]);
    DropsItself(e);
    AppendDistinct(s.entries, e);
  }

  lemma InsertedSources(c: Cache, inflight: Flights, requests: Requests, e: Entry)
    requires Disjoint(c, inflight) && SameKey(c, requests)
    requires e.body.owner in requests && requests[e.body.owner].key == e.key && e.body.size <= MAX_ENTRY_BYTES
    ensures SameKey(c + [e], requests) && Disjoint(c + [e], inflight - {e.key})
  {
  }

  lemma EndedIsSafe(s: State, q: nat, shared: bool, size: nat, succeeded: bool, expiresAt: int)
    requires Safe(s) && Enabled(s, OwnerEnds(q, shared, size, succeeded, expiresAt))
    ensures Safe(Ended(s, q, shared, size, succeeded, expiresAt))
  {
    var key := s.requests[q].key;
    var waiters := s.inflight[key].subscribers;
    var phase := if shared then Served(Body(q, size)) else PassedOn;
    var r := Ended(s, q, shared, size, succeeded, expiresAt);
    assert r.requests == Told(s.requests, waiters, phase)[q := Request(key, Finished)];
    OwnerLeaves(s.inflight, s.requests, q, phase);
    assert (s.inflight - {key}).Keys == s.inflight.Keys - {key};
    InsertedIsSafe(s.stock, s.inflight, s.requests, q, size, expiresAt);
    assert SameKey(r.stock.entries, s.requests);
    TellingKeepsKeys(r.stock.entries, s.requests, waiters, q, shared, size);
  }

  lemma StepIsSafe(s: State, e: Event)
    requires Safe(s) && Enabled(s, e)
    ensures Safe(Step(s, e))
  {
    match e {
      case Arrive(q, key, now, aborted) => ArrivedIsSafe(s, q, key, now, aborted);
      case GiveUp(q) => GivenUpIsSafe(s, q);
      case OwnerEnds(q, shared, size, succeeded, expiresAt) => EndedIsSafe(s, q, shared, size, succeeded, expiresAt);
      case Timer(now) =>
        TimerDropsExpired(s.stock, now);
        SameEntries(s.stock.entries, Purged(s.stock, s.stock.entries, now).entries, s.inflight, s.requests);
      case Clear =>
        SameEntries(s.stock.entries, [], s.inflight, s.requests);
    }
  }

  // ---- Runs ----------------------------------------------------------------------------------------

  ghost predicate IsRun(events: seq<Event>)
    decreases |events|, 0
  {
    events == [] || (IsRun(events[..|events| - 1]) && Enabled(After(events[..|events| - 1]), events[|events| - 1]))
  }

  ghost function After(events: seq<Event>): State
    requires IsRun(events)
    decreases |events|, 1
  {
    if events == [] then State(Stock([], 0), map[], map[])
    else Step(After(events[..|events| - 1]), events[|events| - 1])
  }

  /** At every await point of every interleaving. */
  lemma {:induction false} RunIsSafe(events: seq<Event>)
    requires IsRun(events)
    ensures Safe(After(events))
  {
    if events != [] {
      RunIsSafe(events[..|events| - 1]);
      StepIsSafe(After(events[..|events| - 1]), events[|events| - 1]);
    }
  }

  /** Two running owners never have the same key. */
  lemma OneOwnerPerKey(events: seq<Event>, p: nat, q: nat)
    requires IsRun(events) && p in After(events).requests && q in After(events).requests
    requires After(events).requests[p].phase == Owning && After(events).requests[q] == After(events).requests[p]
    ensures p == q
  {
    RunIsSafe(events);
  }

  /** A waiter always has a running owner to wait for. */
  lemma WaiterHasOwner(events: seq<Event>, q: nat)
    requires IsRun(events) && q in After(events).requests && After(events).requests[q].phase == Waiting
    ensures var s := After(events);
            var key := s.requests[q].key;
            key in s.inflight && s.inflight[key].owner in s.requests && s.requests[s.inflight[key].owner] == Request(key, Owning)
  {
    RunIsSafe(events);
  }

  /** Settled requests stay as they are. */
  predicate Open(phase: Phase) { phase == Owning || phase == Waiting }

  /** Each request is settled at most once, in whatever way. */
  lemma SettledOnce(events: seq<Event>, e: Event, q: nat)
    requires IsRun(events) && Enabled(After(events), e)
    requires q in After(events).requests && !Open(After(events).requests[q].phase)
    ensures q in Step(After(events), e).requests && Step(After(events), e).requests[q] == After(events).requests[q]
  {
    RunIsSafe(events);
  }

  /**
   However an owner ends, everyone waiting for its key is settled at that moment, with
   the shared body if there is one. It is finished itself, and nobody else is concerned.
   */
  lemma OwnerSettlesWaiters(events: seq<Event>, o: nat, shared: bool, size: nat, succeeded: bool, expiresAt: int, q: nat)
    requires IsRun(events) && Enabled(After(events), OwnerEnds(o, shared, size, succeeded, expiresAt))
    requires q in After(events).requests
    ensures var requests, after := After(events).requests, Step(After(events), OwnerEnds(o, shared, size, succeeded, expiresAt)).requests;
            && after.Keys == requests.Keys
            && after[q].key == requests[q].key
            && after[q].phase == if q == o then Finished
                                 else if requests[q] != Request(requests[o].key, Waiting) then requests[q].phase
                                 else if shared then Served(Body(o, size)) else PassedOn
  {
    RunIsSafe(events);
  }

  /** A waiter that is cancelled or times out leaves alone; the timer and a clearing settle nobody. */
  lemma LeavesAlone(events: seq<Event>, event: Event)
    requires IsRun(events) && Enabled(After(events), event) && (event.GiveUp? || event.Timer? || event.Clear?)
    ensures var requests, after := After(events).requests, Step(After(events), event).requests;
            after == if event.GiveUp? then requests[event.q := Request(requests[event.q].key, GaveUp)] else requests
  {
  }

  // ---- How long a body is served ---------------------------------------------------------------------

  /** The entry and all that were used after it leave no room for the new body. */
  ghost predicate Evicted(c: Cache, e: Entry, size: nat) {
    exists i :: 0 <= i < |c| && c[i] == e && Crowded(c[i..], size)
  }

  predicate Crowded(c: Cache, size: nat) {
    |c| >= MAX_ENTRIES || Total(c) + size > MAX_BYTES
  }

  lemma TotalOfSuffix(c: Cache, i: nat, j: nat)
    requires i <= j <= |c|
    ensures Total(c[j..]) <= Total(c[i..])
  {
    assert c[i..] == c[i..j] + c[j..];
    TotalAppends(c[i..j], c[j..]);
  }

  lemma KeptFrom(s: Stock, size: nat, n: nat, i: nat)
    requires InBounds(s) && n <= |s.entries| && i < |s.entries|
    requires !Full(AfterOldest(s, n), size) && size <= MAX_ENTRY_BYTES
    requires forall m :: 0 <= m < n ==> Full(AfterOldest(s, m), size)
    ensures i >= n <==> !Crowded(s.entries[i..], size)
  {
    if i >= n { TotalOfSuffix(s.entries, n, i); }
    assert i < n ==> Full(AfterOldest(s, i), size);
  }

  lemma RoomIsLeft(s: Stock, size: nat) returns (n: nat)
    requires InBounds(s) && size <= MAX_ENTRY_BYTES
    ensures n <= |s.entries| && Room(s, size).entries == s.entries[n..]
    ensures forall i :: 0 <= i < |s.entries| ==> (i >= n <==> !Crowded(s.entries[i..], size))
  {
    hide InBounds, Room, Crowded;
    n := RoomFacts(s, size);
    forall i | 0 <= i < |s.entries| ensures i >= n <==> !Crowded(s.entries[i..], size) {
      KeptFrom(s, size, n, i);
    }
  }

  /** `makeRoom` keeps an entry exactly if it and the more recently used ones leave room. */
  lemma RoomKeepsIff(s: Stock, e: Entry, size: nat)
    requires InBounds(s) && size <= MAX_ENTRY_BYTES
    ensures e in Room(s, size).entries <==> e in s.entries && !Evicted(s.entries, e, size)
  {
    hide InBounds, Room, Crowded;
    var n := RoomIsLeft(s, size);
    var c := s.entries;
    if e in c {
      var i :| 0 <= i < |c| && c[i] == e;
      forall j | 0 <= j < |c| && c[j] == e ensures j == i {
        OnlyPlace(s, i, j);
      }
      InSuffix(c, n, i);
    }
  }

  /** An entry that stands at one place only is behind the cut exactly if that place is. */
  lemma InSuffix(c: Cache, n: nat, i: nat)
    requires n <= |c| && i < |c| && forall j :: 0 <= j < |c| && c[j] == c[i] ==> j == i
    ensures c[i] in c[n..] <==> i >= n
  {
    assert i >= n ==> c[n..][i - n] == c[i];
  }

  lemma OnlyPlace(s: Stock, i: nat, j: nat)
    requires InBounds(s) && i < |s.entries| && j < |s.entries| && s.entries[i] == s.entries[j]
    ensures i == j
  {
  }

  /** The event caches the body of the owner that ends. */
  ghost predicate Caches(s: State, event: Event, e: Entry)
    requires Enabled(s, event)
  {
    && event.OwnerEnds? && event.shared && event.succeeded
    && e == Entry(s.requests[event.q].key, Body(event.q, event.size), event.expiresAt)
  }

  /** The cache is cleared, the entry's time is found to be up, or it has to make room. */
  ghost predicate Removes(s: State, event: Event, e: Entry) {
    match event
    case Clear => true
    case Timer(now) => e.expiresAt <= now
    case Arrive(_, key, now, _) => key == e.key && e.expiresAt <= now
    case OwnerEnds(_, shared, size, succeeded, _) => shared && succeeded && Evicted(s.stock.entries, e, size)
    case GiveUp(_) => false
  }

  /** The entry was cached in the run, and since then nothing has removed it. */
  ghost predicate Stands(events: seq<Event>, e: Entry)
    requires IsRun(events)
    decreases |events|
  {
    events != [] &&
    var init, last := events[..|events| - 1], events[|events| - 1];
    Caches(After(init), last, e) || (Stands(init, e) && !Removes(After(init), last, e))
  }

  lemma HitKeeps(s: Stock, key: string, e: Entry)
    requires InBounds(s) && Has(s.entries, key)
    ensures e in Without(s.entries, key) + [Find(s.entries, key)] <==> e in s.entries
    ensures e in s.entries && e.key == key ==> e == Find(s.entries, key)
  {
    HitIsEntry(s, key);
    WithoutMembers(s.entries, key);
  }

  lemma ArrivedKeeps(s: State, q: nat, key: string, now: int, aborted: bool, e: Entry)
    requires InBounds(s.stock)
    ensures e in Arrived(s, q, key, now, aborted).stock.entries <==> e in s.stock.entries && !(key == e.key && e.expiresAt <= now)
  {
    hide InBounds, Find, Without;
    DroppedInBounds(s.stock, key);
    if Has(s.stock.entries, key) { HitKeeps(s.stock, key, e); }
    if e in s.stock.entries && e.key == key {
      var i :| 0 <= i < |s.stock.entries| && s.stock.entries[i] == e;
    }
  }

  lemma StepKeepsIff(s: State, event: Event, e: Entry)
    requires Safe(s) && Enabled(s, event)
    ensures e in Step(s, event).stock.entries <==> Caches(s, event, e) || (e in s.stock.entries && !Removes(s, event, e))
  {
    match event
    case Arrive(q, key, now, aborted) => ArrivedKeeps(s, q, key, now, aborted, e);
    case Timer(now) => TimerDropsExpired(s.stock, now);
    case OwnerEnds(q, shared, size, succeeded, expiresAt) => RoomKeepsIff(s.stock, e, size);
    case GiveUp(_) =>
    case Clear =>
  }

  /** What is cached is what was cached in the run and has not been removed since. */
  lemma {:induction false} StandsIff(events: seq<Event>, e: Entry)
    requires IsRun(events)
    ensures e in After(events).stock.entries <==> Stands(events, e)
  {
    if events != [] {
      var init, last := events[..|events| - 1], events[|events| - 1];
      StandsIff(init, e);
      RunIsSafe(init);
      StepKeepsIff(After(init), last, e);
    }
  }

  /** An entry that stands for the key and whose time is not up. */
  ghost predicate Serves(events: seq<Event>, e: Entry, key: string, now: int)
    requires IsRun(events)
  {
    Stands(events, e) && e.key == key && now < e.expiresAt
  }

  /** The keys that have a running owner. */
  function OwnedKeys(requests: Requests): set<string> {
    set q | q in requests && requests[q].phase == Owning :: requests[q].key
  }

  function WaitersFor(requests: Requests, key: string): set<nat> {
    set q | q in requests && requests[q] == Request(key, Waiting)
  }

  lemma FlightsAreOwned(s: State)
    requires Safe(s)
    ensures s.inflight.Keys == OwnedKeys(s.requests)
    ensures forall key :: key in s.inflight ==> s.inflight[key].subscribers == WaitersFor(s.requests, key)
  {
  }

  /** What becomes of a request that finds no body. */
  function WithoutBody(requests: Requests, key: string, aborted: bool): Phase {
    if key in OwnedKeys(requests) then
      if |WaitersFor(requests, key)| >= MAX_WAITERS then TurnedAway else if aborted then GaveUp else Waiting
    else if |OwnedKeys(requests)| >= MAX_INFLIGHT then TurnedAway else Owning
  }

  /**
   An arrival is served a body exactly if the body was cached for its key, has not been
   removed since, and its time is not up. Otherwise it waits for the key's owner or
   becomes the owner, unless there are too many of them. Nobody else is concerned.
   */
  lemma ArrivalIs(events: seq<Event>, q: nat, key: string, now: int, aborted: bool)
    requires IsRun(events) && q !in After(events).requests
    ensures var requests := Step(After(events), Arrive(q, key, now, aborted)).requests;
            && requests == After(events).requests[q := requests[q]] && requests[q].key == key
            && (forall body :: requests[q].phase == Served(body) <==> exists e :: Serves(events, e, key, now) && e.body == body)
            && ((forall e :: !Serves(events, e, key, now)) ==> requests[q].phase == WithoutBody(After(events).requests, key, aborted))
  {
    hide InBounds, Find, Without, Safe, Stands;
    var s := After(events);
    RunIsSafe(events);
    FlightsAreOwned(s);
    forall e ensures Serves(events, e, key, now) <==> Fresh(s.stock, key, now) && e == Find(s.stock.entries, key) {
      StandsIff(events, e);
      FreshIff(s, e, key, now);
    }
    if Fresh(s.stock, key, now) {
      assert Serves(events, Find(s.stock.entries, key), key, now);
    }
  }

  ghost predicate Fresh(s: Stock, key: string, now: int) {
    Has(s.entries, key) && now < Find(s.entries, key).expiresAt
  }

  lemma FreshIff(s: State, e: Entry, key: string, now: int)
    requires Safe(s)
    ensures e in s.stock.entries && e.key == key && now < e.expiresAt <==> Fresh(s.stock, key, now) && e == Find(s.stock.entries, key)
  {
    if Has(s.stock.entries, key) {
      HitIsEntry(s.stock, key);
      HitKeeps(s.stock, key, e);
    }
    if e in s.stock.entries && e.key == key {
      var i :| 0 <= i < |s.stock.entries| && s.stock.entries[i] == e;
    }
  }

  // ---- The least recently used entry first ------------------------------------------------------------

  /** A request for the key is served from the cache, or its body is cached. */
  ghost predicate Uses(s: State, event: Event, key: string)
    requires Enabled(s, event)
  {
    match event
    case Arrive(_, k, now, _) => k == key && Fresh(s.stock, key, now)
    case OwnerEnds(q, shared, _, succeeded, _) => shared && succeeded && s.requests[q].key == key
    case _ => false
  }

  /** The place in the run of the last use of a key. */
  ghost function LastUse(events: seq<Event>, key: string): int
    requires IsRun(events)
    decreases |events|
  {
    if events == [] then -1
    else if Uses(After(events[..|events| - 1]), events[|events| - 1], key) then |events| - 1
    else LastUse(events[..|events| - 1], key)
  }

  ghost function Rank(events: seq<Event>): string -> int {
    key => if IsRun(events) then LastUse(events, key) else 0
  }

  ghost predicate Ascending(c: Cache, rank: string -> int) {
    forall i, j :: 0 <= i < j < |c| ==> rank(c[i].key) < rank(c[j].key)
  }

  lemma AppendAscends(c: Cache, e: Entry, rank: string -> int)
    requires Ascending(c, rank) && forall x :: x in c ==> rank(x.key) < rank(e.key)
    ensures Ascending(c + [e], rank)
  {
  }

  lemma {:induction false} WithoutAscends(c: Cache, key: string, rank: string -> int)
    requires Ascending(c, rank)
    ensures Ascending(Without(c, key), rank)
  {
    if c != [] {
      var init, last := c[..|c| - 1], c[|c| - 1];
      WithoutAscends(init, key, rank);
      WithoutMembers(init, key);
      forall x | x in init ensures rank(x.key) < rank(last.key) {
        var i :| 0 <= i < |init| && init[i] == x;
        assert c[i] == x;
      }
      AppendAscends(Without(init, key), last, rank);
      assert Without(init, key) + [] == Without(init, key);
    }
  }

  lemma {:induction false} PurgedAscends(s: Stock, all: Cache, now: int, rank: string -> int)
    requires Ascending(s.entries, rank)
    ensures Ascending(Purged(s, all, now).entries, rank)
  {
    if all != [] {
      var t := Purged(s, all[..|all| - 1], now);
      PurgedAscends(s, all[..|all| - 1], now, rank);
      WithoutAscends(t.entries, all[|all| - 1].key, rank);
    }
  }

  lemma SameRanks(c: Cache, rank: string -> int, rank': string -> int)
    requires Ascending(c, rank) && forall x :: x in c ==> rank'(x.key) == rank(x.key)
    ensures Ascending(c, rank')
  {
  }

  lemma {:induction false} UsedBefore(events: seq<Event>, key: string)
    requires IsRun(events)
    ensures LastUse(events, key) < |events|
  {
    if events != [] { UsedBefore(events[..|events| - 1], key); }
  }

  /** What is used now goes to the end: those that stay were used before, and it is not among them. */
  lemma UsedLast(kept: Cache, e: Entry, init: seq<Event>, last: Event)
    requires IsRun(init) && IsRun(init + [last]) && Ascending(kept, Rank(init)) && !Has(kept, e.key)
    requires forall key :: Uses(After(init), last, key) <==> key == e.key
    ensures Ascending(kept + [e], Rank(init + [last]))
  {
    hide Uses, After, IsRun;
    var events := init + [last];
    assert events[..|events| - 1] == init;
    forall x | x in kept ensures Rank(events)(x.key) == Rank(init)(x.key) < Rank(events)(e.key) {
      var i :| 0 <= i < |kept| && kept[i] == x;
      UsedBefore(init, x.key);
    }
    SameRanks(kept, Rank(init), Rank(events));
    AppendAscends(kept, e, Rank(events));
  }

  lemma NotUsed(c: Cache, init: seq<Event>, last: Event)
    requires IsRun(init) && IsRun(init + [last]) && Ascending(c, Rank(init))
    requires forall key :: !Uses(After(init), last, key)
    ensures Ascending(c, Rank(init + [last]))
  {
    hide Uses, After, IsRun;
    assert (init + [last])[..|init|] == init;
    SameRanks(c, Rank(init), Rank(init + [last]));
  }

  lemma ArrivalKeepsOrder(init: seq<Event>, q: nat, key: string, now: int, aborted: bool)
    requires IsRun(init) && IsRun(init + [Arrive(q, key, now, aborted)]) && InBounds(After(init).stock)
    requires Ascending(After(init).stock.entries, Rank(init))
    ensures Ascending(Arrived(After(init), q, key, now, aborted).stock.entries, Rank(init + [Arrive(q, key, now, aborted)]))
  {
    hide InBounds, Without, Find, After, IsRun, Rank, Ascending;
    var s := After(init).stock;
    WithoutAscends(s.entries, key, Rank(init));
    if Fresh(s, key, now) {
      HitIsEntry(s, key);
      DroppedInBounds(s, key);
      UsedLast(Without(s.entries, key), Find(s.entries, key), init, Arrive(q, key, now, aborted));
    } else {
      NotUsed(DropEntry(s, key).entries, init, Arrive(q, key, now, aborted));
    }
  }

  lemma SuffixAscends(c: Cache, n: nat, rank: string -> int)
    requires n <= |c| && Ascending(c, rank)
    ensures Ascending(c[n..], rank)
  {
  }

  lemma EndKeepsOrder(init: seq<Event>, q: nat, shared: bool, size: nat, succeeded: bool, expiresAt: int)
    requires IsRun(init) && Safe(After(init)) && Enabled(After(init), OwnerEnds(q, shared, size, succeeded, expiresAt))
    requires IsRun(init + [OwnerEnds(q, shared, size, succeeded, expiresAt)])
    requires Ascending(After(init).stock.entries, Rank(init))
    ensures Ascending(Ended(After(init), q, shared, size, succeeded, expiresAt).stock.entries,
                      Rank(init + [OwnerEnds(q, shared, size, succeeded, expiresAt)]))
  {
    hide InBounds, Room, After, IsRun, Rank, Ascending, Crowded;
    var s, last := After(init), OwnerEnds(q, shared, size, succeeded, expiresAt);
    if shared && succeeded {
      var e := Entry(s.requests[q].key, Body(q, size), expiresAt);
      var n := RoomIsLeft(s.stock, size);
      FlyingIsNotCached(s.stock.entries, s.inflight, e.key);
      SuffixAscends(s.stock.entries, n, Rank(init));
      UsedLast(s.stock.entries[n..], e, init, last);
    } else {
      NotUsed(s.stock.entries, init, last);
    }
  }

  /** At every await the entries stand in the order of their last use. */
  lemma {:induction false} InOrderOfUse(events: seq<Event>)
    requires IsRun(events)
    ensures forall i, j :: 0 <= i < j < |After(events).stock.entries| ==>
              LastUse(events, After(events).stock.entries[i].key) < LastUse(events, After(events).stock.entries[j].key)
  {
    OrderIsKept(events);
    assert Ascending(After(events).stock.entries, Rank(events));
  }

  lemma {:induction false} OrderIsKept(events: seq<Event>)
    requires IsRun(events)
    ensures Ascending(After(events).stock.entries, Rank(events))
  {
    if events != [] {
      var init, last := events[..|events| - 1], events[|events| - 1];
      assert events == init + [last];
      OrderIsKept(init);
      RunIsSafe(init);
      hide Ascending, Rank, Safe, InBounds, Purged;
      match last
      case Arrive(q, key, now, aborted) => ArrivalKeepsOrder(init, q, key, now, aborted);
      case OwnerEnds(q, shared, size, succeeded, expiresAt) => EndKeepsOrder(init, q, shared, size, succeeded, expiresAt);
      case GiveUp(_) => NotUsed(After(init).stock.entries, init, last);
      case Timer(now) =>
        PurgedAscends(After(init).stock, After(init).stock.entries, now, Rank(init));
        NotUsed(After(events).stock.entries, init, last);
      case Clear => NothingAscends(Rank(events));
    }
  }

  lemma NothingAscends(rank: string -> int)
    ensures Ascending([], rank)
  {
  }

  // ---- The module's state and its code -------------------------------------------------------------

  class Responses {
    var cache: Cache
    var totalBytes: int
    var inflight: Flights
    var requests: Requests

    constructor ()
      ensures Now() == State(Stock([], 0), map[], map[])
    {
      cache, totalBytes, inflight, requests := [], 0, map[], map[];
    }

    ghost function Now(): State
      reads this
    {
      State(Stock(cache, totalBytes), inflight, requests)
    }

    method Drop(key: string)
      modifies this`cache, this`totalBytes
      ensures Now().stock == DropEntry(old(Now()).stock, key)
    {
      if !Has(cache, key) { return; }
      totalBytes := totalBytes - Find(cache, key).body.size;
      cache := Without(cache, key);
    }

    method MakeRoom(bytes: nat)
      requires InBounds(Now().stock)
      modifies this`cache, this`totalBytes
      ensures Now().stock == Room(old(Now()).stock, bytes)
    {
      while |cache| > 0 && (|cache| >= MAX_ENTRIES || totalBytes + bytes > MAX_BYTES)
        invariant InBounds(Now().stock)
        invariant Room(Now().stock, bytes) == Room(old(Now()).stock, bytes)
        decreases |cache|
      {
        DropOldest(Now().stock);
        Drop(cache[0].key);
      }
    }

    /** The timer's callback. */
    method OnTimer(now: int)
      modifies this`cache, this`totalBytes
      ensures Now() == Step(old(Now()), Timer(now))
    {
      var all := cache;
      for i := 0 to |all|
        invariant Now().stock == Purged(old(Now()).stock, all[..i], now)
      {
        assert all[..i + 1][..i] == all[..i];
        if all[i].expiresAt <= now { Drop(all[i].key); }
      }
      assert all[..|all|] == all;
    }

    /** `responseCache` from the request to its first await. */
    method OnRequest(q: nat, key: string, now: int, aborted: bool)
      requires q !in requests
      modifies this
      ensures Now() == Step(old(Now()), Arrive(q, key, now, aborted))
    {
      if Has(cache, key) {
        var hit := Find(cache, key);
        if hit.expiresAt > now {
          cache := Without(cache, key);
          cache := cache + [hit];
          requests := requests[q := Request(key, Served(hit.body))];
          return;
        }
        Drop(key);
      }
      if key in inflight {
        var existing := inflight[key];
        if |existing.subscribers| >= MAX_WAITERS {
          requests := requests[q := Request(key, TurnedAway)];
        } else if aborted {
          requests := requests[q := Request(key, GaveUp)];
        } else {
          inflight := inflight[key := Pending(existing.owner, existing.subscribers + {q})];
          requests := requests[q := Request(key, Waiting)];
        }
        return;
      }
      if |inflight| >= MAX_INFLIGHT {
        requests := requests[q := Request(key, TurnedAway)];
        return;
      }
      inflight := inflight[key := Pending(q, {})];
      requests := requests[q := Request(key, Owning)];
    }

    /** `finish`: deliver to the subscribers one by one. */
    method Finish(subscribers: set<nat>, phase: Phase)
      requires subscribers <= requests.Keys
      modifies this`requests
      ensures requests == Told(old(requests), subscribers, phase)
    {
      var left := subscribers;
      while left != {}
        invariant left <= subscribers && requests.Keys == old(requests).Keys
        invariant forall q :: q in requests ==>
                    requests[q] == if q in subscribers && q !in left then Request(old(requests)[q].key, phase) else old(requests)[q]
        decreases |left|
      {
        var q :| q in left;
        left := left - {q};
        requests := requests[q := Request(requests[q].key, phase)];
      }
    }

    /** An owner, from its last await to the end of its `finally`. */
    method OnOwnerEnds(q: nat, shared: bool, size: nat, succeeded: bool, expiresAt: int)
      requires Safe(Now()) && Enabled(Now(), OwnerEnds(q, shared, size, succeeded, expiresAt))
      modifies this
      ensures Now() == Step(old(Now()), OwnerEnds(q, shared, size, succeeded, expiresAt))
    {
      var key := requests[q].key;
      if shared && succeeded {
        MakeRoom(size);
        cache := cache + [Entry(key, Body(q, size), expiresAt)];
        totalBytes := totalBytes + size;
      }
      Finish(inflight[key].subscribers, if shared then Served(Body(q, size)) else PassedOn);
      inflight := inflight - {key};
      requests := requests[q := Request(key, Finished)];
    }
  }
}
