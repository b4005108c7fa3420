/**
 The bounded cache with expiring entries: two insertion-ordered maps, one with the
 values and one with the times of expiry, that must stay in step.
 */
module TtlMap {
  import opened Options

  /** Both maps at once: their common insertion order, the values, and the times of expiry. */
  datatype State<V> = State(order: seq<string>, values: map<string, V>, expires: map<string, int>)

  // ---- Orders of insertion ----------------------------------------------------------------

  function Members(s: seq<string>): set<string> {
    set x | x in s
  }

  /** No member occurs twice. */
  predicate Distinct(s: seq<string>) {
    |Members(s)| == |s|
  }

  lemma {:induction false} MembersSize(s: seq<string>)
    ensures |Members(s)| <= |s|
  {
    if s != [] {
      MembersSize(s[..|s| - 1]);
      MembersSnoc(s);
    }
  }

  lemma MembersSnoc(s: seq<string>)
    requires s != []
    ensures Members(s) == Members(s[..|s| - 1]) + {s[|s| - 1]}
  {
    assert s == s[..|s| - 1] + [s[|s| - 1]];
  }

  lemma DistinctLast(s: seq<string>)
    requires s != []
    ensures Distinct(s) <==> Distinct(s[..|s| - 1]) && s[|s| - 1] !in s[..|s| - 1]
  {
    MembersSnoc(s);
    MembersSize(s[..|s| - 1]);
    if s[|s| - 1] in s[..|s| - 1] { assert Members(s) == Members(s[..|s| - 1]); }
  }

  /** The parts of a listing without repetitions have no repetitions and nothing in common. */
  lemma {:induction false} DistinctParts(a: seq<string>, b: seq<string>)
    requires Distinct(a + b)
    ensures Distinct(a) && Distinct(b) && forall x :: x in b ==> x !in a
    decreases |b|
  {
    if b == [] {
      assert a + b == a;
    } else {
      var init := b[..|b| - 1];
      assert (a + b)[..|a + b| - 1] == a + init;
      DistinctLast(a + b);
      DistinctParts(a, init);
      DistinctLast(b);
      assert forall x :: x in init ==> x in a + init;
      assert b == init + [b[|b| - 1]];
    }
  }

  lemma DistinctSnoc(s: seq<string>, x: string)
    requires Distinct(s) && x !in s
    ensures Distinct(s + [x])
  {
    assert (s + [x])[..|s|] == s;
    DistinctLast(s + [x]);
  }

  function Dropped(s: seq<string>, gone: set<string>): seq<string> {
    if s == [] then []
    else Dropped(s[..|s| - 1], gone) + if s[|s| - 1] in gone then [] else [s[|s| - 1]]
  }

  lemma {:induction false} DroppedMembers(s: seq<string>, gone: set<string>)
    ensures forall x :: x in Dropped(s, gone) <==> x in s && x !in gone
  {
    if s != [] {
      DroppedMembers(s[..|s| - 1], gone);
      assert s == s[..|s| - 1] + [s[|s| - 1]];
    }
  }

  lemma {:induction false} DroppedDistinct(s: seq<string>, gone: set<string>)
    requires Distinct(s)
    ensures Distinct(Dropped(s, gone))
  {
    if s != [] {
      var init, last := s[..|s| - 1], s[|s| - 1];
      DistinctLast(s);
      DroppedDistinct(init, gone);
      DroppedMembers(init, gone);
      if last !in gone { DistinctSnoc(Dropped(init, gone), last); }
      assert Dropped(init, gone) + [] == Dropped(init, gone);
    }
  }

  lemma {:induction false} DroppedShorter(s: seq<string>, gone: set<string>)
    ensures |Dropped(s, gone)| <= |s|
  {
    if s != [] { DroppedShorter(s[..|s| - 1], gone); }
  }

  lemma DroppedKeeps(s: seq<string>, gone: set<string>)
    ensures forall x :: x in Dropped(s, gone) <==> x in s && x !in gone
    ensures Distinct(s) ==> Distinct(Dropped(s, gone))
    ensures |Dropped(s, gone)| <= |s|
  {
    DroppedMembers(s, gone);
    DroppedShorter(s, gone);
    if Distinct(s) { DroppedDistinct(s, gone); }
  }

  /** Two keys that stay, stay in order. */
  lemma {:induction false} DroppedOrder(s: seq<string>, gone: set<string>, i: nat, j: nat) returns (p: nat, q: nat)
    requires i < j < |Dropped(s, gone)|
    ensures p < q < |s| && s[p] == Dropped(s, gone)[i] && s[q] == Dropped(s, gone)[j]
  {
    var init, last := s[..|s| - 1], s[|s| - 1];
    if j < |Dropped(init, gone)| {
      p, q := DroppedOrder(init, gone, i, j);
    } else {
      DroppedKeeps(init, gone);
      assert Dropped(s, gone)[i] == Dropped(init, gone)[i];
      assert Dropped(init, gone)[i] in init;
      p :| 0 <= p < |init| && init[p] == Dropped(init, gone)[i];
      q := |s| - 1;
    }
  }

  lemma {:induction false} DroppedNone(s: seq<string>, gone: set<string>)
    requires forall x :: x in s ==> x !in gone
    ensures Dropped(s, gone) == s
  {
    if s != [] {
      var init := s[..|s| - 1];
      forall x | x in init ensures x !in gone { assert x in s; }
      assert s[|s| - 1] in s;
      DroppedNone(init, gone);
    }
  }

  lemma {:induction false} DroppedAll(s: seq<string>, gone: set<string>)
    requires forall x :: x in s ==> x in gone
    ensures Dropped(s, gone) == []
  {
    if s != [] {
      var init := s[..|s| - 1];
      forall x | x in init ensures x in gone { assert x in s; }
      assert s[|s| - 1] in s;
      DroppedAll(init, gone);
    }
  }

  lemma {:induction false} DroppedAppends(a: seq<string>, b: seq<string>, gone: set<string>)
    ensures Dropped(a + b, gone) == Dropped(a, gone) + Dropped(b, gone)
  {
    if b == [] {
      assert a + b == a;
    } else {
      assert (a + b)[..|a + b| - 1] == a + b[..|b| - 1];
      DroppedAppends(a, b[..|b| - 1], gone);
    }
  }

  lemma {:induction false} DroppedTwice(s: seq<string>, a: set<string>, b: set<string>)
    ensures Dropped(Dropped(s, a), b) == Dropped(s, a + b)
  {
    if s != [] {
      var init, last := s[..|s| - 1], s[|s| - 1];
      DroppedTwice(init, a, b);
      DroppedAppends(Dropped(init, a), if last in a then [] else [last], b);
      assert Dropped([last], b) == (if last in b then [] else [last]) by { assert [last][..0] == []; }
    }
  }

  lemma DroppedPrefix(s: seq<string>, n: nat)
    requires n <= |s| && Distinct(s)
    ensures Dropped(s, Members(s[..n])) == s[n..]
  {
    assert s == s[..n] + s[n..];
    DistinctParts(s[..n], s[n..]);
    DroppedAppends(s[..n], s[n..], Members(s[..n]));
    DroppedAll(s[..n], Members(s[..n]));
    DroppedNone(s[n..], Members(s[..n]));
  }

  // ---- Operations on both maps -----------------------------------------------------------------

  function Removed<V>(s: State<V>, gone: set<string>): State<V> {
    State(Dropped(s.order, gone), s.values - gone, s.expires - gone)
  }

  /** How many have to go so that one more fits. */
  function Excess(size: nat, capacity: int): (n: nat)
    ensures n <= size
  {
    if size < capacity then 0 else if capacity >= 1 then size - (capacity - 1) else size
  }

  /** The oldest keys, as many as have to go. */
  function Oldest<V>(s: State<V>, capacity: int): set<string> {
    Members(s.order[..Excess(|s.order|, capacity)])
  }

  function Stored<V>(s: State<V>, key: string, value: V, expiresAt: int, capacity: int): State<V> {
    var kept := Removed(s, {key});
    var room := Removed(kept, Oldest(kept, capacity));
    State(room.order + [key], room.values[key := value], room.expires[key := expiresAt])
  }

  predicate Expired<V>(s: State<V>, key: string, now: int) {
    key in s.expires && s.expires[key] <= now
  }

  function Touched<V>(s: State<V>, key: string, now: int): State<V> {
    if Expired(s, key, now) then Removed(s, {key}) else s
  }

  function Got<V>(s: State<V>, key: string, now: int): Option<V> {
    if key in s.values && !Expired(s, key, now) then Some(s.values[key]) else None
  }

  function ExpiredKeys<V>(s: State<V>, now: int): set<string> {
    set key | key in s.expires && s.expires[key] <= now
  }

  function Max(a: int, b: int): int { if a >= b then a else b }

  ghost predicate KeysAgree<T>(order: seq<string>, m: map<string, T>) {
    m.Keys == Members(order)
  }

  /** Oldest first is soonest to expire first. */
  ghost predicate SoonestFirst(order: seq<string>, expires: map<string, int>)
    requires Members(order) <= expires.Keys
  {
    forall i, j :: 0 <= i < j < |order| ==> ExpiryAt(order, expires, i) <= ExpiryAt(order, expires, j)
  }

  ghost function ExpiryAt(order: seq<string>, expires: map<string, int>, i: nat): int
    requires i < |order| && Members(order) <= expires.Keys
  {
    assert order[i] in Members(order);
    expires[order[i]]
  }

  ghost predicate ExpireBy(expires: map<string, int>, latest: int) {
    forall key :: key in expires ==> expires[key] <= latest
  }

  /**
   The two maps have the same keys in the same order, the order is also that of
   expiry, and there are no more keys than the capacity allows. `clock` is the time
   of the last operation.
   */
  ghost predicate Sound<V>(s: State<V>, capacity: int, ttlMs: int, clock: int) {
    && Distinct(s.order)
    && KeysAgree(s.order, s.values)
    && KeysAgree(s.order, s.expires)
    && SoonestFirst(s.order, s.expires)
    && ExpireBy(s.expires, clock + ttlMs)
    && |s.order| <= Max(capacity, 1)
  }

  lemma RemovedIsSound<V>(s: State<V>, gone: set<string>, capacity: int, ttlMs: int, clock: int, now: int)
    requires Sound(s, capacity, ttlMs, clock) && clock <= now
    ensures Sound(Removed(s, gone), capacity, ttlMs, now)
  {
    DroppedKeeps(s.order, gone);
    assert Members(Dropped(s.order, gone)) == Members(s.order) - gone;
    RemovedInOrder(s.order, s.expires, gone);
  }

  lemma RemovedInOrder(order: seq<string>, expires: map<string, int>, gone: set<string>)
    requires Members(order) == expires.Keys && SoonestFirst(order, expires)
    requires Members(Dropped(order, gone)) == Members(order) - gone
    ensures SoonestFirst(Dropped(order, gone), expires - gone)
  {
    var kept, left := Dropped(order, gone), expires - gone;
    forall i, j | 0 <= i < j < |kept| ensures ExpiryAt(kept, left, i) <= ExpiryAt(kept, left, j) {
      var p, q := DroppedOrder(order, gone, i, j);
      assert ExpiryAt(order, expires, p) <= ExpiryAt(order, expires, q);
    }
  }

  /** Evicted keys are those that expire first, and no more of them than needed. */
  lemma OldestExpireFirst<V>(s: State<V>, capacity: int, ttlMs: int, clock: int)
    requires Sound(s, capacity, ttlMs, clock)
    ensures forall a, b :: a in Oldest(s, capacity) && b in s.order && b !in Oldest(s, capacity) ==> s.expires[a] <= s.expires[b]
    ensures |Removed(s, Oldest(s, capacity)).order| == if |s.order| < capacity then |s.order| else Max(capacity, 1) - 1
  {
    var n := Excess(|s.order|, capacity);
    DroppedPrefix(s.order, n);
    forall j | 0 <= j < n ensures s.order[j] in Oldest(s, capacity) { assert s.order[..n][j] == s.order[j]; }
    forall a, b | a in Oldest(s, capacity) && b in s.order && b !in Oldest(s, capacity) ensures s.expires[a] <= s.expires[b] {
      var i :| 0 <= i < n && s.order[..n][i] == a;
      var j :| 0 <= j < |s.order| && s.order[j] == b;
      assert i < j;
      assert ExpiryAt(s.order, s.expires, i) <= ExpiryAt(s.order, s.expires, j);
    }
  }

  lemma StoredIsSound<V>(s: State<V>, key: string, value: V, capacity: int, ttlMs: int, clock: int, now: int)
    requires Sound(s, capacity, ttlMs, clock) && clock <= now
    ensures Sound(Stored(s, key, value, now + ttlMs, capacity), capacity, ttlMs, now)
  {
    var kept := Removed(s, {key});
    RemovedIsSound(s, {key}, capacity, ttlMs, clock, now);
    OldestExpireFirst(kept, capacity, ttlMs, now);
    RemovedIsSound(kept, Oldest(kept, capacity), capacity, ttlMs, now, now);
    DroppedMembers(s.order, {key});
    DroppedMembers(kept.order, Oldest(kept, capacity));
    NewestIsSound(Removed(kept, Oldest(kept, capacity)), key, value, capacity, ttlMs, now);
  }

  lemma NewestIsSound<V>(s: State<V>, key: string, value: V, capacity: int, ttlMs: int, now: int)
    requires Sound(s, capacity, ttlMs, now) && key !in s.order && |s.order| < Max(capacity, 1)
    ensures Sound(State(s.order + [key], s.values[key := value], s.expires[key := now + ttlMs]), capacity, ttlMs, now)
  {
    var order, expires := s.order + [key], s.expires[key := now + ttlMs];
    DistinctSnoc(s.order, key);
    assert Members(order) == Members(s.order) + {key};
    forall i, j | 0 <= i < j < |order| ensures ExpiryAt(order, expires, i) <= ExpiryAt(order, expires, j) {
      assert s.order[i] in Members(s.order);
      assert ExpiryAt(s.order, s.expires, i) <= now + ttlMs;
      assert j < |s.order| ==> ExpiryAt(s.order, s.expires, i) <= ExpiryAt(s.order, s.expires, j);
    }
  }

  class BoundedTtlMap<V> {
    const capacity: int
    const ttlMs: int

    // The map this class extends, and `expirations`: each an order and its contents.
    var order: seq<string>
    var values: map<string, V>
    var expiryOrder: seq<string>
    var expirations: map<string, int>

    /** The time of the last operation. */
    ghost var clock: int

    ghost function Now(): State<V>
      reads this
    {
      State(order, values, expirations)
    }

    ghost predicate Valid()
      reads this
    {
      expiryOrder == order && Sound(Now(), capacity, ttlMs, clock)
    }

    constructor (capacity: int, ttlMs: int, now: int)
      ensures Valid() && Now() == State([], map[], map[]) && clock == now
      ensures this.capacity == capacity && this.ttlMs == ttlMs
    {
      this.capacity, this.ttlMs := capacity, ttlMs;
      order, values, expiryOrder, expirations, clock := [], map[], [], map[], now;
    }

    /** `delete`, on both maps. */
    method Drop(key: string)
      requires expiryOrder == order
      modifies this`order, this`values, this`expiryOrder, this`expirations
      ensures expiryOrder == order && Now() == Removed(old(Now()), {key})
    {
      expiryOrder, expirations := Dropped(expiryOrder, {key}), expirations - {key};
      order, values := Dropped(order, {key}), values - {key};
    }

    method Delete(key: string)
      requires Valid()
      modifies this`order, this`values, this`expiryOrder, this`expirations
      ensures Valid() && Now() == Removed(old(Now()), {key})
    {
      RemovedIsSound(Now(), {key}, capacity, ttlMs, clock, clock);
      Drop(key);
    }

    method Get(key: string, now: int) returns (value: Option<V>)
      requires Valid() && clock <= now
      modifies this
      ensures Valid() && clock == now
      ensures value == Got(old(Now()), key, now)
      ensures Now() == Touched(old(Now()), key, now)
    {
      LaterIsSound(Now(), capacity, ttlMs, clock, now);
      if key in expirations && expirations[key] <= now {
        Delete(key);
        LaterIsSound(Now(), capacity, ttlMs, clock, now);
        assert key !in values;
      }
      clock := now;
      value := if key in values then Some(values[key]) else None;
    }

    method Set(key: string, value: V, now: int)
      requires Valid() && clock <= now
      modifies this
      ensures Valid() && clock == now
      ensures Now() == Stored(old(Now()), key, value, now + ttlMs, capacity)
    {
      hide Sound, Removed, Stored;
      StoredIsSound(Now(), key, value, capacity, ttlMs, clock, now);
      Delete(key);
      ghost var kept := Now();
      KeysMatch(kept, capacity, ttlMs, clock);
      RoomIsSuffix(kept, capacity, ttlMs, clock);
      MakeRoom();
      assert Now() == Removed(kept, Oldest(kept, capacity));
      StoredAfterRoom(old(Now()), key, value, now + ttlMs, capacity);
      expiryOrder, expirations := expiryOrder + [key], expirations[key := now + ttlMs];
      order, values := order + [key], values[key := value];
      clock := now;
    }

    /** The eviction loop of `set`: the oldest keys go, as many as have to. */
    method MakeRoom()
      requires expiryOrder == order && Matched(order, values)
      modifies this`order, this`values, this`expiryOrder, this`expirations
      ensures var n := Excess(|old(order)|, capacity);
              && expiryOrder == order == old(order)[n..]
              && values == old(values) - Members(old(order)[..n])
              && expirations == old(expirations) - Members(old(order)[..n])
    {
      ghost var n: nat := 0;
      SuffixSize(order, values, 0);
      NothingGone(values, order);
      NothingGone(expirations, order);
      while |values| >= capacity
        invariant n <= |old(order)| && n <= Excess(|old(order)|, capacity)
        invariant expiryOrder == order == old(order)[n..]
        invariant values == old(values) - Members(old(order)[..n])
        invariant expirations == old(expirations) - Members(old(order)[..n])
        invariant |values| == |old(order)| - n
        decreases |old(order)| - n
      {
        if order == [] { break; }
        OneMoreGone(old(order), n);
        SuffixSize(old(order), old(values), n + 1);
        WithoutTwice(old(values), Members(old(order)[..n]), {old(order)[n]});
        WithoutTwice(old(expirations), Members(old(order)[..n]), {old(order)[n]});
        Drop(order[0]);
        n := n + 1;
      }
      assert |order| == |old(order)| - n;
      assert n == Excess(|old(order)|, capacity);
    }

    method Sweep(now: int)
      requires Valid() && clock <= now
      modifies this
      ensures Valid() && clock == now
      ensures Now() == Removed(old(Now()), ExpiredKeys(old(Now()), now))
    {
      hide Sound, Removed, ExpiredUpTo;
      var all := expiryOrder;
      ghost var start := Now();
      ghost var gone: set<string> := {};
      NothingRemoved(start);
      NoneExpired(start, now);
      for i := 0 to |all|
        invariant expiryOrder == order && clock == old(clock)
        invariant Now() == Removed(start, gone)
        invariant ExpiredUpTo(start, i, now, gone)
      {
        NextExpired(start, i, now, gone, capacity, ttlMs, clock);
        if expirations[all[i]] <= now {
          Drop(all[i]);
          gone := gone + {all[i]};
        }
      }
      AllExpired(start, now, gone, capacity, ttlMs, clock);
      clock := now;
    }
  }

  lemma LaterIsSound<V>(s: State<V>, capacity: int, ttlMs: int, clock: int, now: int)
    requires Sound(s, capacity, ttlMs, clock) && clock <= now
    ensures Sound(s, capacity, ttlMs, now)
  {
  }

  lemma NothingRemoved<V>(s: State<V>)
    ensures Removed(s, {}) == s && Removed(s, Members(s.order[..0])) == s
  {
    DroppedNone(s.order, {});
    assert s.values - {} == s.values && s.expires - {} == s.expires;
    assert Members(s.order[..0]) == {};
  }

  /** `gone` are the expired ones among the first `i` keys. */
  ghost predicate ExpiredUpTo<V>(s: State<V>, i: nat, now: int, gone: set<string>) {
    i <= |s.order| && forall key :: key in gone <==> key in s.order[..i] && key in s.expires && s.expires[key] <= now
  }

  lemma NoneExpired<V>(s: State<V>, now: int)
    ensures ExpiredUpTo(s, 0, now, {})
  {
  }

  lemma NextExpired<V>(s: State<V>, i: nat, now: int, gone: set<string>, capacity: int, ttlMs: int, clock: int)
    requires Sound(s, capacity, ttlMs, clock)
    requires i < |s.order| && ExpiredUpTo(s, i, now, gone)
    ensures s.order[i] in Removed(s, gone).expires && Removed(s, gone).expires[s.order[i]] == s.expires[s.order[i]]
    ensures Removed(Removed(s, gone), {s.order[i]}) == Removed(s, gone + {s.order[i]})
    ensures ExpiredUpTo(s, i + 1, now, if s.expires[s.order[i]] <= now then gone + {s.order[i]} else gone)
  {
    NewMember(s.order, i);
    RemovedTwice(s, gone, {s.order[i]});
  }

  lemma NewMember(order: seq<string>, i: nat)
    requires i < |order| && Distinct(order)
    ensures order[i] in order && order[i] !in order[..i]
    ensures forall x :: x in order[..i + 1] <==> x in order[..i] || x == order[i]
  {
    assert order[..i + 1] == order[..i] + [order[i]];
    assert order == order[..i] + order[i..];
    DistinctParts(order[..i], order[i..]);
    assert order[i..][0] == order[i];
  }

  lemma AllExpired<V>(s: State<V>, now: int, gone: set<string>, capacity: int, ttlMs: int, clock: int)
    requires Sound(s, capacity, ttlMs, clock) && clock <= now
    requires ExpiredUpTo(s, |s.order|, now, gone)
    ensures gone == ExpiredKeys(s, now)
    ensures Sound(Removed(s, gone), capacity, ttlMs, now)
  {
    assert s.order[..|s.order|] == s.order;
    RemovedIsSound(s, gone, capacity, ttlMs, clock, now);
  }

  lemma {:induction false} SizeOf<V>(order: seq<string>, values: map<string, V>)
    requires Distinct(order) && values.Keys == Members(order)
    ensures |values| == |order|
    decreases |order|
  {
    if order == [] {
      assert values == map[];
    } else {
      var init, last := order[..|order| - 1], order[|order| - 1];
      assert order == init + [last];
      DistinctLast(order);
      assert Members(order) == Members(init) + {last};
      SizeOf(init, values - {last});
      assert values.Keys == (values - {last}).Keys + {last};
    }
  }

  lemma WithoutTwice<T>(m: map<string, T>, a: set<string>, b: set<string>)
    ensures m - a - b == m - (a + b)
  {
  }

  lemma RemovedTwice<V>(s: State<V>, a: set<string>, b: set<string>)
    ensures Removed(Removed(s, a), b) == Removed(s, a + b)
  {
    DroppedTwice(s.order, a, b);
    WithoutTwice(s.values, a, b);
    WithoutTwice(s.expires, a, b);
  }

  /** Distinct keys, each with a value. */
  ghost predicate Matched<V>(order: seq<string>, values: map<string, V>) {
    Distinct(order) && values.Keys == Members(order)
  }

  lemma KeysMatch<V>(s: State<V>, capacity: int, ttlMs: int, clock: int)
    requires Sound(s, capacity, ttlMs, clock)
    ensures Matched(s.order, s.values)
  {
  }

  lemma SuffixSize<V>(order: seq<string>, values: map<string, V>, n: nat)
    requires Matched(order, values) && n <= |order|
    ensures |values - Members(order[..n])| == |order| - n
  {
    SuffixMembers(order, n);
    assert (values - Members(order[..n])).Keys == Members(order[n..]);
    SizeOf(order[n..], values - Members(order[..n]));
  }

  lemma NothingGone<T>(m: map<string, T>, order: seq<string>)
    ensures m - Members(order[..0]) == m
  {
    assert Members(order[..0]) == {};
  }

  lemma SuffixMembers(order: seq<string>, n: nat)
    requires Distinct(order) && n <= |order|
    ensures Distinct(order[n..])
    ensures forall x :: x in order[n..] <==> x in order && x !in order[..n]
  {
    DroppedPrefix(order, n);
    DroppedKeeps(order, Members(order[..n]));
  }

  lemma OneMoreGone(order: seq<string>, n: nat)
    requires n < |order| && Distinct(order)
    ensures Dropped(order[n..], {order[n]}) == order[n + 1..]
    ensures Members(order[..n + 1]) == Members(order[..n]) + {order[n]}
  {
    assert order[..n + 1] == order[..n] + [order[n]];
    var tail := order[n..];
    SuffixMembers(order, n);
    assert tail[..1] == [order[n]];
    assert Members(tail[..1]) == {order[n]};
    DroppedPrefix(tail, 1);
    assert tail[1..] == order[n + 1..];
  }

  lemma RoomIsSuffix<V>(s: State<V>, capacity: int, ttlMs: int, clock: int)
    requires Sound(s, capacity, ttlMs, clock)
    ensures Removed(s, Oldest(s, capacity))
         == State(s.order[Excess(|s.order|, capacity)..], s.values - Oldest(s, capacity), s.expires - Oldest(s, capacity))
  {
    DroppedPrefix(s.order, Excess(|s.order|, capacity));
  }

  lemma StoredAfterRoom<V>(s: State<V>, key: string, value: V, expiresAt: int, capacity: int)
    ensures var room := Removed(Removed(s, {key}), Oldest(Removed(s, {key}), capacity));
            Stored(s, key, value, expiresAt, capacity) == State(room.order + [key], room.values[key := value], room.expires[key := expiresAt])
  {
  }

  // ---- How long a value is kept -------------------------------------------------------------

  datatype Op<V> =
    | Set(key: string, value: V, at: int)
    | Get(key: string, at: int)
    | Delete(key: string, at: int)
    | Sweep(at: int)

  predicate InTimeOrder<V>(ops: seq<Op<V>>) {
    forall i, j :: 0 <= i < j < |ops| ==> ops[i].at <= ops[j].at
  }

  function Step<V>(s: State<V>, op: Op<V>, capacity: int, ttlMs: int): State<V> {
    match op
    case Set(key, value, at) => Stored(s, key, value, at + ttlMs, capacity)
    case Get(key, at) => Touched(s, key, at)
    case Delete(key, _) => Removed(s, {key})
    case Sweep(at) => Removed(s, ExpiredKeys(s, at))
  }

  function After<V>(s: State<V>, ops: seq<Op<V>>, capacity: int, ttlMs: int): State<V> {
    if ops == [] then s else Step(After(s, ops[..|ops| - 1], capacity, ttlMs), ops[|ops| - 1], capacity, ttlMs)
  }

  lemma StepIsSound<V>(s: State<V>, op: Op<V>, capacity: int, ttlMs: int)
    requires Sound(s, capacity, ttlMs, op.at)
    ensures Sound(Step(s, op, capacity, ttlMs), capacity, ttlMs, op.at)
  {
    hide Sound, Stored, Removed, Touched;
    match op {
      case Set(key, value, at) => StoredIsSound(s, key, value, capacity, ttlMs, at, at);
      case Get(key, at) => TouchedIsSound(s, key, capacity, ttlMs, at);
      case Delete(key, at) => RemovedIsSound(s, {key}, capacity, ttlMs, at, at);
      case Sweep(at) => RemovedIsSound(s, ExpiredKeys(s, at), capacity, ttlMs, at, at);
    }
  }

  lemma TouchedIsSound<V>(s: State<V>, key: string, capacity: int, ttlMs: int, now: int)
    requires Sound(s, capacity, ttlMs, now)
    ensures Sound(Touched(s, key, now), capacity, ttlMs, now)
  {
    if Expired(s, key, now) { RemovedIsSound(s, {key}, capacity, ttlMs, now, now); }
  }

  predicate TimesWithin<V>(ops: seq<Op<V>>, first: int, last: int) {
    forall i :: 0 <= i < |ops| ==> first <= ops[i].at <= last
  }

  /** Every state on the way is sound. */
  lemma {:induction false} RunIsSound<V>(s: State<V>, ops: seq<Op<V>>, capacity: int, ttlMs: int, clock: int, now: int)
    requires Sound(s, capacity, ttlMs, clock) && InTimeOrder(ops) && clock <= now && TimesWithin(ops, clock, now)
    ensures Sound(After(s, ops, capacity, ttlMs), capacity, ttlMs, now)
    decreases |ops|
  {
    if ops == [] {
      LaterIsSound(s, capacity, ttlMs, clock, now);
    } else {
      var init, op := ops[..|ops| - 1], ops[|ops| - 1];
      InitInTime(ops, clock, now);
      RunIsSound(s, init, capacity, ttlMs, clock, op.at);
      StepIsSound(After(s, init, capacity, ttlMs), op, capacity, ttlMs);
      LaterIsSound(After(s, ops, capacity, ttlMs), capacity, ttlMs, op.at, now);
    }
  }

  lemma InitInTime<V>(ops: seq<Op<V>>, first: int, last: int)
    requires ops != [] && InTimeOrder(ops) && TimesWithin(ops, first, last)
    ensures InTimeOrder(ops[..|ops| - 1]) && TimesWithin(ops[..|ops| - 1], first, ops[|ops| - 1].at)
    ensures first <= ops[|ops| - 1].at <= last
  {
  }

  /** The keys other than `key` that were set. */
  function OthersSet<V>(ops: seq<Op<V>>, key: string): set<string> {
    if ops == [] then {}
    else
      var op := ops[|ops| - 1];
      OthersSet(ops[..|ops| - 1], key) + if op.Set? && op.key != key then {op.key} else {}
  }

  /** Nobody sets or deletes the key. */
  predicate LeftAlone<V>(ops: seq<Op<V>>, key: string) {
    forall i :: 0 <= i < |ops| && (ops[i].Set? || ops[i].Delete?) ==> ops[i].key != key
  }

  /** Where the key stands: after it only keys that were set later. */
  ghost predicate Held<V>(s: State<V>, key: string, value: V, expiresAt: int, front: seq<string>, back: seq<string>,
                          others: set<string>) {
    && s.order == front + [key] + back
    && key in s.values && s.values[key] == value
    && key in s.expires && s.expires[key] == expiresAt
    && Members(back) <= others
    && key !in others
  }

  lemma {:induction false} DistinctSize(s: seq<string>, all: set<string>)
    requires Distinct(s) && Members(s) <= all
    ensures |s| <= |all|
  {
    if s != [] {
      var init, last := s[..|s| - 1], s[|s| - 1];
      DistinctLast(s);
      forall x | x in init ensures x in all - {last} { assert x in s; }
      assert last in s;
      DistinctSize(init, all - {last});
    }
  }

  lemma HeldAfterRemoval<V>(s: State<V>, key: string, value: V, expiresAt: int, front: seq<string>, back: seq<string>,
                            others: set<string>, gone: set<string>)
    requires Held(s, key, value, expiresAt, front, back, others) && key !in gone
    ensures Held(Removed(s, gone), key, value, expiresAt, Dropped(front, gone), Dropped(back, gone), others - gone)
    ensures Held(Removed(s, gone), key, value, expiresAt, Dropped(front, gone), Dropped(back, gone), others)
  {
    DroppedAppends(front + [key], back, gone);
    DroppedAppends(front, [key], gone);
    DroppedKeeps(back, gone);
    assert Dropped([key], gone) == [key] by { assert [key][..0] == []; }
  }

  /** Making room for one more takes nothing from the key on if it and what follows leave room. */
  lemma OldestAreInFront<V>(s: State<V>, key: string, value: V, expiresAt: int, front: seq<string>, back: seq<string>,
                            others: set<string>, capacity: int)
    requires Held(s, key, value, expiresAt, front, back, others) && Distinct(s.order)
    requires |back| + 1 < capacity
    ensures key !in Oldest(s, capacity)
  {
    var n := Excess(|s.order|, capacity);
    assert n <= |front|;
    assert s.order == s.order[..n] + s.order[n..];
    DistinctParts(s.order[..n], s.order[n..]);
    assert s.order[n..][|front| - n] == key;
  }

  lemma HeldAfterSet<V>(s: State<V>, key: string, value: V, expiresAt: int, front: seq<string>, back: seq<string>,
                        others: set<string>, other: string, v: V, e: int, capacity: int)
    returns (front': seq<string>, back': seq<string>)
    requires Held(s, key, value, expiresAt, front, back, others) && Distinct(s.order)
    requires other != key && |others + {other}| < capacity
    ensures Held(Stored(s, other, v, e, capacity), key, value, expiresAt, front', back', others + {other})
  {
    HeldAfterRemoval(s, key, value, expiresAt, front, back, others, {other});
    var kept := Removed(s, {other});
    var f, b := Dropped(front, {other}), Dropped(back, {other});
    DroppedKeeps(s.order, {other});
    BackIsShort(f, key, b, others, other, capacity);
    OldestAreInFront(kept, key, value, expiresAt, f, b, others - {other}, capacity);
    HeldAfterRemoval(kept, key, value, expiresAt, f, b, others - {other}, Oldest(kept, capacity));
    front', back' := Dropped(f, Oldest(kept, capacity)), Dropped(b, Oldest(kept, capacity)) + [other];
    HeldAfterAppend(Removed(kept, Oldest(kept, capacity)), key, value, expiresAt, Dropped(f, Oldest(kept, capacity)),
                    Dropped(b, Oldest(kept, capacity)), others, other, v, e);
  }

  lemma BackIsShort(front: seq<string>, key: string, back: seq<string>, others: set<string>, other: string, capacity: int)
    requires Distinct(front + [key] + back) && Members(back) <= others - {other}
    requires |others + {other}| < capacity
    ensures |back| + 1 < capacity
  {
    DistinctParts(front + [key], back);
    DistinctSize(back, others - {other});
    assert others + {other} == (others - {other}) + {other};
  }

  lemma HeldAfterAppend<V>(s: State<V>, key: string, value: V, expiresAt: int, front: seq<string>, back: seq<string>,
                           others: set<string>, other: string, v: V, e: int)
    requires Held(s, key, value, expiresAt, front, back, others) && other != key
    ensures Held(State(s.order + [other], s.values[other := v], s.expires[other := e]), key, value, expiresAt,
                 front, back + [other], others + {other})
  {
    assert s.order + [other] == front + [key] + (back + [other]);
  }

  /** One step of the others leaves the key held. */
  lemma HeldAfterStep<V>(s: State<V>, key: string, value: V, expiresAt: int, front: seq<string>, back: seq<string>,
                         others: set<string>, op: Op<V>, capacity: int, ttlMs: int)
    returns (front': seq<string>, back': seq<string>)
    requires Held(s, key, value, expiresAt, front, back, others) && Distinct(s.order)
    requires op.at < expiresAt && LeftAlone([op], key)
    requires op.Set? ==> |others + {op.key}| < capacity
    ensures Held(Step(s, op, capacity, ttlMs), key, value, expiresAt, front', back', if op.Set? then others + {op.key} else others)
  {
    assert [op][0] == op;
    front', back' := front, back;
    match op {
      case Set(other, v, at) =>
        front', back' := HeldAfterSet(s, key, value, expiresAt, front, back, others, other, v, at + ttlMs, capacity);
      case Get(other, at) =>
        if Expired(s, other, at) {
          HeldAfterRemoval(s, key, value, expiresAt, front, back, others, {other});
          front', back' := Dropped(front, {other}), Dropped(back, {other});
        }
      case Delete(other, _) =>
        HeldAfterRemoval(s, key, value, expiresAt, front, back, others, {other});
        front', back' := Dropped(front, {other}), Dropped(back, {other});
      case Sweep(at) =>
        HeldAfterRemoval(s, key, value, expiresAt, front, back, others, ExpiredKeys(s, at));
        front', back' := Dropped(front, ExpiredKeys(s, at)), Dropped(back, ExpiredKeys(s, at));
    }
  }

  lemma HeldAtFirst<V>(s: State<V>, key: string, value: V, expiresAt: int, capacity: int)
    returns (front: seq<string>, back: seq<string>)
    ensures Held(Stored(s, key, value, expiresAt, capacity), key, value, expiresAt, front, back, {})
  {
    var order := Stored(s, key, value, expiresAt, capacity).order;
    front, back := order[..|order| - 1], [];
    assert order == front + [key] + back;
  }

  lemma SoundIsDistinct<V>(s: State<V>, capacity: int, ttlMs: int, clock: int)
    requires Sound(s, capacity, ttlMs, clock)
    ensures Distinct(s.order)
  {
  }

  lemma {:induction false} HeldThroughout<V>(s: State<V>, key: string, value: V, setAt: int, ops: seq<Op<V>>,
                                             capacity: int, ttlMs: int, clock: int)
    returns (front: seq<string>, back: seq<string>)
    requires Sound(s, capacity, ttlMs, clock) && clock <= setAt
    requires InTimeOrder(ops) && TimesWithin(ops, setAt, setAt + ttlMs - 1)
    requires LeftAlone(ops, key) && |OthersSet(ops, key)| < capacity
    ensures Held(After(Stored(s, key, value, setAt + ttlMs, capacity), ops, capacity, ttlMs), key, value, setAt + ttlMs,
                 front, back, OthersSet(ops, key))
    decreases |ops|
  {
    hide Sound, Stored, Held;
    var start := Stored(s, key, value, setAt + ttlMs, capacity);
    StoredIsSound(s, key, value, capacity, ttlMs, clock, setAt);
    if ops == [] {
      front, back := HeldAtFirst(s, key, value, setAt + ttlMs, capacity);
    } else {
      var init, op := ops[..|ops| - 1], ops[|ops| - 1];
      SubsetSize(OthersSet(init, key), OthersSet(ops, key));
      InitInTime(ops, setAt, setAt + ttlMs - 1);
      front, back := HeldThroughout(s, key, value, setAt, init, capacity, ttlMs, clock);
      RunIsSound(start, init, capacity, ttlMs, setAt, op.at);
      assert LeftAlone([op], key);
      SoundIsDistinct(After(start, init, capacity, ttlMs), capacity, ttlMs, op.at);
      front, back := HeldAfterStep(After(start, init, capacity, ttlMs), key, value, setAt + ttlMs, front, back,
                                   OthersSet(init, key), op, capacity, ttlMs);
    }
  }

  lemma {:induction false} SubsetSize(a: set<string>, b: set<string>)
    requires a <= b
    ensures |a| <= |b|
  {
    if a != {} {
      var x :| x in a;
      SubsetSize(a - {x}, b - {x});
    }
  }

  lemma HeldIsGot<V>(s: State<V>, key: string, value: V, expiresAt: int, front: seq<string>, back: seq<string>,
                     others: set<string>, now: int)
    requires Held(s, key, value, expiresAt, front, back, others) && now < expiresAt
    ensures Got(s, key, now) == Some(value)
  {
  }

  lemma StoredExpiry<V>(s: State<V>, key: string, value: V, expiresAt: int, capacity: int)
    ensures key in Stored(s, key, value, expiresAt, capacity).expires
    ensures Stored(s, key, value, expiresAt, capacity).expires[key] == expiresAt
  {
  }

  lemma SoundHasKeys<V>(s: State<V>, capacity: int, ttlMs: int, clock: int)
    requires Sound(s, capacity, ttlMs, clock)
    ensures s.values.Keys == s.expires.Keys
  {
  }

  /**
   A value that was set is what `get` returns as long as it is younger than the
   time to live, was not set or deleted again, and fewer than `capacity` distinct
   other keys have been set since.
   */
  lemma SetIsKept<V>(s: State<V>, key: string, value: V, setAt: int, ops: seq<Op<V>>, now: int, capacity: int,
                     ttlMs: int, clock: int)
    requires Sound(s, capacity, ttlMs, clock) && clock <= setAt <= now
    requires InTimeOrder(ops) && TimesWithin(ops, setAt, now)
    requires LeftAlone(ops, key) && |OthersSet(ops, key)| < capacity
    ensures Got(After(Stored(s, key, value, setAt + ttlMs, capacity), ops, capacity, ttlMs), key, now)
         == if now < setAt + ttlMs then Some(value) else None
  {
    hide Sound, Stored, Held;
    if now < setAt + ttlMs {
      var front, back := HeldThroughout(s, key, value, setAt, ops, capacity, ttlMs, clock);
      HeldIsGot(After(Stored(s, key, value, setAt + ttlMs, capacity), ops, capacity, ttlMs), key, value, setAt + ttlMs,
                front, back, OthersSet(ops, key), now);
    } else {
      StoredExpiry(s, key, value, setAt + ttlMs, capacity);
      StoredIsSound(s, key, value, capacity, ttlMs, clock, setAt);
      Untouched(Stored(s, key, value, setAt + ttlMs, capacity), key, setAt + ttlMs, ops, capacity, ttlMs, setAt, now);
      SoundHasKeys(After(Stored(s, key, value, setAt + ttlMs, capacity), ops, capacity, ttlMs), capacity, ttlMs, now);
    }
  }

  /** A key that is not set again keeps its value and its time of expiry, or is gone. */
  lemma {:induction false} Untouched<V>(s: State<V>, key: string, expiresAt: int, ops: seq<Op<V>>, capacity: int,
                                        ttlMs: int, clock: int, now: int)
    requires Sound(s, capacity, ttlMs, clock) && clock <= now && InTimeOrder(ops)
    requires TimesWithin(ops, clock, now)
    requires key in s.values ==> s.expires[key] == expiresAt
    requires forall i :: 0 <= i < |ops| && ops[i].Set? ==> ops[i].key != key
    ensures Sound(After(s, ops, capacity, ttlMs), capacity, ttlMs, now)
    ensures key in After(s, ops, capacity, ttlMs).values ==>
              && key in s.values && After(s, ops, capacity, ttlMs).values[key] == s.values[key]
              && After(s, ops, capacity, ttlMs).expires[key] == expiresAt
    decreases |ops|
  {
    RunIsSound(s, ops, capacity, ttlMs, clock, now);
    if ops != [] {
      var init, op := ops[..|ops| - 1], ops[|ops| - 1];
      InitInTime(ops, clock, now);
      Untouched(s, key, expiresAt, init, capacity, ttlMs, clock, op.at);
    }
  }

  /** Once deleted, a key is not found again until it is set again. */
  lemma DeletedIsGone<V>(s: State<V>, key: string, ops: seq<Op<V>>, capacity: int, ttlMs: int, clock: int, now: int)
    requires Sound(s, capacity, ttlMs, clock) && clock <= now && InTimeOrder(ops)
    requires TimesWithin(ops, clock, now)
    requires forall i :: 0 <= i < |ops| && ops[i].Set? ==> ops[i].key != key
    ensures Got(After(Removed(s, {key}), ops, capacity, ttlMs), key, now) == None
  {
    RemovedIsSound(s, {key}, capacity, ttlMs, clock, clock);
    Untouched(Removed(s, {key}), key, 0, ops, capacity, ttlMs, clock, now);
  }
}
