/**
 Orders used by the SQL `ORDER BY` clauses of the repository, and what a sorted
 result means: for a strict total order and distinct keys there is exactly one
 sorted listing of a set, whichever order the rows were read in.
 */
module Orders {

  /** A strict order in which any two different keys are comparable. */
  ghost predicate StrictTotal<K(!new)>(less: (K, K) -> bool) {
    && (forall a :: !less(a, a))
    && (forall a, b, c :: less(a, b) && less(b, c) ==> less(a, c))
    && (forall a, b :: a == b || less(a, b) || less(b, a))
  }

  ghost predicate Injective<T(!new), K>(key: T -> K) {
    forall x, y :: key(x) == key(y) ==> x == y
  }

  /** Strictly ascending by key: in order, and no key twice. */
  ghost predicate Ascending<T, K>(less: (K, K) -> bool, key: T -> K, s: seq<T>) {
    forall i, j :: 0 <= i < j < |s| ==> less(key(s[i]), key(s[j]))
  }

  function Insert<T, K>(less: (K, K) -> bool, key: T -> K, x: T, s: seq<T>): seq<T> {
    if s == [] then [x]
    else if less(key(x), key(s[0])) then [x] + s
    else [s[0]] + Insert(less, key, x, s[1..])
  }

  /** `SELECT .. ORDER BY key` over a relation without duplicates. */
  ghost function OrderBy<T, K>(less: (K, K) -> bool, key: T -> K, s: set<T>): seq<T> {
    if s == {} then []
    else
      var x :| x in s;
      Insert(less, key, x, OrderBy(less, key, s - {x}))
  }

  lemma {:induction false} InsertKeepsOrder<T(!new), K(!new)>(less: (K, K) -> bool, key: T -> K, x: T, s: seq<T>)
    requires StrictTotal(less) && Injective(key)
    requires Ascending(less, key, s) && x !in s
    ensures Ascending(less, key, Insert(less, key, x, s))
    ensures forall y :: y in Insert(less, key, x, s) <==> y == x || y in s
    ensures |Insert(less, key, x, s)| == |s| + 1
  {
    if s == [] {
    } else if less(key(x), key(s[0])) {
      var r := [x] + s;
      forall i, j | 0 <= i < j < |r| ensures less(key(r[i]), key(r[j])) {
        if i == 0 && j > 1 {
          assert less(key(s[0]), key(s[j - 1]));
        }
      }
    } else {
      var tail := s[1..];
      InsertKeepsOrder(less, key, x, tail);
      var ins := Insert(less, key, x, tail);
      var r := [s[0]] + ins;
      assert key(x) != key(s[0]);
      forall i, j | 0 <= i < j < |r| ensures less(key(r[i]), key(r[j])) {
        if i == 0 {
          assert ins[j - 1] in ins;
        }
      }
      assert s == [s[0]] + tail;
    }
  }

  /** The sorted listing has the relation's rows, each once, in ascending order. */
  lemma {:induction false} OrderBySorts<T(!new), K(!new)>(less: (K, K) -> bool, key: T -> K, s: set<T>)
    requires StrictTotal(less) && Injective(key)
    ensures Ascending(less, key, OrderBy(less, key, s))
    ensures forall y :: y in OrderBy(less, key, s) <==> y in s
    ensures |OrderBy(less, key, s)| == |s|
  {
    if s != {} {
      var x :| x in s && OrderBy(less, key, s) == Insert(less, key, x, OrderBy(less, key, s - {x}));
      OrderBySorts(less, key, s - {x});
      InsertKeepsOrder(less, key, x, OrderBy(less, key, s - {x}));
    }
  }

  /** Two ascending listings of the same rows are the same listing. */
  lemma {:induction false} AscendingIsUnique<T(!new), K(!new)>(less: (K, K) -> bool, key: T -> K, a: seq<T>, b: seq<T>)
    requires StrictTotal(less)
    requires Ascending(less, key, a) && Ascending(less, key, b)
    requires forall x :: x in a <==> x in b
    ensures a == b
  {
    assert |b| > 0 ==> b[0] in a;
    assert |a| > 0 ==> a[0] in b;
    if |a| > 0 {
      var i :| 0 <= i < |a| && a[i] == b[0];
      var j :| 0 <= j < |b| && b[j] == a[0];
      assert i == 0;
      var a', b' := a[1..], b[1..];
      forall x ensures x in a' <==> x in b' {
        if x in a' {
          var k :| 0 <= k < |a'| && a'[k] == x;
          assert less(key(a[0]), key(a[k + 1]));
          assert x in b;
        }
        if x in b' {
          var k :| 0 <= k < |b'| && b'[k] == x;
          assert less(key(b[0]), key(b[k + 1]));
          assert x in a;
        }
      }
      AscendingIsUnique(less, key, a', b');
      assert a == [a[0]] + a' && b == [b[0]] + b';
    }
  }

  /** Sorting an already ascending listing changes nothing. */
  lemma OrderByOfAscending<T(!new), K(!new)>(less: (K, K) -> bool, key: T -> K, s: seq<T>)
    requires StrictTotal(less) && Injective(key)
    requires Ascending(less, key, s)
    ensures OrderBy(less, key, set x | x in s) == s
  {
    var all := set x | x in s;
    OrderBySorts(less, key, all);
    AscendingIsUnique(less, key, OrderBy(less, key, all), s);
  }

  /** Only the keys of the sorted rows matter. */
  lemma {:induction false} OrderByCongruent<T(!new), K(!new)>(less: (K, K) -> bool, key: T -> K, key': T -> K, s: set<T>)
    requires StrictTotal(less) && Injective(key) && Injective(key')
    requires forall x :: x in s ==> key(x) == key'(x)
    ensures OrderBy(less, key, s) == OrderBy(less, key', s)
  {
    OrderBySorts(less, key, s);
    OrderBySorts(less, key', s);
    var r := OrderBy(less, key', s);
    forall i, j | 0 <= i < j < |r| ensures less(key(r[i]), key(r[j])) {
      assert r[i] in r && r[j] in r;
    }
    AscendingIsUnique(less, key, OrderBy(less, key, s), r);
  }

  /** `LIMIT limit OFFSET offset`. */
  function Page<T>(s: seq<T>, limit: nat, offset: nat): seq<T> {
    var lo := if offset < |s| then offset else |s|;
    var hi := if lo + limit < |s| then lo + limit else |s|;
    s[lo..hi]
  }

  /** `LIMIT limit OFFSET offset` */
  lemma PageIs<T>(s: seq<T>, limit: nat, offset: nat)
    ensures |Page(s, limit, offset)| == if offset >= |s| then 0 else if offset + limit <= |s| then limit else |s| - offset
    ensures forall i :: 0 <= i < |Page(s, limit, offset)| ==> Page(s, limit, offset)[i] == s[offset + i]
  {
  }

  lemma PageOfAscending<T, K>(less: (K, K) -> bool, key: T -> K, s: seq<T>, limit: nat, offset: nat)
    requires Ascending(less, key, s)
    ensures Ascending(less, key, Page(s, limit, offset))
    ensures forall x :: x in Page(s, limit, offset) ==> x in s
  {
  }

  /** Pages first, first + 1, .., last - 1 (numbered from 1) one after the other. */
  function Pages<T>(s: seq<T>, limit: nat, first: nat, last: nat): seq<T>
    requires 1 <= first <= last
    decreases last - first
  {
    if first == last then [] else Page(s, limit, (first - 1) * limit) + Pages(s, limit, first + 1, last)
  }

  lemma NextOffset(first: nat, limit: nat)
    requires first >= 1
    ensures first * limit == (first - 1) * limit + limit
  {
  }

  /** Once the pages reach the end of the listing they have shown all of it. */
  lemma {:induction false} PagesCover<T>(s: seq<T>, limit: nat, first: nat, last: nat)
    requires limit > 0 && 1 <= first <= last
    requires |s| <= (last - 1) * limit
    ensures Pages(s, limit, first, last) == if (first - 1) * limit <= |s| then s[(first - 1) * limit..] else []
    decreases last - first
  {
    if first < last {
      var offset := (first - 1) * limit;
      NextOffset(first, limit);
      PagesCover(s, limit, first + 1, last);
      if offset + limit <= |s| {
        assert s[offset..] == s[offset..offset + limit] + s[offset + limit..];
      }
    }
  }

  // ---- Text in SQLite's BINARY collation ------------------------------------

  /** Text comparison by code point; the same order as that of the UTF-8 bytes. */
  predicate TextLess(a: string, b: string) {
    if b == [] then false
    else if a == [] then true
    else if a[0] != b[0] then a[0] < b[0]
    else TextLess(a[1..], b[1..])
  }

  /** At this place the texts first differ, and there `a` ends or has the lesser character. */
  predicate DecidedAt(a: string, b: string, n: int) {
    0 <= n <= |a| && n < |b| && a[..n] == b[..n] && (n == |a| || a[n] < b[n])
  }

  /** The first difference decides, and a text comes before its extensions. */
  lemma {:induction false} TextLessIff(a: string, b: string)
    ensures TextLess(a, b) <==> exists n :: DecidedAt(a, b, n)
  {
    forall n | DecidedAt(a, b, n) && n > 0 ensures a != [] && b != [] && a[0] == b[0] {
      assert a[..n][0] == b[..n][0];
    }
    if a == [] || b == [] || a[0] != b[0] {
      if b != [] && (a == [] || a[0] < b[0]) { assert DecidedAt(a, b, 0); }
    } else {
      TextLessIff(a[1..], b[1..]);
      forall n | DecidedAt(a[1..], b[1..], n) ensures DecidedAt(a, b, n + 1) {
        assert a[..n + 1] == [a[0]] + a[1..][..n] && b[..n + 1] == [b[0]] + b[1..][..n];
      }
      forall n | DecidedAt(a, b, n) ensures DecidedAt(a[1..], b[1..], n - 1) {
        assert a[1..][..n - 1] == a[..n][1..] && b[1..][..n - 1] == b[..n][1..];
      }
    }
  }

  lemma {:induction false} TextLessIrreflexive(a: string)
    ensures !TextLess(a, a)
  {
    if a != [] { TextLessIrreflexive(a[1..]); }
  }

  lemma {:induction false} TextLessTransitive(a: string, b: string, c: string)
    requires TextLess(a, b) && TextLess(b, c)
    ensures TextLess(a, c)
  {
    if a != [] && a[0] == b[0] && b[0] == c[0] { TextLessTransitive(a[1..], b[1..], c[1..]); }
  }

  lemma {:induction false} TextLessConnected(a: string, b: string)
    ensures a == b || TextLess(a, b) || TextLess(b, a)
  {
    if a != [] && b != [] && a[0] == b[0] {
      TextLessConnected(a[1..], b[1..]);
      assert a == [a[0]] + a[1..] && b == [b[0]] + b[1..];
    }
  }

  lemma TextLessStrictTotal()
    ensures StrictTotal(TextLess)
  {
    forall a: string ensures !TextLess(a, a) { TextLessIrreflexive(a); }
    forall a: string, b: string, c: string | TextLess(a, b) && TextLess(b, c) ensures TextLess(a, c) {
      TextLessTransitive(a, b, c);
    }
    forall a: string, b: string ensures a == b || TextLess(a, b) || TextLess(b, a) { TextLessConnected(a, b); }
  }
}
