/**
 The two arrays of a session row that are unpacked from GROUP_CONCAT text. SQLite
 delivers the parts in the order of whatever scan it chose; the arrays must not show it.
 Both arrays are sorted; sorting depends on nothing but the set of members.
 */
module SessionArrays {
  import opened Options
  import opened Orders
  import opened Texts

  /** CHAR(31), the separator. */
  const US: char := 31 as char

  /** What JSON.parse makes of a tag blob: the strings of an array, or nothing that counts. */
  type Parser = string -> Option<set<string>>

  function Itself(s: string): string { s }

  ghost function Alphabetical(s: set<string>): seq<string> {
    OrderBy(TextLess, Itself, s)
  }

  lemma AlphabeticalIs(s: set<string>)
    ensures Ascending(TextLess, Itself, Alphabetical(s))
    ensures forall x :: x in Alphabetical(s) <==> x in s
  {
    TextLessStrictTotal();
    OrderBySorts(TextLess, Itself, s);
  }

  /** `Array.prototype.sort` without a comparator. */
  method Sort(s: seq<string>) returns (r: seq<string>)
    requires forall i, j :: 0 <= i < j < |s| ==> s[i] != s[j]
    ensures r == Alphabetical(set x | x in s)
  {
    TextLessStrictTotal();
    r := [];
    for i := 0 to |s|
      invariant Ascending(TextLess, Itself, r)
      invariant forall x :: x in r <==> x in s[..i]
    {
      assert s[i] !in s[..i];
      assert s[..i + 1] == s[..i] + [s[i]];
      InsertKeepsOrder(TextLess, Itself, s[i], r);
      r := Insert(TextLess, Itself, s[i], r);
    }
    assert s[..|s|] == s;
    AlphabeticalIs(set x | x in s);
    AscendingIsUnique(TextLess, Itself, r, Alphabetical(set x | x in s));
  }

  // ---- Tags ---------------------------------------------------------------------------

  /** The tags of one blob: malformed or empty blobs have none. */
  function TagsOf(blob: string, parse: Parser): set<string> {
    if blob != "" && parse(blob).Some? then parse(blob).value else {}
  }

  function AllTags(blobs: seq<string>, parse: Parser): set<string> {
    set i, t | 0 <= i < |blobs| && t in TagsOf(blobs[i], parse) :: t
  }

  /** `parseTagsConcat` */
  method ParseTagsConcat(concat: Option<string>, parse: Parser) returns (tags: seq<string>)
    ensures concat.None? ==> tags == []
    ensures concat.Some? ==> tags == Alphabetical(AllTags(Split(concat.value, US), parse))
  {
    if concat.None? { return []; }
    var blobs := Split(concat.value, US);
    var found: set<string> := {};
    for i := 0 to |blobs|
      invariant found == AllTags(blobs[..i], parse)
    {
      var parsed := if blobs[i] != "" then parse(blobs[i]) else None;
      if parsed.Some? {
        found := found + parsed.value;
      }
      MoreTags(blobs, i, parse);
    }
    assert blobs[..|blobs|] == blobs;
    var list := Listed(found);
    tags := Sort(list);
    assert (set x | x in list) == found;
  }

  lemma MoreTags(blobs: seq<string>, i: nat, parse: Parser)
    requires i < |blobs|
    ensures AllTags(blobs[..i + 1], parse) == AllTags(blobs[..i], parse) + TagsOf(blobs[i], parse)
  {
    var before, after := blobs[..i], blobs[..i + 1];
    assert after == before + [blobs[i]];
    forall t | t in AllTags(before, parse) ensures t in AllTags(after, parse) {
      var k :| 0 <= k < |before| && t in TagsOf(before[k], parse);
      assert t in TagsOf(after[k], parse);
    }
    forall t | t in TagsOf(blobs[i], parse) ensures t in AllTags(after, parse) {
      assert t in TagsOf(after[i], parse);
    }
  }

  /** `Array.from` of a set: its members, each once. */
  method Listed(s: set<string>) returns (list: seq<string>)
    ensures forall x :: x in list <==> x in s
    ensures forall i, j :: 0 <= i < j < |list| ==> list[i] != list[j]
  {
    list := [];
    var left := s;
    while left != {}
      invariant left <= s
      invariant forall x :: x in list <==> x in s && x !in left
      invariant forall i, j :: 0 <= i < j < |list| ==> list[i] != list[j]
      decreases |left|
    {
      var x :| x in left;
      left := left - {x};
      list := list + [x];
    }
  }

  /**
   Two scans that deliver the same blobs in different orders, and with different
   repetitions, give the same array. Stored blobs are JSON text, which escapes the
   separator.
   */
  lemma TagsIgnoreOrder(a: seq<string>, b: seq<string>, parse: Parser)
    requires a != [] && b != [] && forall x :: x in a <==> x in b
    requires forall i :: 0 <= i < |a| ==> US !in a[i]
    ensures AllTags(Split(Join(a, US), US), parse) == AllTags(Split(Join(b, US), US), parse)
  {
    forall i | 0 <= i < |b| ensures US !in b[i] {
      assert b[i] in a;
    }
    SplitOfJoin(a, US);
    SplitOfJoin(b, US);
    SomeTags(a, b, parse);
    SomeTags(b, a, parse);
  }

  lemma SomeTags(a: seq<string>, b: seq<string>, parse: Parser)
    requires forall x :: x in a ==> x in b
    ensures AllTags(a, parse) <= AllTags(b, parse)
  {
    forall t | t in AllTags(a, parse) ensures t in AllTags(b, parse) {
      var i :| 0 <= i < |a| && t in TagsOf(a[i], parse);
      assert a[i] in b;
      var j :| 0 <= j < |b| && b[j] == a[i];
      assert t in TagsOf(b[j], parse);
    }
  }

  // ---- Users --------------------------------------------------------------------------

  /** `filter(Boolean)` */
  function NonEmpty(parts: seq<string>): seq<string> {
    if parts == [] then []
    else NonEmpty(parts[..|parts| - 1]) + if parts[|parts| - 1] == "" then [] else [parts[|parts| - 1]]
  }

  lemma {:induction false} NonEmptyMembers(parts: seq<string>)
    ensures forall x :: x in NonEmpty(parts) <==> x in parts && x != ""
    ensures (forall i :: 0 <= i < |parts| ==> parts[i] != "") ==> NonEmpty(parts) == parts
  {
    if parts != [] {
      var init, last := parts[..|parts| - 1], parts[|parts| - 1];
      NonEmptyMembers(init);
      assert parts == init + [last];
    }
  }

  lemma {:induction false} SplitIsPlain(text: string, sep: char)
    ensures forall i :: 0 <= i < |Split(text, sep)| ==> sep !in Split(text, sep)[i]
  {
    ResidueIsPlain(text, sep);
    if text != [] {
      var init := text[..|text| - 1];
      SplitIsPlain(init, sep);
      var parts := Split(init, sep);
      forall i | 0 <= i < |Ended(text, sep)| ensures sep !in Ended(text, sep)[i] {
        assert Ended(text, sep)[i] == parts[i];
      }
    }
  }

  /** `parseUsersConcat` before its sort: the parts that are not empty. */
  function UsersIn(concat: string): seq<string> {
    NonEmpty(Split(concat, US))
  }

  /**
   GROUP_CONCAT of the distinct non-empty users of a session gives back exactly these
   users if and only if no user id contains the separator.
   */
  lemma UsersComeBackIff(users: seq<string>)
    requires users != [] && forall i :: 0 <= i < |users| ==> users[i] != ""
    ensures UsersIn(Join(users, US)) == users <==> forall i :: 0 <= i < |users| ==> US !in users[i]
    ensures (forall x :: x in UsersIn(Join(users, US)) <==> x in users) <==> forall i :: 0 <= i < |users| ==> US !in users[i]
  {
    var parts := Split(Join(users, US), US);
    NonEmptyMembers(parts);
    if forall i :: 0 <= i < |users| ==> US !in users[i] {
      SplitOfJoin(users, US);
    } else {
      var i :| 0 <= i < |users| && US in users[i];
      SplitIsPlain(Join(users, US), US);
      assert users[i] in users && users[i] !in parts;
    }
  }
}
