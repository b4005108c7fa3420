/** Splitting and joining text the way `String.prototype.split` and GROUP_CONCAT do. */
module Texts {

  /** White space, as `trim` and `\s` have it. */
  predicate IsSpace(c: char) {
    || c in "\t\n\r \U{0B}\U{0C}\U{A0}\U{1680}\U{2028}\U{2029}\U{202F}\U{205F}\U{3000}\U{FEFF}"
    || '\U{2000}' <= c <= '\U{200A}'
  }

  /** The 25 code points that ECMAScript calls white space or line terminators. */
  lemma SpaceIff(c: char)
    ensures IsSpace(c) <==>
              c as int in {9, 10, 11, 12, 13, 32, 160, 5760, 8192, 8193, 8194, 8195, 8196, 8197, 8198, 8199, 8200, 8201, 8202,
                           8232, 8233, 8239, 8287, 12288, 65279}
  {
    assert c in "\t\n\r \U{0B}\U{0C}\U{A0}\U{1680}\U{2028}\U{2029}\U{202F}\U{205F}\U{3000}\U{FEFF}"
      <==> c as int in {9, 10, 13, 32, 11, 12, 160, 5760, 8232, 8233, 8239, 8287, 12288, 65279};
  }

  /** The part of a text that the separators end. */
  function Ended(text: string, sep: char): seq<string> {
    if text == [] then []
    else
      var init := text[..|text| - 1];
      if text[|text| - 1] == sep then Ended(init, sep) + [Residue(init, sep)] else Ended(init, sep)
  }

  /** What follows the last separator. */
  function Residue(text: string, sep: char): string {
    if text == [] || text[|text| - 1] == sep then []
    else Residue(text[..|text| - 1], sep) + [text[|text| - 1]]
  }

  /** `text.split(sep)` for a one-character separator: never empty. */
  function Split(text: string, sep: char): seq<string> {
    Ended(text, sep) + [Residue(text, sep)]
  }

  lemma SplitSnoc(text: string, c: char, sep: char)
    ensures Ended(text + [c], sep) == if c == sep then Ended(text, sep) + [Residue(text, sep)] else Ended(text, sep)
    ensures Residue(text + [c], sep) == if c == sep then [] else Residue(text, sep) + [c]
  {
    assert (text + [c])[..|text|] == text;
  }

  /** A text without separators extends the last part only. */
  lemma {:induction false} AppendPlain(text: string, more: string, sep: char)
    requires sep !in more
    ensures Ended(text + more, sep) == Ended(text, sep)
    ensures Residue(text + more, sep) == Residue(text, sep) + more
  {
    hide Ended, Residue;
    if more == [] {
      assert text + more == text;
    } else {
      var init, last := more[..|more| - 1], more[|more| - 1];
      AppendPlain(text, init, sep);
      SplitSnoc(text + init, last, sep);
      assert text + more == text + init + [last];
      assert last in more;
    }
  }

  lemma {:induction false} ResidueIsPlain(text: string, sep: char)
    ensures sep !in Residue(text, sep)
    ensures Ended(Residue(text, sep), sep) == [] && Residue(Residue(text, sep), sep) == Residue(text, sep)
  {
    if text != [] && text[|text| - 1] != sep {
      ResidueIsPlain(text[..|text| - 1], sep);
      var r := Residue(text, sep);
      assert r[..|r| - 1] == Residue(text[..|text| - 1], sep);
    }
  }

  /** Cutting a text anywhere: keep the residue of the left part, then go on. */
  lemma {:induction false} SplitIsIncremental(a: string, b: string, sep: char)
    ensures Ended(a + b, sep) == Ended(a, sep) + Ended(Residue(a, sep) + b, sep)
    ensures Residue(a + b, sep) == Residue(Residue(a, sep) + b, sep)
  {
    var left := Residue(a, sep);
    if b == [] {
      assert a + b == a && left + b == left;
      ResidueIsPlain(a, sep);
    } else {
      var init, last := b[..|b| - 1], b[|b| - 1];
      SplitIsIncremental(a, init, sep);
      assert (a + b)[..|a + b| - 1] == a + init && (a + b)[|a + b| - 1] == last;
      assert (left + b)[..|left + b| - 1] == left + init && (left + b)[|left + b| - 1] == last;
    }
  }

  /** The first part only grows when text is appended. */
  lemma {:induction false} FirstPartGrows(head: string, more: string, sep: char)
    requires sep !in head
    ensures head <= Split(head + more, sep)[0]
  {
    if more == [] {
      assert head + more == head && [] + head == head;
      AppendPlain([], head, sep);
    } else {
      var init := more[..|more| - 1];
      FirstPartGrows(head, init, sep);
      assert (head + more)[..|head + more| - 1] == head + init;
    }
  }

  function Join(parts: seq<string>, sep: char): string
    requires parts != []
  {
    if |parts| == 1 then parts[0] else Join(parts[..|parts| - 1], sep) + [sep] + parts[|parts| - 1]
  }

  lemma SplitOfJoined(text: string, last: string, sep: char)
    requires sep !in last
    ensures Split(text + [sep] + last, sep) == Split(text, sep) + [last]
  {
    SplitSnoc(text, sep, sep);
    AppendPlain(text + [sep], last, sep);
    assert [] + last == last;
  }

  /** Splitting undoes joining when no part contains the separator. */
  lemma {:induction false} SplitOfJoin(parts: seq<string>, sep: char)
    requires parts != []
    requires forall i :: 0 <= i < |parts| ==> sep !in parts[i]
    ensures Split(Join(parts, sep), sep) == parts
  {
    var init, last := parts[..|parts| - 1], parts[|parts| - 1];
    assert parts == init + [last];
    if init == [] {
      AppendPlain([], last, sep);
      assert [] + last == last;
    } else {
      SplitOfJoin(init, sep);
      SplitOfJoined(Join(init, sep), last, sep);
    }
  }

  /** Concatenation of the pieces a reader delivered. */
  function Concat<T>(pieces: seq<seq<T>>): seq<T> {
    if pieces == [] then [] else Concat(pieces[..|pieces| - 1]) + pieces[|pieces| - 1]
  }

  lemma ConcatSnoc<T>(pieces: seq<seq<T>>, x: seq<T>)
    ensures Concat(pieces + [x]) == Concat(pieces) + x
  {
    assert (pieces + [x])[..|pieces|] == pieces;
  }

  lemma {:induction false} ConcatAppends<T>(a: seq<seq<T>>, b: seq<seq<T>>)
    ensures Concat(a + b) == Concat(a) + Concat(b)
    decreases |b|
  {
    if b == [] {
      assert a + b == a;
    } else {
      var init, last := b[..|b| - 1], b[|b| - 1];
      ConcatAppends(a, init);
      OneMorePiece(a, init, last);
      assert b == init + [last];
    }
  }

  lemma OneMorePiece<T>(a: seq<seq<T>>, init: seq<seq<T>>, last: seq<T>)
    requires Concat(a + init) == Concat(a) + Concat(init)
    ensures Concat(a + (init + [last])) == Concat(a) + Concat(init + [last])
  {
    hide Concat;
    ConcatSnoc(a + init, last);
    ConcatSnoc(init, last);
    assert a + init + [last] == a + (init + [last]);
    assert Concat(a) + Concat(init) + last == Concat(a) + (Concat(init) + last);
  }
}
