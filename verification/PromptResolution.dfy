/**
 Prompt dependency resolution: tags in a prompt's text name other prompts, whose
 own tags are resolved first. The reference graph may be cyclic; a mutable set of
 the keys being expanded cuts the recursion.
 */
module PromptResolution {
  import opened Options
  import opened Texts

  /** What a tag names: a prompt, by label or version or neither. */
  datatype Ref = Ref(name: string, labelName: Option<string>, version: Option<nat>)

  /** A tag as the pattern matches it. */
  type TagRef = r: Ref | Matched(r) witness Ref("a", None, None)

  /** Prompt text is literals and tags; `Json` is a chat prompt rendered inside text. */
  datatype Token = Lit(text: string) | Tag(ref: TagRef) | Json(content: Content)

  /** A message whose `content` is not a string is left alone. */
  datatype Message = Message(role: string, body: Body)

  datatype Body = Tokens(tokens: seq<Token>) | NotText

  datatype Content = Text(tokens: seq<Token>) | Chat(messages: seq<Message>) | Opaque(json: string)

  /** A stored version: its number, labels and content, and its rows of prompt_dependencies. */
  datatype Prompt = Prompt(version: nat, labels: seq<string>, content: Content, table: seq<Ref>)

  /** Version lookup: the prompt a reference selects, if any. */
  type Store = map<Ref, Prompt>

  // ---- Keys ------------------------------------------------------------------------------

  function Digits(n: nat): string {
    if n < 10 then ['0' + n as char] else Digits(n / 10) + ['0' + (n % 10) as char]
  }

  /** `${name}|${label ?? ""}|${version ?? ""}` */
  function DepKey(r: Ref): string {
    Join([r.name,
          if r.labelName.Some? then r.labelName.value else "",
          if r.version.Some? then Digits(r.version.value) else ""], '|')
  }

  function NumberOf(s: string): int {
    if s == [] then 0 else NumberOf(s[..|s| - 1]) * 10 + (s[|s| - 1] as int - '0' as int)
  }

  lemma {:induction false} DigitsRoundTrip(n: nat)
    ensures NumberOf(Digits(n)) == n && Digits(n) != [] && '|' !in Digits(n)
  {
    if n >= 10 {
      DigitsRoundTrip(n / 10);
      assert Digits(n)[..|Digits(n)| - 1] == Digits(n / 10);
    } else {
      assert Digits(n)[..0] == [];
    }
  }

  /** A tag has white space trimmed off its name and label. */
  predicate Trimmed(text: string) {
    text != "" && !IsSpace(text[0]) && !IsSpace(text[|text| - 1])
  }

  predicate IsName(text: string) {
    Trimmed(text) && forall c :: c in text ==> c !in "@#{}"
  }

  predicate IsLabel(text: string) {
    Trimmed(text) && forall c :: c in text ==> c !in "#{}"
  }

  /** What a tag can spell, and so what the dependency table can hold. */
  predicate Spelled(r: Ref) {
    IsName(r.name) && (r.labelName.Some? ==> IsLabel(r.labelName.value))
  }

  /** The separator at this place can be read as the one between name and label. */
  predicate ReadsAt(text: string, i: nat) {
    i < |text| && text[i] == '|' && IsName(text[..i]) && (text[i + 1..] == "" || IsLabel(text[i + 1..]))
  }

  function KeyText(r: Ref): string {
    r.name + "|" + LabelPart(r)
  }

  /** A reference whose key can be read in one way only. */
  predicate Unambiguous(r: Ref) {
    forall i :: 0 <= i < |KeyText(r)| && ReadsAt(KeyText(r), i) ==> i == |r.name|
  }

  function LabelPart(r: Ref): string {
    if r.labelName.Some? then r.labelName.value else ""
  }

  function VersionPart(r: Ref): string {
    if r.version.Some? then Digits(r.version.value) else ""
  }

  lemma KeyParts(r: Ref)
    ensures DepKey(r) == KeyText(r) + "|" + VersionPart(r)
  {
    var parts := [r.name, LabelPart(r), VersionPart(r)];
    assert parts[..2] == [r.name, LabelPart(r)] && parts[..2][..1] == [r.name];
    assert Join(parts[..2], '|') == KeyText(r);
  }

  /** A text can be cut at its last separator in one way only. */
  lemma LastSeparator(s: string, v: string, s': string, v': string)
    requires s + "|" + v == s' + "|" + v' && '|' !in v && '|' !in v'
    ensures s == s' && v == v'
  {
    var key, key' := s + "|" + v, s' + "|" + v';
    assert key[|s|] == '|' && key'[|s'|] == '|';
    assert forall i :: |s| < i < |key| ==> key[i] == v[i - |s| - 1];
    assert forall i :: |s'| < i < |key'| ==> key'[i] == v'[i - |s'| - 1];
    assert s == key[..|s|] && s' == key'[..|s'|];
    assert v == key[|s| + 1..] && v' == key'[|s'| + 1..];
  }

  lemma VersionsAgree(a: Ref, b: Ref)
    requires VersionPart(a) == VersionPart(b)
    ensures a.version == b.version
  {
    if a.version.Some? { DigitsRoundTrip(a.version.value); }
    if b.version.Some? { DigitsRoundTrip(b.version.value); }
  }

  /** Equal keys have the same text before the version, and the same version. */
  lemma SameKeyParts(a: Ref, b: Ref)
    requires DepKey(a) == DepKey(b)
    ensures KeyText(a) == KeyText(b) && a.version == b.version
  {
    KeyParts(a);
    KeyParts(b);
    if a.version.Some? { DigitsRoundTrip(a.version.value); }
    if b.version.Some? { DigitsRoundTrip(b.version.value); }
    LastSeparator(KeyText(a), VersionPart(a), KeyText(b), VersionPart(b));
    VersionsAgree(a, b);
  }

  lemma ReadsAtItsName(r: Ref)
    requires Spelled(r)
    ensures ReadsAt(KeyText(r), |r.name|)
    ensures KeyText(r)[..|r.name|] == r.name && KeyText(r)[|r.name| + 1..] == LabelPart(r)
  {
  }

  /** An unambiguous reference is told apart from every other one by its key. */
  lemma UnambiguousIsUnique(a: Ref, b: Ref)
    requires Spelled(a) && Unambiguous(a) && Spelled(b) && DepKey(a) == DepKey(b)
    ensures a == b
  {
    SameKeyParts(a, b);
    ReadsAtItsName(a);
    ReadsAtItsName(b);
  }

  /** The reference that a key text stands for when it is read at a place. */
  lemma ReadAs(text: string, i: nat, version: Option<nat>) returns (r: Ref)
    requires ReadsAt(text, i)
    ensures Spelled(r) && KeyText(r) == text && |r.name| == i && r.version == version
  {
    var rest := text[i + 1..];
    r := Ref(text[..i], if rest == "" then None else Some(rest), version);
    hide IsName, IsLabel;
    assert text == text[..i] + "|" + rest;
  }

  /** Any other reference shares its key with one that is read off the key in another way. */
  lemma SharedKey(a: Ref) returns (b: Ref)
    requires Spelled(a) && !Unambiguous(a)
    ensures Spelled(b) && b != a && DepKey(b) == DepKey(a)
  {
    var i :| 0 <= i < |KeyText(a)| && ReadsAt(KeyText(a), i) && i != |a.name|;
    hide ReadsAt, KeyText, DepKey, Spelled;
    b := ReadAs(KeyText(a), i, a.version);
    KeyParts(a);
    KeyParts(b);
  }

  /** Keys tell a reference apart from all others exactly if it is unambiguous. */
  lemma DepKeyIsUniqueIff(a: Ref)
    requires Spelled(a)
    ensures Unambiguous(a) <==> forall b: Ref :: Spelled(b) && DepKey(a) == DepKey(b) ==> a == b
  {
    if Unambiguous(a) {
      forall b: Ref | Spelled(b) && DepKey(a) == DepKey(b) ensures a == b {
        UnambiguousIsUnique(a, b);
      }
    } else {
      var b := SharedKey(a);
    }
  }

  /** Without the separator in name and label a reference is unambiguous. */
  lemma NoSeparatorIsUnambiguous(r: Ref)
    requires '|' !in r.name && '|' !in LabelPart(r)
    ensures Unambiguous(r)
  {
    assert forall i :: |r.name| < i < |KeyText(r)| ==> KeyText(r)[i] == LabelPart(r)[i - |r.name| - 1];
    assert forall i :: 0 <= i < |r.name| ==> KeyText(r)[i] == r.name[i];
  }

  // ---- Finding dependencies ----------------------------------------------------------------

  predicate HasKey(deps: seq<Ref>, key: string) {
    exists i :: 0 <= i < |deps| && DepKey(deps[i]) == key
  }

  /** The dependency a key stands for: the first one listed with it. */
  function FirstWithKey(deps: seq<Ref>, key: string): (r: Option<Ref>)
    ensures r.Some? <==> HasKey(deps, key)
    ensures r.Some? ==> r.value in deps && DepKey(r.value) == key
  {
    if deps == [] then None
    else if DepKey(deps[0]) == key then assert deps[0] in deps; Some(deps[0])
    else
      var r := FirstWithKey(deps[1..], key);
      assert HasKey(deps[1..], key) <==> HasKey(deps, key) by {
        assert deps == [deps[0]] + deps[1..];
        if HasKey(deps[1..], key) { var i :| 0 <= i < |deps[1..]| && DepKey(deps[1..][i]) == key; assert DepKey(deps[i + 1]) == key; }
        if HasKey(deps, key) { var i :| 0 <= i < |deps| && DepKey(deps[i]) == key; assert DepKey(deps[1..][i - 1]) == key; }
      }
      r
  }

  lemma {:induction false} FirstWithKeySnoc(deps: seq<Ref>, d: Ref, key: string)
    ensures FirstWithKey(deps + [d], key)
         == if FirstWithKey(deps, key).Some? then FirstWithKey(deps, key)
            else if DepKey(d) == key then Some(d) else None
  {
    if deps == [] {
      assert deps + [d] == [d];
      assert [d][1..] == [];
    } else {
      FirstWithKeySnoc(deps[1..], d, key);
      assert (deps + [d])[1..] == deps[1..] + [d];
    }
  }

  predicate HasTag(tokens: seq<Token>, key: string) {
    exists i :: 0 <= i < |tokens| && tokens[i].Tag? && DepKey(tokens[i].ref) == key
  }

  /** `trim` */
  function TrimmedText(text: string): (r: string)
    ensures r == "" || Trimmed(r)
    ensures Trimmed(text) ==> r == text
  {
    if text == "" then ""
    else if IsSpace(text[0]) then TrimmedText(text[1..])
    else if IsSpace(text[|text| - 1]) then TrimmedText(text[..|text| - 1])
    else text
  }

  predicate AllSpace(text: string) {
    forall c :: c in text ==> IsSpace(c)
  }

  /** What is trimmed off is white space at the two ends. */
  lemma {:induction false} TrimmedTextIs(text: string) returns (front: string, back: string)
    ensures text == front + TrimmedText(text) + back && AllSpace(front) && AllSpace(back)
  {
    hide AllSpace, IsSpace;
    front, back := "", "";
    if text != "" && IsSpace(text[0]) {
      front, back := TrimmedTextIs(text[1..]);
      OneMoreInFront(text, front, TrimmedText(text[1..]), back);
      front := [text[0]] + front;
    } else if text != "" && IsSpace(text[|text| - 1]) {
      front, back := TrimmedTextIs(text[..|text| - 1]);
      OneMoreBehind(text, front, TrimmedText(text[..|text| - 1]), back);
      back := back + [text[|text| - 1]];
    } else {
      NothingAround(text);
    }
  }

  lemma OneMoreInFront(text: string, front: string, kept: string, back: string)
    requires text != "" && IsSpace(text[0]) && text[1..] == front + kept + back && AllSpace(front)
    ensures text == [text[0]] + front + kept + back && AllSpace([text[0]] + front)
  {
    assert text == [text[0]] + text[1..];
  }

  lemma OneMoreBehind(text: string, front: string, kept: string, back: string)
    requires text != "" && IsSpace(text[|text| - 1]) && text[..|text| - 1] == front + kept + back && AllSpace(back)
    ensures text == front + kept + (back + [text[|text| - 1]]) && AllSpace(back + [text[|text| - 1]])
  {
    assert text == text[..|text| - 1] + [text[|text| - 1]];
  }

  lemma NothingAround(text: string)
    ensures text == "" + text + "" && AllSpace("")
  {
  }

  /** The dependency that a tag is scanned as: its name and label trimmed, and no label if that leaves nothing. */
  function Scanned(r: Ref): Ref {
    var text := TrimmedText(LabelPart(r));
    Ref(TrimmedText(r.name), if text == "" then None else Some(text), r.version)
  }

  /** What a tag is replaced by is looked up as the tag is written; only then is it looked up as it was scanned. */
  predicate Intact(r: Ref) {
    Scanned(r) == r
  }

  predicate AllBlank(text: string) {
    text != "" && forall c :: c in text ==> IsSpace(c)
  }

  /** A tag's name and label come without white space around them, unless they are nothing else. */
  predicate Matched(r: Ref) {
    (Trimmed(r.name) || AllBlank(r.name)) && (r.labelName.Some? ==> Trimmed(r.labelName.value) || AllBlank(r.labelName.value))
  }

  /** `scanDependencies`: every tag of a text once, in order of first appearance, as it is scanned. */
  method ScanDependencies(tokens: seq<Token>) returns (found: seq<Ref>)
    ensures found == Scan(tokens)
  {
    found := [];
    var seen: set<string> := {};
    for i := 0 to |tokens|
      invariant found == Scan(tokens[..i])
      invariant forall key :: key in seen <==> HasKey(FirstTags(tokens[..i]), key)
    {
      assert tokens[..i + 1][..i] == tokens[..i];
      if tokens[i].Tag? && DepKey(tokens[i].ref) !in seen {
        ghost var before := FirstTags(tokens[..i]);
        assert FirstTags(tokens[..i + 1]) == before + [tokens[i].ref];
        seen := seen + {DepKey(tokens[i].ref)};
        found := found + [Scanned(tokens[i].ref)];
        forall key ensures HasKey(before + [tokens[i].ref], key) <==> HasKey(before, key) || key == DepKey(tokens[i].ref) {
          FirstWithKeySnoc(before, tokens[i].ref, key);
        }
      }
    }
    assert tokens[..|tokens|] == tokens;
  }

  function Scan(tokens: seq<Token>): seq<Ref> {
    ScannedAll(FirstTags(tokens))
  }

  function ScannedAll(refs: seq<Ref>): seq<Ref> {
    seq(|refs|, i requires 0 <= i < |refs| => Scanned(refs[i]))
  }

  /** The tags of a text as written, each key once. */
  function FirstTags(tokens: seq<Token>): seq<Ref> {
    if tokens == [] then []
    else
      var init, last := tokens[..|tokens| - 1], tokens[|tokens| - 1];
      if last.Tag? && !HasKey(FirstTags(init), DepKey(last.ref)) then FirstTags(init) + [last.ref] else FirstTags(init)
  }

  lemma HasTagSnoc(init: seq<Token>, last: Token, key: string)
    ensures HasTag(init + [last], key) <==> HasTag(init, key) || (last.Tag? && DepKey(last.ref) == key)
  {
    hide DepKey;
    var tokens := init + [last];
    if HasTag(init, key) {
      var i :| 0 <= i < |init| && init[i].Tag? && DepKey(init[i].ref) == key;
      assert tokens[i] == init[i];
    }
    assert tokens[|init|] == last;
  }

  lemma FirstTagsSnoc(init: seq<Token>, last: Token, key: string)
    ensures HasKey(FirstTags(init + [last]), key) <==> HasKey(FirstTags(init), key) || (last.Tag? && DepKey(last.ref) == key)
  {
    hide DepKey;
    assert (init + [last])[..|init|] == init;
    if last.Tag? { FirstWithKeySnoc(FirstTags(init), last.ref, key); }
  }

  lemma {:induction false} ScanFindsTags(tokens: seq<Token>)
    ensures forall key :: HasKey(FirstTags(tokens), key) <==> HasTag(tokens, key)
    ensures forall i, j :: 0 <= i < j < |FirstTags(tokens)| ==> DepKey(FirstTags(tokens)[i]) != DepKey(FirstTags(tokens)[j])
    ensures |Scan(tokens)| == |FirstTags(tokens)|
    ensures forall i :: 0 <= i < |Scan(tokens)| ==> Scan(tokens)[i] == Scanned(FirstTags(tokens)[i])
  {
    hide DepKey, Scanned;
    if tokens != [] {
      var init, last := tokens[..|tokens| - 1], tokens[|tokens| - 1];
      assert tokens == init + [last];
      ScanFindsTags(init);
      forall key ensures HasKey(FirstTags(tokens), key) <==> HasTag(tokens, key) {
        HasTagSnoc(init, last, key);
        FirstTagsSnoc(init, last, key);
      }
      forall i, j | 0 <= i < j < |FirstTags(tokens)| ensures DepKey(FirstTags(tokens)[i]) != DepKey(FirstTags(tokens)[j]) {
        if j == |FirstTags(init)| { assert DepKey(FirstTags(init)[i]) == DepKey(FirstTags(tokens)[i]); }
      }
    }
  }

  lemma ScannedHasEdges(r: Ref)
    ensures var text := KeyText(Scanned(r)); !IsSpace(text[0]) && !IsSpace(text[|text| - 1])
  {
    hide IsSpace, TrimmedText;
    SpaceIff('|');
    LastOfKeyText(Scanned(r));
  }

  lemma BlankHasNone(r: Ref)
    requires Matched(r) && !Intact(r)
    ensures var text := KeyText(r); IsSpace(text[0]) || IsSpace(text[|text| - 1])
  {
  }

  /** The key of a tag with a blank name or label is not that of anything scanned. */
  lemma BlankKeyIsNew(r: Ref, other: Ref)
    requires Matched(r) && !Intact(r)
    ensures DepKey(Scanned(other)) != DepKey(r)
  {
    ScannedHasEdges(other);
    BlankHasNone(r);
    if DepKey(Scanned(other)) == DepKey(r) { SameKeyParts(Scanned(other), r); }
  }

  function ScanMessages(messages: seq<Message>): seq<Ref> {
    if messages == [] then []
    else (if messages[0].body.Tokens? then Scan(messages[0].body.tokens) else []) + ScanMessages(messages[1..])
  }

  /** `extractDependencies` */
  function Extract(c: Content): seq<Ref> {
    match c
    case Text(tokens) => Scan(tokens)
    case Chat(messages) => ScanMessages(messages)
    case Opaque(_) => []
  }

  /** `loadDependencies`: the table rows if there are any, else the tags of the content. */
  function Deps(p: Prompt): seq<Ref> {
    if p.table != [] then p.table else Extract(p.content)
  }

  // ---- What a prompt refers to ---------------------------------------------------------------------

  /** Blank text has no separator in it. */
  lemma KeyTextCuts(r: Ref)
    requires Matched(r) && !Intact(r)
    ensures AllBlank(r.name) || (r.labelName.Some? && AllBlank(r.labelName.value))
  {
  }

  /** Two tags with the same key as written have the same key as scanned. */
  lemma SameWrittenKey(a: TagRef, b: TagRef)
    requires DepKey(a) == DepKey(b)
    ensures DepKey(Scanned(a)) == DepKey(Scanned(b))
  {
    if Intact(a) && !Intact(b) { BlankKeyIsNew(b, a); }
    if Intact(b) && !Intact(a) { BlankKeyIsNew(a, b); }
    if !Intact(a) && !Intact(b) {
      SameKeyParts(a, b);
      SameBlank(a, b);
    }
  }

  lemma SameBlank(a: TagRef, b: TagRef)
    requires KeyText(a) == KeyText(b) && a.version == b.version && !Intact(a) && !Intact(b)
    ensures DepKey(Scanned(a)) == DepKey(Scanned(b))
  {
    var text := KeyText(a);
    if IsSpace(text[|text| - 1]) {
      BlankLabel(a);
      BlankLabel(b);
      LastSeparator(a.name, LabelPart(a), b.name, LabelPart(b));
    } else {
      BlankName(a);
      BlankName(b);
      assert text[|a.name|] == '|' && text[|b.name|] == '|';
      assert forall i :: 0 <= i < |a.name| ==> text[i] == a.name[i];
      assert forall i :: 0 <= i < |b.name| ==> text[i] == b.name[i];
      assert |a.name| == |b.name|;
      assert a.name == text[..|a.name|] && b.name == text[..|b.name|];
      assert LabelPart(a) == text[|a.name| + 1..] && LabelPart(b) == text[|b.name| + 1..];
    }
  }

  lemma LastOfKeyText(r: Ref)
    ensures KeyText(r)[|KeyText(r)| - 1] == if LabelPart(r) == "" then '|' else LabelPart(r)[|LabelPart(r)| - 1]
  {
  }

  lemma BlankLabel(r: TagRef)
    requires IsSpace(KeyText(r)[|KeyText(r)| - 1])
    ensures '|' !in LabelPart(r)
  {
    LastOfKeyText(r);
  }

  lemma BlankName(r: TagRef)
    requires !Intact(r) && !IsSpace(KeyText(r)[|KeyText(r)| - 1])
    ensures '|' !in r.name
  {
    LastOfKeyText(r);
    KeyTextCuts(r);
  }

  /** A tag that is scanned as `r` stands at this place of the text. */
  predicate TokenIs(tokens: seq<Token>, i: int, r: Ref) {
    0 <= i < |tokens| && tokens[i].Tag? && Scanned(tokens[i].ref) == r
  }

  /** The same for a place in a text message of a chat prompt, or in a text prompt. */
  predicate TagIs(c: Content, m: int, i: int, r: Ref) {
    match c
    case Text(tokens) => m == 0 && TokenIs(tokens, i, r)
    case Chat(messages) => 0 <= m < |messages| && messages[m].body.Tokens? && TokenIs(messages[m].body.tokens, i, r)
    case Opaque(_) => false
  }

  /** No row, or no tag, with the same key comes before. */
  predicate FirstRow(table: seq<Ref>, i: int, r: Ref) {
    0 <= i < |table| && table[i] == r && forall j :: 0 <= j < i ==> DepKey(table[j]) != DepKey(r)
  }

  ghost predicate FirstToken(tokens: seq<Token>, i: int, r: Ref) {
    TokenIs(tokens, i, r) && forall j, other :: j < i && TokenIs(tokens, j, other) ==> DepKey(other) != DepKey(r)
  }

  ghost predicate FirstTag(c: Content, m: int, i: int, r: Ref) {
    && TagIs(c, m, i, r)
    && forall n, j, other :: TagIs(c, n, j, other) && (n < m || (n == m && j < i)) ==> DepKey(other) != DepKey(r)
  }

  /** What a prompt refers to by a key: the first row with it, or in a prompt without rows the first tag with it. */
  ghost predicate RefersTo(p: Prompt, r: Ref) {
    if p.table != [] then exists i :: FirstRow(p.table, i, r) else exists m, i :: FirstTag(p.content, m, i, r)
  }

  lemma {:induction false} FirstRowIff(deps: seq<Ref>, r: Ref)
    ensures FirstWithKey(deps, DepKey(r)) == Some(r) <==> exists i :: FirstRow(deps, i, r)
  {
    var key := DepKey(r);
    if i :| FirstRow(deps, i, r) {
      forall k | 0 <= k < |deps[..i]| ensures DepKey(deps[..i][k]) != key {
        assert deps[..i][k] == deps[k];
      }
      FirstInPrefix(deps, i);
    }
    if FirstWithKey(deps, key) == Some(r) {
      FirstHasPlace(deps, r);
    }
  }

  lemma {:induction false} FirstHasPlace(deps: seq<Ref>, r: Ref)
    requires FirstWithKey(deps, DepKey(r)) == Some(r)
    ensures exists i :: FirstRow(deps, i, r)
  {
    if DepKey(deps[0]) == DepKey(r) {
      assert FirstRow(deps, 0, r);
    } else {
      FirstHasPlace(deps[1..], r);
      var i :| FirstRow(deps[1..], i, r);
      forall j | 0 <= j < i + 1 ensures DepKey(deps[j]) != DepKey(r) {
        assert j > 0 ==> deps[1..][j - 1] == deps[j];
      }
      assert FirstRow(deps, i + 1, r);
    }
  }

  /** The keys listed for a text are those its tags are scanned with. */
  lemma {:induction false} ScanKeys(tokens: seq<Token>, key: string)
    ensures HasKey(Scan(tokens), key) <==> exists i, r :: TokenIs(tokens, i, r) && DepKey(r) == key
  {
    if i, r :| TokenIs(tokens, i, r) && DepKey(r) == key {
      TagIsListed(tokens, i);
    }
    if HasKey(Scan(tokens), key) {
      var k :| 0 <= k < |Scan(tokens)| && DepKey(Scan(tokens)[k]) == key;
      FirstTagIsOne(tokens, k);
      var i :| 0 <= i < |tokens| && IsTag(tokens[i], FirstTags(tokens)[k]);
      assert TokenIs(tokens, i, Scan(tokens)[k]);
    }
  }

  lemma TagIsListed(tokens: seq<Token>, i: nat)
    requires i < |tokens| && tokens[i].Tag?
    ensures HasKey(Scan(tokens), DepKey(Scanned(tokens[i].ref)))
  {
    ScanFindsTags(tokens);
    assert HasTag(tokens, DepKey(tokens[i].ref));
    var k :| 0 <= k < |FirstTags(tokens)| && DepKey(FirstTags(tokens)[k]) == DepKey(tokens[i].ref);
    FirstTagIsOne(tokens, k);
    SameWrittenKey(FirstTags(tokens)[k], tokens[i].ref);
    assert DepKey(Scan(tokens)[k]) == DepKey(Scanned(tokens[i].ref));
  }

  /** One more token lists at most its own key anew. */
  lemma ScanSnoc(init: seq<Token>, last: Token, key: string)
    ensures FirstWithKey(Scan(init + [last]), key)
         == if HasKey(Scan(init), key) then FirstWithKey(Scan(init), key)
            else if last.Tag? && DepKey(Scanned(last.ref)) == key then Some(Scanned(last.ref)) else None
  {
    assert (init + [last])[..|init|] == init;
    if last.Tag? {
      var r := last.ref;
      if HasKey(FirstTags(init), DepKey(r)) {
        var k :| 0 <= k < |FirstTags(init)| && DepKey(FirstTags(init)[k]) == DepKey(r);
        FirstTagIsOne(init, k);
        SameWrittenKey(FirstTags(init)[k], r);
        assert DepKey(Scan(init)[k]) == DepKey(Scanned(r));
      } else {
        assert Scan(init + [last]) == Scan(init) + [Scanned(r)];
        FirstWithKeySnoc(Scan(init), Scanned(r), key);
      }
    }
  }

  lemma FirstTokenSnoc(init: seq<Token>, last: Token, r: Ref)
    ensures (exists i :: FirstToken(init + [last], i, r))
       <==> (exists i :: FirstToken(init, i, r)) || (!HasKey(Scan(init), DepKey(r)) && TokenIs(init + [last], |init|, r))
  {
    var tokens := init + [last];
    assert forall i, other :: i < |init| ==> (TokenIs(tokens, i, other) <==> TokenIs(init, i, other));
    ScanKeys(init, DepKey(r));
    if i :| FirstToken(tokens, i, r) {
      assert i < |init| ==> FirstToken(init, i, r);
    }
    if i :| FirstToken(init, i, r) {
      assert FirstToken(tokens, i, r);
    }
    if !HasKey(Scan(init), DepKey(r)) && TokenIs(tokens, |init|, r) {
      assert FirstToken(tokens, |init|, r);
    }
  }

  lemma {:induction false} FirstTokenIff(tokens: seq<Token>, r: Ref)
    ensures FirstWithKey(Scan(tokens), DepKey(r)) == Some(r) <==> exists i :: FirstToken(tokens, i, r)
  {
    if tokens != [] {
      var init, last := tokens[..|tokens| - 1], tokens[|tokens| - 1];
      assert tokens == init + [last];
      FirstTokenIff(init, r);
      ScanSnoc(init, last, DepKey(r));
      FirstTokenSnoc(init, last, r);
    }
  }

  lemma {:induction false} FirstOfBoth(a: seq<Ref>, b: seq<Ref>, key: string)
    ensures FirstWithKey(a + b, key) == if HasKey(a, key) then FirstWithKey(a, key) else FirstWithKey(b, key)
  {
    if a == [] {
      assert a + b == b;
    } else {
      FirstOfBoth(a[1..], b, key);
      assert (a + b)[1..] == a[1..] + b;
    }
  }

  function TokensOf(m: Message): seq<Token> {
    if m.body.Tokens? then m.body.tokens else []
  }

  /** The tags of a chat prompt are those of its first message and those of the others, one place on. */
  lemma TagIsCons(messages: seq<Message>)
    requires messages != []
    ensures forall i, r :: TagIs(Chat(messages), 0, i, r) <==> TokenIs(TokensOf(messages[0]), i, r)
    ensures forall m, i, r :: m > 0 ==> (TagIs(Chat(messages), m, i, r) <==> TagIs(Chat(messages[1..]), m - 1, i, r))
    ensures forall m, i, r :: TagIs(Chat(messages[1..]), m, i, r) ==> m >= 0 && TagIs(Chat(messages), m + 1, i, r)
    ensures forall m, i, r :: TagIs(Chat(messages), m, i, r) ==> m >= 0
  {
  }

  lemma FirstTagDown(messages: seq<Message>, m: int, i: int, r: Ref)
    requires messages != [] && FirstTag(Chat(messages), m, i, r)
    ensures if HasKey(Scan(TokensOf(messages[0])), DepKey(r)) then FirstToken(TokensOf(messages[0]), i, r)
            else FirstTag(Chat(messages[1..]), m - 1, i, r)
  {
    hide TagIs, TokenIs, DepKey, HasKey, Scan, TokensOf;
    var head := TokensOf(messages[0]);
    TagIsCons(messages);
    ScanKeys(head, DepKey(r));
    if m > 0 {
      assert forall j, other :: TokenIs(head, j, other) ==> TagIs(Chat(messages), 0, j, other);
    }
  }

  lemma FirstTagUp(messages: seq<Message>, m: int, i: int, r: Ref)
    requires messages != [] && !HasKey(Scan(TokensOf(messages[0])), DepKey(r)) && FirstTag(Chat(messages[1..]), m, i, r)
    ensures FirstTag(Chat(messages), m + 1, i, r)
  {
    hide TagIs, TokenIs, DepKey, HasKey, Scan, TokensOf;
    TagIsCons(messages);
    ScanKeys(TokensOf(messages[0]), DepKey(r));
  }

  lemma FirstTagCons(messages: seq<Message>, r: Ref)
    requires messages != []
    ensures (exists m, i :: FirstTag(Chat(messages), m, i, r))
       <==> if HasKey(Scan(TokensOf(messages[0])), DepKey(r)) then exists i :: FirstToken(TokensOf(messages[0]), i, r)
            else exists m, i :: FirstTag(Chat(messages[1..]), m, i, r)
  {
    hide TagIs, TokenIs, DepKey, HasKey, Scan, TokensOf;
    if m, i :| FirstTag(Chat(messages), m, i, r) {
      FirstTagDown(messages, m, i, r);
    }
    if !HasKey(Scan(TokensOf(messages[0])), DepKey(r)) {
      if m, i :| FirstTag(Chat(messages[1..]), m, i, r) {
        FirstTagUp(messages, m, i, r);
      }
    } else if i :| FirstToken(TokensOf(messages[0]), i, r) {
      TagIsCons(messages);
      assert FirstTag(Chat(messages), 0, i, r);
    }
  }

  lemma {:induction false} FirstMessageIff(messages: seq<Message>, r: Ref)
    ensures FirstWithKey(ScanMessages(messages), DepKey(r)) == Some(r) <==> exists m, i :: FirstTag(Chat(messages), m, i, r)
  {
    if messages != [] {
      var head := TokensOf(messages[0]);
      FirstMessageIff(messages[1..], r);
      FirstTokenIff(head, r);
      FirstOfBoth(Scan(head), ScanMessages(messages[1..]), DepKey(r));
      FirstTagCons(messages, r);
    }
  }

  lemma FirstInText(tokens: seq<Token>, r: Ref)
    ensures (exists i :: FirstToken(tokens, i, r)) <==> exists m, i :: FirstTag(Text(tokens), m, i, r)
  {
    assert forall m, i, other :: TagIs(Text(tokens), m, i, other) <==> m == 0 && TokenIs(tokens, i, other);
    if i :| FirstToken(tokens, i, r) {
      assert FirstTag(Text(tokens), 0, i, r);
    }
    if m, i :| FirstTag(Text(tokens), m, i, r) {
      assert forall j, other :: TokenIs(tokens, j, other) ==> TagIs(Text(tokens), 0, j, other);
      assert FirstToken(tokens, i, r);
    }
  }

  /** `loadDependencies` lists what the prompt refers to, under every key. */
  lemma RefersToIff(p: Prompt, r: Ref)
    ensures FirstWithKey(Deps(p), DepKey(r)) == Some(r) <==> RefersTo(p, r)
  {
    hide Scan, ScanMessages, FirstTag, FirstToken, FirstRow, DepKey;
    if p.table != [] {
      FirstRowIff(p.table, r);
    } else {
      match p.content
      case Text(tokens) =>
        FirstTokenIff(tokens, r);
        FirstInText(tokens, r);
      case Chat(messages) => FirstMessageIff(messages, r);
      case Opaque(json) =>
        NoTags(json, r);
    }
  }

  lemma NoTags(json: string, r: Ref)
    ensures forall m, i :: !FirstTag(Opaque(json), m, i, r)
  {
  }

  // ---- Replacing tags by resolved values -----------------------------------------------------

  function Piece(t: Token, resolved: map<string, Content>): seq<Token> {
    if !t.Tag? || DepKey(t.ref) !in resolved then [t]
    else if resolved[DepKey(t.ref)].Text? then resolved[DepKey(t.ref)].tokens
    else [Json(resolved[DepKey(t.ref)])]
  }

  function ReplaceInText(tokens: seq<Token>, resolved: map<string, Content>): seq<Token> {
    if tokens == [] then [] else Piece(tokens[0], resolved) + ReplaceInText(tokens[1..], resolved)
  }

  function ReplaceInMessages(messages: seq<Message>, resolved: map<string, Content>): seq<Message> {
    if messages == [] then []
    else
      var m := messages[0];
      [if m.body.Tokens? then Message(m.role, Tokens(ReplaceInText(m.body.tokens, resolved))) else m]
        + ReplaceInMessages(messages[1..], resolved)
  }

  function ReplacePlaceholders(c: Content, resolved: map<string, Content>): Content {
    match c
    case Text(tokens) => Text(ReplaceInText(tokens, resolved))
    case Chat(messages) => Chat(ReplaceInMessages(messages, resolved))
    case Opaque(_) => c
  }

  lemma {:induction false} ReplaceAppends(a: seq<Token>, b: seq<Token>, resolved: map<string, Content>)
    ensures ReplaceInText(a + b, resolved) == ReplaceInText(a, resolved) + ReplaceInText(b, resolved)
  {
    if a == [] {
      assert a + b == b;
    } else {
      assert (a + b)[1..] == a[1..] + b;
      ReplaceAppends(a[1..], b, resolved);
    }
  }

  /**
   Wherever it stands, a tag with a text for its key becomes that text, one with anything
   else for its key becomes that as JSON, and whatever is not such a tag stays.
   */
  lemma TokenBecomes(before: seq<Token>, t: Token, after: seq<Token>, resolved: map<string, Content>)
    ensures ReplaceInText(before + [t] + after, resolved)
         == ReplaceInText(before, resolved)
            + (if t.Tag? && DepKey(t.ref) in resolved then match resolved[DepKey(t.ref)] case Text(tokens) => tokens case other => [Json(other)]
               else [t])
            + ReplaceInText(after, resolved)
  {
    ReplaceAppends(before + [t], after, resolved);
    ReplaceAppends(before, [t], resolved);
    assert ReplaceInText([t], resolved) == Piece(t, resolved) + ReplaceInText([], resolved);
  }

  /** Every message keeps its place and role, and only text is replaced in. */
  lemma {:induction false} MessagesBecome(messages: seq<Message>, resolved: map<string, Content>)
    ensures |ReplaceInMessages(messages, resolved)| == |messages|
    ensures forall i :: 0 <= i < |messages| ==>
              && ReplaceInMessages(messages, resolved)[i].role == messages[i].role
              && ReplaceInMessages(messages, resolved)[i].body
                 == if messages[i].body.NotText? then NotText else Tokens(ReplaceInText(messages[i].body.tokens, resolved))
  {
    if messages != [] { MessagesBecome(messages[1..], resolved); }
  }

  // ---- What resolution means ---------------------------------------------------------------------

  function StoreKeys(store: Store): set<string> {
    set r | r in store :: DepKey(r)
  }

  /**
   The value of a key at a place whose expansion path is `path`, with the
   dependencies `deps` listed there: nothing for a key on the path or a key that
   is not listed, else the named prompt with its own tags expanded one level
   further down.
   */
  ghost function Value(store: Store, deps: seq<Ref>, path: set<string>, key: string): Option<Content>
    decreases |StoreKeys(store) - path|, 0, 0
  {
    if key in path then None
    else match FirstWithKey(deps, key)
      case None => None
      case Some(ref) =>
        if ref !in store then None
        else
          assert key in StoreKeys(store);
          PathShrinks(StoreKeys(store), path, key);
          Some(Expand(store, store[ref].content, Deps(store[ref]), path + {key}))
  }

  ghost function ExpandToken(store: Store, t: Token, deps: seq<Ref>, path: set<string>): seq<Token>
    decreases |StoreKeys(store) - path|, 1, 0
  {
    if !t.Tag? then [t]
    else match Value(store, deps, path, DepKey(t.ref))
      case None => [t]
      case Some(Text(tokens)) => tokens
      case Some(c) => [Json(c)]
  }

  ghost function ExpandTokens(store: Store, tokens: seq<Token>, deps: seq<Ref>, path: set<string>): seq<Token>
    decreases |StoreKeys(store) - path|, 2, |tokens|
  {
    if tokens == [] then []
    else ExpandToken(store, tokens[0], deps, path) + ExpandTokens(store, tokens[1..], deps, path)
  }

  ghost function ExpandMessages(store: Store, messages: seq<Message>, deps: seq<Ref>, path: set<string>): seq<Message>
    decreases |StoreKeys(store) - path|, 3, |messages|
  {
    if messages == [] then []
    else
      var m := messages[0];
      [if m.body.Tokens? then Message(m.role, Tokens(ExpandTokens(store, m.body.tokens, deps, path))) else m]
        + ExpandMessages(store, messages[1..], deps, path)
  }

  /** The recursive substitution, tag by tag. */
  ghost function Expand(store: Store, c: Content, deps: seq<Ref>, path: set<string>): Content
    decreases |StoreKeys(store) - path|, 4, 0
  {
    match c
    case Text(tokens) => Text(ExpandTokens(store, tokens, deps, path))
    case Chat(messages) => Chat(ExpandMessages(store, messages, deps, path))
    case Opaque(_) => c
  }

  lemma PathShrinks(keys: set<string>, path: set<string>, key: string)
    requires key in keys && key !in path
    ensures |keys - (path + {key})| < |keys - path|
  {
    assert keys - (path + {key}) == (keys - path) - {key};
  }

  /**
   A chain of references from the dependencies `deps` that no repetition of a key
   cuts and that ends in a reference the store cannot answer.
   */
  ghost predicate LeadsNowhere(store: Store, deps: seq<Ref>, path: set<string>, chain: seq<Ref>)
    decreases |chain|, 1
  {
    && chain != []
    && DepKey(chain[0]) !in path
    && FirstWithKey(deps, DepKey(chain[0])) == Some(chain[0])
    && FailsFrom(store, path, chain)
  }

  /** The same for a chain whose first reference is being looked up. */
  ghost predicate FailsFrom(store: Store, path: set<string>, chain: seq<Ref>)
    requires chain != []
    decreases |chain|, 0
  {
    if |chain| == 1 then chain[0] !in store
    else chain[0] in store && LeadsNowhere(store, Deps(store[chain[0]]), path + {DepKey(chain[0])}, chain[1..])
  }

  /** Every reference that resolution would follow is in the store. */
  ghost predicate Complete(store: Store, deps: seq<Ref>, path: set<string>) {
    forall chain :: !LeadsNowhere(store, deps, path, chain)
  }

  /** The replacement values that resolution of `deps` must produce under `path`. */
  ghost function Values(store: Store, deps: seq<Ref>, path: set<string>): map<string, Content> {
    map d | d in deps && Value(store, deps, path, DepKey(d)).Some? :: DepKey(d) := Value(store, deps, path, DepKey(d)).value
  }

  lemma ValuesAt(store: Store, deps: seq<Ref>, path: set<string>, key: string)
    ensures key in Values(store, deps, path) <==> Value(store, deps, path, key).Some?
    ensures key in Values(store, deps, path) ==> Values(store, deps, path)[key] == Value(store, deps, path, key).value
  {
    if Value(store, deps, path, key).Some? {
      var d := FirstWithKey(deps, key).value;
      assert d in deps && DepKey(d) == key;
    }
  }

  lemma {:induction false} ReplaceIsExpandText(store: Store, tokens: seq<Token>, deps: seq<Ref>, path: set<string>)
    ensures ReplaceInText(tokens, Values(store, deps, path)) == ExpandTokens(store, tokens, deps, path)
    decreases |tokens|
  {
    if tokens != [] {
      ReplaceIsExpandText(store, tokens[1..], deps, path);
      if tokens[0].Tag? {
        ValuesAt(store, deps, path, DepKey(tokens[0].ref));
      }
    }
  }

  lemma {:induction false} ReplaceIsExpandMessages(store: Store, messages: seq<Message>, deps: seq<Ref>, path: set<string>)
    ensures ReplaceInMessages(messages, Values(store, deps, path)) == ExpandMessages(store, messages, deps, path)
    decreases |messages|
  {
    if messages != [] {
      ReplaceIsExpandMessages(store, messages[1..], deps, path);
      if messages[0].body.Tokens? { ReplaceIsExpandText(store, messages[0].body.tokens, deps, path); }
    }
  }

  lemma ReplaceIsExpand(store: Store, c: Content, deps: seq<Ref>, path: set<string>)
    ensures ReplacePlaceholders(c, Values(store, deps, path)) == Expand(store, c, deps, path)
  {
    match c
    case Text(tokens) => ReplaceIsExpandText(store, tokens, deps, path);
    case Chat(messages) => ReplaceIsExpandMessages(store, messages, deps, path);
    case Opaque(_) =>
  }

  // ---- The resolver ----------------------------------------------------------------------------------

  datatype Outcome<+T> = Resolved(value: T) | NotFound(ref: Ref)

  /** The resolution graph: per child name, the version found and the graph below it. */
  type Graph = map<string, Node>

  datatype Node = Node(version: nat, labels: seq<string>, dependencies: Graph)

  class Resolver {
    const store: Store
    var visiting: set<string>

    constructor (store: Store)
      ensures this.store == store && visiting == {}
    {
      this.store := store;
      visiting := {};
    }

    /**
     One round of the loop in `resolveDependencyMap`: look the reference up and
     expand it with its key in `visiting`. `chain` shows why a lookup failed.
     */
    method ResolveReference(dep: Ref) returns (r: Outcome<Content>, node: Node, ghost chain: seq<Ref>)
      requires DepKey(dep) !in visiting
      modifies this
      ensures r.Resolved? ==> visiting == old(visiting) && dep in store
      ensures r.Resolved? ==> r.value == Expand(store, store[dep].content, Deps(store[dep]), old(visiting) + {DepKey(dep)})
      ensures r.Resolved? ==> Complete(store, Deps(store[dep]), old(visiting) + {DepKey(dep)})
      ensures r.Resolved? ==> node == NodeOf(store, dep, old(visiting))
      ensures r.NotFound? ==> chain != [] && chain[0] == dep && chain[|chain| - 1] == r.ref
      ensures r.NotFound? ==> FailsFrom(store, old(visiting), chain)
      decreases |StoreKeys(store) - visiting|, 0
    {
      hide Expand, ReplacePlaceholders, Values, Complete, LeadsNowhere, Deps, DepKey;
      ghost var path := visiting;
      var key := DepKey(dep);
      visiting := visiting + {key};
      if dep !in store {
        return NotFound(dep), Node(0, [], map[]), [dep];
      }
      var child := store[dep];
      assert key in StoreKeys(store);
      PathShrinks(StoreKeys(store), path, key);
      var childMap, childGraph, rest := ResolveDependencyMap(Deps(child));
      if childMap.NotFound? {
        LongerChain(store, dep, path, rest);
        return NotFound(childMap.ref), Node(0, [], map[]), [dep] + rest;
      }
      ReplaceIsExpand(store, child.content, Deps(child), path + {key});
      visiting := visiting - {key};
      assert visiting == path;
      node := Node(child.version, child.labels, childGraph);
      return Resolved(ReplacePlaceholders(child.content, childMap.value)), node, [];
    }

    /**
     `resolveDependencyMap`. It terminates on every store, cyclic ones included:
     each nested call has one more of the store's keys in `visiting`.
     */
    method ResolveDependencyMap(deps: seq<Ref>) returns (r: Outcome<map<string, Content>>, graph: Graph, ghost chain: seq<Ref>)
      modifies this
      ensures r.Resolved? ==> visiting == old(visiting)
      ensures r.Resolved? ==> Mapped(store, deps, old(visiting), r.value, graph)
      ensures r.NotFound? ==> LeadsNowhere(store, deps, old(visiting), chain) && chain[|chain| - 1] == r.ref
      decreases |StoreKeys(store) - visiting|, 1
    {
      ghost var path := visiting;
      var resolved: map<string, Content> := map[];
      graph := map[];
      for i := 0 to |deps|
        invariant visiting == path
        invariant Mapped(store, deps[..i], path, resolved, graph)
      {
        var dep := deps[i];
        assert deps[..i + 1] == deps[..i] + [dep];
        if DepKey(dep) in resolved || DepKey(dep) in visiting {
          SkippedDependency(store, deps[..i], dep, path, resolved, graph);
          continue;
        }
        NewDependency(store, deps, i, path, resolved, graph);
        var value, node, failing := ResolveReference(dep);
        if value.NotFound? {
          return NotFound(value.ref), map[], failing;
        }
        AddedDependency(store, deps[..i], dep, path, resolved, graph, value.value);
        graph := graph[dep.name := node];
        resolved := resolved[DepKey(dep) := value.value];
      }
      assert deps[..|deps|] == deps;
      return Resolved(resolved), graph, [];
    }

    /** `resolvePromptDependencies`: a prompt without dependencies is returned as stored. */
    method Resolve(p: Prompt) returns (r: Outcome<Content>, graph: Option<Graph>)
      requires visiting == {}
      modifies this
      ensures r.Resolved? ==> visiting == {}
      ensures r.Resolved? ==> r.value == Expand(store, p.content, Deps(p), {})
      ensures r.Resolved? ==> r.value == ReplacePlaceholders(p.content, Values(store, Deps(p), {}))
      ensures r.Resolved? ==> Complete(store, Deps(p), {}) && FollowsAll(store, p, {})
      ensures r.NotFound? <==> exists chain :: DeadEnd(store, p, {}, chain)
      ensures r.NotFound? ==> exists chain :: DeadEnd(store, p, {}, chain) && chain[|chain| - 1] == r.ref
      ensures r.Resolved? ==> graph == if forall d :: !RefersTo(p, d) then None else Some(Tree(store, Deps(p), {}))
    {
      hide Expand, ReplacePlaceholders, Complete, LeadsNowhere, DepKey, DeadEnd, RefersTo, Tree, Deps, FollowsAll;
      var deps := Deps(p);
      NothingIsListed(p);
      CompleteIff(store, p, {});
      if deps == [] {
        NothingLeads(store, {});
        CompleteFollowsAll(store, p, {});
        assert Values(store, deps, {}) == map[];
        ReplaceIsExpand(store, p.content, deps, {});
        ReplaceByNothing(p.content);
        return Resolved(p.content), None;
      }
      var resolved, g, failing := ResolveDependencyMap(deps);
      if resolved.NotFound? {
        DeadEndIff(store, p, {}, failing);
        return NotFound(resolved.ref), None;
      }
      CompleteFollowsAll(store, p, {});
      ReplaceIsExpand(store, p.content, deps, {});
      return Resolved(ReplacePlaceholders(p.content, resolved.value)), Some(g);
    }
  }

  lemma LongerChain(store: Store, dep: Ref, path: set<string>, chain: seq<Ref>)
    requires dep in store && LeadsNowhere(store, Deps(store[dep]), path + {DepKey(dep)}, chain)
    ensures FailsFrom(store, path, [dep] + chain) && ([dep] + chain)[|chain|] == chain[|chain| - 1]
  {
    assert ([dep] + chain)[1..] == chain;
  }

  /**
   The dependency a name stands for in the graph: the last one of that name that is
   neither a repetition of a key nor cut by the path.
   */
  function LastNamed(deps: seq<Ref>, path: set<string>, name: string): Option<Ref> {
    if deps == [] then None
    else
      var init, last := deps[..|deps| - 1], deps[|deps| - 1];
      if last.name == name && DepKey(last) !in path && !HasKey(init, DepKey(last)) then Some(last)
      else LastNamed(init, path, name)
  }

  function Names(deps: seq<Ref>): set<string> {
    set d | d in deps :: d.name
  }

  /** The graph of a place: each name with what it stands for, and the graph of that one's own dependencies. */
  ghost function Tree(store: Store, deps: seq<Ref>, path: set<string>): Graph
    decreases |StoreKeys(store) - path|, 1
  {
    map name | name in Names(deps) && LastNamed(deps, path, name).Some? && LastNamed(deps, path, name).value in store
             :: LastNamedIsListed(deps, path, name); NodeOf(store, LastNamed(deps, path, name).value, path)
  }

  ghost function NodeOf(store: Store, dep: Ref, path: set<string>): Node
    requires dep in store && DepKey(dep) !in path
    decreases |StoreKeys(store) - path|, 0
  {
    var key := DepKey(dep);
    assert key in StoreKeys(store);
    PathShrinks(StoreKeys(store), path, key);
    Node(store[dep].version, store[dep].labels, Tree(store, Deps(store[dep]), path + {key}))
  }

  lemma {:induction false} LastNamedIsListed(deps: seq<Ref>, path: set<string>, name: string)
    ensures LastNamed(deps, path, name).Some? ==>
              && LastNamed(deps, path, name).value in deps
              && LastNamed(deps, path, name).value.name == name
              && DepKey(LastNamed(deps, path, name).value) !in path
  {
    if deps != [] {
      LastNamedIsListed(deps[..|deps| - 1], path, name);
    }
  }

  lemma LastNamedSnoc(deps: seq<Ref>, dep: Ref, path: set<string>, name: string)
    ensures LastNamed(deps + [dep], path, name)
         == if dep.name == name && DepKey(dep) !in path && !HasKey(deps, DepKey(dep)) then Some(dep)
            else LastNamed(deps, path, name)
  {
    assert (deps + [dep])[..|deps|] == deps;
  }

  /** What resolving `deps` under `path` must give: the value of every key, and the graph. */
  ghost predicate Mapped(store: Store, deps: seq<Ref>, path: set<string>, resolved: map<string, Content>, graph: Graph) {
    resolved == Values(store, deps, path) && Complete(store, deps, path) && graph == Tree(store, deps, path)
  }

  // ---- One more dependency in the list -------------------------------------------------------------------

  lemma SameFirst(store: Store, deps: seq<Ref>, deps': seq<Ref>, path: set<string>)
    requires forall key :: key !in path ==> FirstWithKey(deps', key) == FirstWithKey(deps, key)
    ensures forall key :: Value(store, deps', path, key) == Value(store, deps, path, key)
    ensures forall chain :: LeadsNowhere(store, deps', path, chain) <==> LeadsNowhere(store, deps, path, chain)
  {
  }

  /** A repeated key, or one on the path, changes nothing. */
  lemma SkippedDependency(store: Store, deps: seq<Ref>, dep: Ref, path: set<string>, resolved: map<string, Content>,
                          graph: Graph)
    requires Mapped(store, deps, path, resolved, graph)
    requires DepKey(dep) in resolved || DepKey(dep) in path
    ensures Mapped(store, deps + [dep], path, resolved, graph)
  {
    ValuesAt(store, deps, path, DepKey(dep));
    forall key | key !in path ensures FirstWithKey(deps + [dep], key) == FirstWithKey(deps, key) {
      FirstWithKeySnoc(deps, dep, key);
    }
    SameFirst(store, deps, deps + [dep], path);
    SameValues(store, deps, deps + [dep], path);
    SameTree(store, deps, dep, path);
  }

  /** A dependency that is skipped leaves the graph alone. */
  lemma SameTree(store: Store, deps: seq<Ref>, dep: Ref, path: set<string>)
    requires DepKey(dep) in path || HasKey(deps, DepKey(dep))
    ensures Tree(store, deps + [dep], path) == Tree(store, deps, path)
  {
    hide NodeOf, DepKey, HasKey, LastNamed;
    forall name ensures LastNamed(deps + [dep], path, name) == LastNamed(deps, path, name) {
      LastNamedSnoc(deps, dep, path, name);
    }
    forall name | LastNamed(deps, path, name).Some? ensures name in Names(deps) {
      LastNamedIsListed(deps, path, name);
    }
    assert Names(deps + [dep]) == Names(deps) + {dep.name};
  }

  lemma SameValues(store: Store, deps: seq<Ref>, deps': seq<Ref>, path: set<string>)
    requires forall key :: Value(store, deps', path, key) == Value(store, deps, path, key)
    ensures Values(store, deps', path) == Values(store, deps, path)
  {
    forall key
      ensures key in Values(store, deps', path) <==> key in Values(store, deps, path)
      ensures key in Values(store, deps, path) ==> Values(store, deps', path)[key] == Values(store, deps, path)[key]
    {
      ValuesAt(store, deps, path, key);
      ValuesAt(store, deps', path, key);
    }
  }

  /** In a complete list every listed key that is not on the path is resolved. */
  lemma ListedIsResolved(store: Store, deps: seq<Ref>, path: set<string>, key: string)
    requires Complete(store, deps, path) && HasKey(deps, key) && key !in path
    ensures key in Values(store, deps, path)
  {
    var first := FirstWithKey(deps, key).value;
    assert LeadsNowhere(store, deps, path, [first]) <==> first !in store;
    ValuesAt(store, deps, path, key);
  }

  /** A key that is neither resolved nor on the path was not listed before. */
  lemma NewDependency(store: Store, deps: seq<Ref>, i: nat, path: set<string>, resolved: map<string, Content>,
                      graph: Graph)
    requires i < |deps| && Mapped(store, deps[..i], path, resolved, graph)
    requires DepKey(deps[i]) !in resolved && DepKey(deps[i]) !in path
    ensures !HasKey(deps[..i], DepKey(deps[i]))
    ensures FirstWithKey(deps, DepKey(deps[i])) == Some(deps[i])
  {
    if HasKey(deps[..i], DepKey(deps[i])) {
      ListedIsResolved(store, deps[..i], path, DepKey(deps[i]));
    }
    FirstInPrefix(deps, i);
  }

  lemma {:induction false} FirstInPrefix(deps: seq<Ref>, i: nat)
    requires i < |deps| && !HasKey(deps[..i], DepKey(deps[i]))
    ensures FirstWithKey(deps, DepKey(deps[i])) == Some(deps[i])
  {
    if i > 0 {
      var key := DepKey(deps[i]);
      assert DepKey(deps[..i][0]) != key;
      assert deps[1..][i - 1] == deps[i];
      var tail := deps[1..][..i - 1];
      forall k | 0 <= k < |tail| ensures DepKey(tail[k]) != key {
        assert DepKey(deps[..i][k + 1]) != key;
      }
      FirstInPrefix(deps[1..], i - 1);
    }
  }

  lemma ValueSnoc(store: Store, deps: seq<Ref>, dep: Ref, path: set<string>, key: string)
    requires dep in store && DepKey(dep) !in path && !HasKey(deps, DepKey(dep))
    ensures Value(store, deps + [dep], path, key)
         == if key == DepKey(dep) then Some(Expand(store, store[dep].content, Deps(store[dep]), path + {key}))
            else Value(store, deps, path, key)
  {
    FirstWithKeySnoc(deps, dep, key);
  }

  /** A new dependency adds its key, with its expansion, and its name. */
  lemma AddedValue(store: Store, deps: seq<Ref>, dep: Ref, path: set<string>, value: Content)
    requires dep in store && DepKey(dep) !in path && !HasKey(deps, DepKey(dep))
    requires value == Expand(store, store[dep].content, Deps(store[dep]), path + {DepKey(dep)})
    ensures Values(store, deps + [dep], path) == Values(store, deps, path)[DepKey(dep) := value]
  {
    hide Values, HasKey, DepKey, Deps;
    forall key
      ensures key in Values(store, deps + [dep], path) <==> key in Values(store, deps, path)[DepKey(dep) := value]
      ensures key in Values(store, deps + [dep], path) ==>
                Values(store, deps + [dep], path)[key] == Values(store, deps, path)[DepKey(dep) := value][key]
    {
      AddedValueAt(store, deps, dep, path, value, key);
    }
  }

  lemma AddedValueAt(store: Store, deps: seq<Ref>, dep: Ref, path: set<string>, value: Content, key: string)
    requires dep in store && DepKey(dep) !in path && !HasKey(deps, DepKey(dep))
    requires value == Expand(store, store[dep].content, Deps(store[dep]), path + {DepKey(dep)})
    ensures key in Values(store, deps + [dep], path) <==> key in Values(store, deps, path)[DepKey(dep) := value]
    ensures key in Values(store, deps + [dep], path) ==>
              Values(store, deps + [dep], path)[key] == Values(store, deps, path)[DepKey(dep) := value][key]
  {
    ValueSnoc(store, deps, dep, path, key);
    ValuesAt(store, deps, path, key);
    ValuesAt(store, deps + [dep], path, key);
  }

  lemma AddedChains(store: Store, deps: seq<Ref>, dep: Ref, path: set<string>)
    requires Complete(store, deps, path)
    requires dep in store && DepKey(dep) !in path && !HasKey(deps, DepKey(dep))
    requires Complete(store, Deps(store[dep]), path + {DepKey(dep)})
    ensures Complete(store, deps + [dep], path)
  {
    forall chain ensures !LeadsNowhere(store, deps + [dep], path, chain) {
      if chain != [] {
        FirstWithKeySnoc(deps, dep, DepKey(chain[0]));
        assert !LeadsNowhere(store, Deps(store[dep]), path + {DepKey(dep)}, chain[1..]);
        assert !LeadsNowhere(store, deps, path, chain);
      }
    }
  }

  lemma AddedNode(store: Store, deps: seq<Ref>, dep: Ref, path: set<string>)
    requires dep in store && DepKey(dep) !in path && !HasKey(deps, DepKey(dep))
    ensures Tree(store, deps + [dep], path) == Tree(store, deps, path)[dep.name := NodeOf(store, dep, path)]
  {
    hide NodeOf, DepKey, HasKey, LastNamed;
    forall name ensures LastNamed(deps + [dep], path, name) == if name == dep.name then Some(dep) else LastNamed(deps, path, name) {
      LastNamedSnoc(deps, dep, path, name);
    }
    assert Names(deps + [dep]) == Names(deps) + {dep.name};
  }

  lemma AddedDependency(store: Store, deps: seq<Ref>, dep: Ref, path: set<string>, resolved: map<string, Content>,
                        graph: Graph, value: Content)
    requires Mapped(store, deps, path, resolved, graph)
    requires dep in store && DepKey(dep) !in path && !HasKey(deps, DepKey(dep))
    requires value == Expand(store, store[dep].content, Deps(store[dep]), path + {DepKey(dep)})
    requires Complete(store, Deps(store[dep]), path + {DepKey(dep)})
    ensures Mapped(store, deps + [dep], path, resolved[DepKey(dep) := value], graph[dep.name := NodeOf(store, dep, path)])
  {
    AddedValue(store, deps, dep, path, value);
    AddedChains(store, deps, dep, path);
    AddedNode(store, deps, dep, path);
  }

  lemma {:induction false} ReplaceTextByNothing(tokens: seq<Token>)
    ensures ReplaceInText(tokens, map[]) == tokens
  {
    if tokens != [] { ReplaceTextByNothing(tokens[1..]); }
  }

  lemma {:induction false} ReplaceMessagesByNothing(messages: seq<Message>)
    ensures ReplaceInMessages(messages, map[]) == messages
  {
    if messages != [] {
      ReplaceMessagesByNothing(messages[1..]);
      if messages[0].body.Tokens? { ReplaceTextByNothing(messages[0].body.tokens); }
    }
  }

  lemma ReplaceByNothing(c: Content)
    ensures ReplacePlaceholders(c, map[]) == c
  {
    match c
    case Text(tokens) => ReplaceTextByNothing(tokens);
    case Chat(messages) => ReplaceMessagesByNothing(messages);
    case Opaque(_) =>
  }

  // ---- Which tags stay -----------------------------------------------------------------------------------

  /** Every tag of the content is among the listed dependencies. */
  predicate TokensCovered(tokens: seq<Token>, deps: seq<Ref>) {
    forall i :: 0 <= i < |tokens| && tokens[i].Tag? ==> HasKey(deps, DepKey(tokens[i].ref))
  }

  predicate Covered(c: Content, deps: seq<Ref>) {
    match c
    case Text(tokens) => TokensCovered(tokens, deps)
    case Chat(messages) => forall i :: 0 <= i < |messages| && messages[i].body.Tokens? ==> TokensCovered(messages[i].body.tokens, deps)
    case Opaque(_) => true
  }

  predicate TokensIntact(tokens: seq<Token>) {
    forall i :: 0 <= i < |tokens| && tokens[i].Tag? ==> Intact(tokens[i].ref)
  }

  /** No tag has a blank name or label. */
  predicate AllIntact(c: Content) {
    match c
    case Text(tokens) => TokensIntact(tokens)
    case Chat(messages) => forall i :: 0 <= i < |messages| && messages[i].body.Tokens? ==> TokensIntact(messages[i].body.tokens)
    case Opaque(_) => true
  }

  /** Every dependency is as some tag is scanned. */
  ghost predicate AllScanned(deps: seq<Ref>) {
    forall d :: d in deps ==> IsScanned(d)
  }

  ghost predicate IsScanned(d: Ref) {
    exists r :: d == Scanned(r)
  }

  lemma {:induction false} ExtractIsScanned(messages: seq<Message>)
    ensures AllScanned(ScanMessages(messages))
  {
    if messages != [] {
      ExtractIsScanned(messages[1..]);
      if messages[0].body.Tokens? { ScanIsScanned(messages[0].body.tokens); }
    }
  }

  /** A tag's key is among those of the scanned dependencies exactly if it has no blank name or label. */
  lemma BlankIsNotListed(deps: seq<Ref>, r: Ref)
    requires AllScanned(deps) && Matched(r) && HasKey(deps, DepKey(r))
    ensures Intact(r)
  {
    if !Intact(r) {
      var i :| 0 <= i < |deps| && DepKey(deps[i]) == DepKey(r);
      assert IsScanned(deps[i]);
      var other :| deps[i] == Scanned(other);
      BlankKeyIsNew(r, other);
    }
  }

  lemma IntactIsListed(tokens: seq<Token>, i: nat)
    requires i < |tokens| && tokens[i].Tag? && Intact(tokens[i].ref)
    ensures HasKey(Scan(tokens), DepKey(tokens[i].ref))
  {
    var r := tokens[i].ref;
    ScanFindsTags(tokens);
    assert HasTag(tokens, DepKey(r));
    var k :| 0 <= k < |FirstTags(tokens)| && DepKey(FirstTags(tokens)[k]) == DepKey(r);
    FirstTagIsOne(tokens, k);
    if !Intact(FirstTags(tokens)[k]) { BlankKeyIsNew(FirstTags(tokens)[k], r); }
    assert DepKey(Scan(tokens)[k]) == DepKey(r);
  }

  /** Dependencies extracted from the content cover its tags exactly if no tag has a blank name or label. */
  lemma ExtractCoversIff(c: Content)
    ensures Covered(c, Extract(c)) <==> AllIntact(c)
  {
    match c
    case Text(tokens) => ScanCoversIff(tokens);
    case Chat(messages) =>
      ExtractIsScanned(messages);
      if AllIntact(c) { ScanMessagesCovers(messages); }
      if Covered(c, Extract(c)) {
        forall i | 0 <= i < |messages| && messages[i].body.Tokens? ensures TokensIntact(messages[i].body.tokens) {
          CoveredIsIntact(messages[i].body.tokens, Extract(c));
        }
      }
    case Opaque(_) =>
  }

  lemma CoveredIsIntact(tokens: seq<Token>, deps: seq<Ref>)
    requires TokensCovered(tokens, deps) && AllScanned(deps)
    ensures TokensIntact(tokens)
  {
    forall i | 0 <= i < |tokens| && tokens[i].Tag? ensures Intact(tokens[i].ref) {
      BlankIsNotListed(deps, tokens[i].ref);
    }
  }

  lemma ScanIsScanned(tokens: seq<Token>)
    ensures AllScanned(Scan(tokens))
  {
    ScanFindsTags(tokens);
    forall d | d in Scan(tokens) ensures IsScanned(d) {
      var i :| 0 <= i < |Scan(tokens)| && Scan(tokens)[i] == d;
      assert d == Scanned(FirstTags(tokens)[i]);
    }
  }

  lemma ScanCoversIff(tokens: seq<Token>)
    ensures TokensCovered(tokens, Scan(tokens)) <==> TokensIntact(tokens)
  {
    ScanIsScanned(tokens);
    if TokensCovered(tokens, Scan(tokens)) { CoveredIsIntact(tokens, Scan(tokens)); }
    if TokensIntact(tokens) {
      forall i | 0 <= i < |tokens| && tokens[i].Tag? ensures HasKey(Scan(tokens), DepKey(tokens[i].ref)) {
        IntactIsListed(tokens, i);
      }
    }
  }

  /** A tag with a blank name or label stays literal, although what it is scanned as is among the dependencies of its text. */
  lemma BlankTagStays(store: Store, tokens: seq<Token>, i: nat, path: set<string>)
    requires i < |tokens| && tokens[i].Tag? && !Intact(tokens[i].ref)
    ensures ExpandToken(store, tokens[i], Scan(tokens), path) == [tokens[i]]
    ensures exists k :: 0 <= k < |tokens| && tokens[k].Tag? && DepKey(tokens[k].ref) == DepKey(tokens[i].ref) && Scanned(tokens[k].ref) in Scan(tokens)
  {
    ScanIsScanned(tokens);
    if HasKey(Scan(tokens), DepKey(tokens[i].ref)) { BlankIsNotListed(Scan(tokens), tokens[i].ref); }
    ScanFindsTags(tokens);
    assert HasTag(tokens, DepKey(tokens[i].ref));
    var k :| 0 <= k < |FirstTags(tokens)| && DepKey(FirstTags(tokens)[k]) == DepKey(tokens[i].ref);
    FirstTagIsOne(tokens, k);
    assert Scan(tokens)[k] in Scan(tokens);
  }

  predicate IsTag(t: Token, r: Ref) {
    t.Tag? && t.ref == r
  }

  lemma {:induction false} FirstTagIsOne(tokens: seq<Token>, k: nat)
    requires k < |FirstTags(tokens)|
    ensures exists i :: 0 <= i < |tokens| && IsTag(tokens[i], FirstTags(tokens)[k])
  {
    var init, last := tokens[..|tokens| - 1], tokens[|tokens| - 1];
    if k < |FirstTags(init)| {
      FirstTagIsOne(init, k);
      var i :| 0 <= i < |init| && IsTag(init[i], FirstTags(init)[k]);
      assert IsTag(tokens[i], FirstTags(tokens)[k]);
    } else {
      assert IsTag(tokens[|tokens| - 1], FirstTags(tokens)[k]);
    }
  }

  lemma HasKeyAppends(a: seq<Ref>, b: seq<Ref>, key: string)
    ensures HasKey(a, key) || HasKey(b, key) ==> HasKey(a + b, key)
  {
    if HasKey(a, key) {
      var i :| 0 <= i < |a| && DepKey(a[i]) == key;
      assert DepKey((a + b)[i]) == key;
    }
    if HasKey(b, key) {
      var i :| 0 <= i < |b| && DepKey(b[i]) == key;
      assert DepKey((a + b)[|a| + i]) == key;
    }
  }

  lemma {:induction false} ScanMessagesCovers(messages: seq<Message>)
    requires AllIntact(Chat(messages))
    ensures forall i :: 0 <= i < |messages| && messages[i].body.Tokens? ==> TokensCovered(messages[i].body.tokens, ScanMessages(messages))
  {
    if messages != [] {
      var head := if messages[0].body.Tokens? then Scan(messages[0].body.tokens) else [];
      var tail := ScanMessages(messages[1..]);
      forall i | 0 <= i < |messages[1..]| && messages[1..][i].body.Tokens?
        ensures TokensIntact(messages[1..][i].body.tokens)
      {
        assert messages[1..][i] == messages[i + 1];
      }
      ScanMessagesCovers(messages[1..]);
      if messages[0].body.Tokens? { ScanCoversIff(messages[0].body.tokens); }
      forall i | 0 <= i < |messages| && messages[i].body.Tokens? ensures TokensCovered(messages[i].body.tokens, head + tail) {
        var tokens := messages[i].body.tokens;
        assert i > 0 ==> messages[1..][i - 1] == messages[i];
        forall k | 0 <= k < |tokens| && tokens[k].Tag? ensures HasKey(head + tail, DepKey(tokens[k].ref)) {
          HasKeyAppends(head, tail, DepKey(tokens[k].ref));
        }
      }
    }
  }

  /** A listed tag stays literal exactly when its key is on the current expansion path. */
  lemma TagStaysOnPath(store: Store, deps: seq<Ref>, path: set<string>, key: string)
    requires Complete(store, deps, path) && HasKey(deps, key)
    ensures Value(store, deps, path, key).None? <==> key in path
  {
    if key !in path {
      ListedIsResolved(store, deps, path, key);
      ValuesAt(store, deps, path, key);
    }
  }

  // ---- What resolution follows -----------------------------------------------------------------------------

  /**
   A chain of references, each one what the prompt before it refers to, that no
   repetition of a key cuts and that ends in one the store cannot answer.
   */
  ghost predicate DeadEnd(store: Store, p: Prompt, path: set<string>, chain: seq<Ref>)
    decreases |chain|
  {
    && chain != [] && DepKey(chain[0]) !in path && RefersTo(p, chain[0])
    && if |chain| == 1 then chain[0] !in store
       else chain[0] in store && DeadEnd(store, store[chain[0]], path + {DepKey(chain[0])}, chain[1..])
  }

  lemma {:induction false} DeadEndIff(store: Store, p: Prompt, path: set<string>, chain: seq<Ref>)
    ensures LeadsNowhere(store, Deps(p), path, chain) <==> DeadEnd(store, p, path, chain)
    decreases |chain|
  {
    if chain != [] {
      RefersToIff(p, chain[0]);
      if |chain| > 1 && chain[0] in store { DeadEndIff(store, store[chain[0]], path + {DepKey(chain[0])}, chain[1..]); }
    }
  }

  /** Resolution succeeds exactly if no chain of references has a dead end. */
  lemma CompleteIff(store: Store, p: Prompt, path: set<string>)
    ensures Complete(store, Deps(p), path) <==> forall chain :: !DeadEnd(store, p, path, chain)
  {
    if Complete(store, Deps(p), path) {
      forall chain ensures !DeadEnd(store, p, path, chain) {
        DeadEndIff(store, p, path, chain);
      }
    } else {
      var chain :| LeadsNowhere(store, Deps(p), path, chain);
      DeadEndIff(store, p, path, chain);
    }
  }

  lemma NothingLeads(store: Store, path: set<string>)
    ensures Complete(store, [], path)
  {
  }

  /** Nothing is listed for a prompt exactly if it refers to nothing. */
  lemma NothingIsListed(p: Prompt)
    ensures Deps(p) == [] <==> forall d :: !RefersTo(p, d)
  {
    if Deps(p) == [] {
      forall d ensures !RefersTo(p, d) {
        RefersToIff(p, d);
      }
    } else {
      var d := Deps(p)[0];
      assert FirstWithKey(Deps(p), DepKey(d)) == Some(d);
      RefersToIff(p, d);
    }
  }

  /** Whatever the prompt refers to off the path is replaced by its own expansion, and nothing else is replaced. */
  ghost predicate FollowsAll(store: Store, p: Prompt, path: set<string>) {
    && (forall r :: RefersTo(p, r) && DepKey(r) !in path ==> Replaced(store, p, path, r))
    && (forall key :: key in Values(store, Deps(p), path) ==> key !in path && exists r :: RefersTo(p, r) && DepKey(r) == key)
  }

  ghost predicate Replaced(store: Store, p: Prompt, path: set<string>, r: Ref) {
    && r in store
    && DepKey(r) in Values(store, Deps(p), path)
    && Values(store, Deps(p), path)[DepKey(r)] == Expand(store, store[r].content, Deps(store[r]), path + {DepKey(r)})
  }

  lemma CompleteFollowsAll(store: Store, p: Prompt, path: set<string>)
    requires Complete(store, Deps(p), path)
    ensures FollowsAll(store, p, path)
  {
    forall r | RefersTo(p, r) && DepKey(r) !in path ensures Replaced(store, p, path, r) {
      RefersToIff(p, r);
      CompleteBelow(store, Deps(p), path, r);
      ValuesAt(store, Deps(p), path, DepKey(r));
    }
    forall key | key in Values(store, Deps(p), path)
      ensures key !in path && exists r :: RefersTo(p, r) && DepKey(r) == key
    {
      ValuesAt(store, Deps(p), path, key);
      RefersToIff(p, FirstWithKey(Deps(p), key).value);
    }
  }

  /** Each reference is what the prompt before it refers to, no key comes twice, and the last one's prompt is `q`. */
  ghost predicate LeadsTo(store: Store, p: Prompt, path: set<string>, chain: seq<Ref>, q: Prompt)
    decreases |chain|
  {
    if chain == [] then q == p
    else
      && DepKey(chain[0]) !in path && RefersTo(p, chain[0]) && chain[0] in store
      && LeadsTo(store, store[chain[0]], path + {DepKey(chain[0])}, chain[1..], q)
  }

  function KeysOf(chain: seq<Ref>): set<string> {
    set r | r in chain :: DepKey(r)
  }

  /** What is resolved is resolved all the way down: the same holds of every prompt that a chain of references leads to. */
  lemma {:induction false} FollowsAllBelow(store: Store, p: Prompt, path: set<string>, chain: seq<Ref>, q: Prompt)
    requires Complete(store, Deps(p), path) && LeadsTo(store, p, path, chain, q)
    ensures FollowsAll(store, q, path + KeysOf(chain))
    decreases |chain|
  {
    if chain == [] {
      assert path + KeysOf(chain) == path;
      CompleteFollowsAll(store, p, path);
    } else {
      hide Complete, DepKey, FollowsAll, RefersTo, Deps, KeysOf;
      var r := chain[0];
      RefersToIff(p, r);
      CompleteBelow(store, Deps(p), path, r);
      FollowsAllBelow(store, store[r], path + {DepKey(r)}, chain[1..], q);
      KeysOfCons(chain);
      assert path + {DepKey(r)} + KeysOf(chain[1..]) == path + KeysOf(chain);
    }
  }

  lemma KeysOfCons(chain: seq<Ref>)
    requires chain != []
    ensures KeysOf(chain) == {DepKey(chain[0])} + KeysOf(chain[1..])
  {
    assert chain == [chain[0]] + chain[1..];
  }

  /** Every row of a dependency table has the key of something the prompt refers to. */
  lemma {:induction false} RowsAreReferences(p: Prompt, d: Ref)
    requires d in p.table
    ensures exists r :: RefersTo(p, r) && DepKey(r) == DepKey(d)
  {
    var i :| 0 <= i < |p.table| && p.table[i] == d;
    assert HasKey(Deps(p), DepKey(d));
    RefersToIff(p, FirstWithKey(Deps(p), DepKey(d)).value);
  }

  lemma TagHasKey(c: Content, m: int, i: int, d: Ref)
    requires TagIs(c, m, i, d)
    ensures HasKey(Extract(c), DepKey(d))
  {
    match c
    case Text(tokens) => TagIsListed(tokens, i);
    case Chat(messages) => MessageTagIsListed(messages, m, i);
  }

  /** So has every tag in a prompt without rows. */
  lemma TagsAreReferences(p: Prompt, m: int, i: int, d: Ref)
    requires p.table == [] && TagIs(p.content, m, i, d)
    ensures exists r :: RefersTo(p, r) && DepKey(r) == DepKey(d)
  {
    TagHasKey(p.content, m, i, d);
    RefersToIff(p, FirstWithKey(Deps(p), DepKey(d)).value);
  }

  lemma {:induction false} MessageTagIsListed(messages: seq<Message>, m: nat, i: nat)
    requires m < |messages| && messages[m].body.Tokens? && i < |messages[m].body.tokens| && messages[m].body.tokens[i].Tag?
    ensures HasKey(ScanMessages(messages), DepKey(Scanned(messages[m].body.tokens[i].ref)))
  {
    hide HasKey, DepKey, Scan, Scanned;
    var key := DepKey(Scanned(messages[m].body.tokens[i].ref));
    if m == 0 {
      TagIsListed(messages[0].body.tokens, i);
    } else {
      MessageTagIsListed(messages[1..], m - 1, i);
    }
    HasKeyAppends(if messages[0].body.Tokens? then Scan(messages[0].body.tokens) else [], ScanMessages(messages[1..]), key);
  }

  /** Every row, or every tag of a prompt without rows, that is not on the path gets a value under its key. */
  lemma RowsAndTagsHaveValues(store: Store, p: Prompt, path: set<string>, d: Ref)
    requires FollowsAll(store, p, path) && DepKey(d) !in path
    requires d in p.table || (p.table == [] && exists m, i :: TagIs(p.content, m, i, d))
    ensures DepKey(d) in Values(store, Deps(p), path)
  {
    if d in p.table {
      RowsAreReferences(p, d);
    } else {
      var m, i :| TagIs(p.content, m, i, d);
      TagsAreReferences(p, m, i, d);
    }
    var r :| RefersTo(p, r) && DepKey(r) == DepKey(d);
    assert Replaced(store, p, path, r);
  }

  // ---- What the graph shows --------------------------------------------------------------------------------

  /** A dependency that stands for its own key. */
  predicate Followed(deps: seq<Ref>, path: set<string>, d: Ref) {
    d in deps && DepKey(d) !in path && FirstWithKey(deps, DepKey(d)) == Some(d)
  }

  lemma FollowedSnoc(deps: seq<Ref>, last: Ref, path: set<string>, d: Ref)
    ensures Followed(deps + [last], path, d)
       <==> Followed(deps, path, d) || (d == last && DepKey(d) !in path && !HasKey(deps, DepKey(d)))
  {
    FirstWithKeySnoc(deps, last, DepKey(d));
  }

  lemma {:induction false} LastNamedIsFollowed(deps: seq<Ref>, path: set<string>, name: string)
    ensures LastNamed(deps, path, name).Some? ==> Followed(deps, path, LastNamed(deps, path, name).value)
    ensures (exists d :: Followed(deps, path, d) && d.name == name) ==> LastNamed(deps, path, name).Some?
  {
    if deps != [] {
      hide Followed, DepKey, HasKey;
      var init, last := deps[..|deps| - 1], deps[|deps| - 1];
      assert deps == init + [last];
      LastNamedIsFollowed(init, path, name);
      forall d: Ref
        ensures Followed(deps, path, d) <==> Followed(init, path, d) || (d == last && DepKey(d) !in path && !HasKey(init, DepKey(d)))
      {
        FollowedSnoc(init, last, path, d);
      }
    }
  }

  /** The names in the graph are those of the dependencies that have a value for their tags. */
  lemma GraphNamesReplaced(store: Store, deps: seq<Ref>, path: set<string>, name: string)
    requires Complete(store, deps, path)
    ensures name in Tree(store, deps, path)
       <==> exists d :: Followed(deps, path, d) && d.name == name && Value(store, deps, path, DepKey(d)).Some?
  {
    LastNamedIsFollowed(deps, path, name);
    LastNamedIsListed(deps, path, name);
    forall d | Followed(deps, path, d) ensures d in store && Value(store, deps, path, DepKey(d)).Some? {
      CompleteBelow(store, deps, path, d);
    }
  }

  /** The dependency listed here has the name, is not on the path, and its key is not listed before. */
  predicate ShownAt(deps: seq<Ref>, path: set<string>, i: int, name: string) {
    && 0 <= i < |deps| && deps[i].name == name && DepKey(deps[i]) !in path
    && forall k :: 0 <= k < i ==> DepKey(deps[k]) != DepKey(deps[i])
  }

  ghost predicate ShownLast(deps: seq<Ref>, path: set<string>, i: int, name: string) {
    ShownAt(deps, path, i, name) && forall j :: i < j ==> !ShownAt(deps, path, j, name)
  }

  lemma {:induction false} LastNamedAt(deps: seq<Ref>, path: set<string>, name: string) returns (i: nat)
    requires LastNamed(deps, path, name).Some?
    ensures ShownLast(deps, path, i, name) && deps[i] == LastNamed(deps, path, name).value
  {
    var n := |deps| - 1;
    var init, last := deps[..n], deps[n];
    if last.name == name && DepKey(last) !in path && !HasKey(init, DepKey(last)) {
      i := n;
      forall k | 0 <= k < n ensures DepKey(deps[k]) != DepKey(last) {
        assert init[k] == deps[k];
      }
    } else {
      i := LastNamedAt(init, path, name);
      forall j | 0 <= j < n ensures ShownAt(deps, path, j, name) == ShownAt(init, path, j, name) {
        assert forall k :: 0 <= k <= j ==> init[k] == deps[k];
      }
    }
  }

  /** A name stands for the last dependency that is followed under it: its version, its labels and the graph of what it refers to. */
  lemma GraphNodeIs(store: Store, deps: seq<Ref>, path: set<string>, name: string) returns (i: nat)
    requires name in Tree(store, deps, path)
    ensures ShownLast(deps, path, i, name) && deps[i] in store
    ensures Tree(store, deps, path)[name]
         == Node(store[deps[i]].version, store[deps[i]].labels, Tree(store, Deps(store[deps[i]]), path + {DepKey(deps[i])}))
  {
    i := LastNamedAt(deps, path, name);
    LastNamedIsListed(deps, path, name);
    assert Tree(store, deps, path)[name] == NodeOf(store, deps[i], path);
  }

  /** Following these names leads down through the graph. */
  predicate Shows(graph: Graph, names: seq<string>)
    decreases |names|
  {
    names != [] ==> names[0] in graph && Shows(graph[names[0]].dependencies, names[1..])
  }

  lemma TreeAt(store: Store, deps: seq<Ref>, path: set<string>, name: string) returns (d: Ref)
    requires name in Tree(store, deps, path)
    ensures d in store && DepKey(d) !in path && Tree(store, deps, path)[name].dependencies == Tree(store, Deps(store[d]), path + {DepKey(d)})
  {
    d := LastNamed(deps, path, name).value;
    LastNamedIsListed(deps, path, name);
    assert Tree(store, deps, path)[name] == NodeOf(store, d, path);
  }

  /** Cycles are cut: no way down is longer than there are keys. */
  lemma {:induction false} GraphIsShallow(store: Store, deps: seq<Ref>, path: set<string>, names: seq<string>)
    requires Shows(Tree(store, deps, path), names)
    ensures |names| <= |StoreKeys(store) - path|
    decreases |names|
  {
    if names != [] {
      hide Tree;
      var d := TreeAt(store, deps, path, names[0]);
      PathShrinks(StoreKeys(store), path, DepKey(d));
      GraphIsShallow(store, Deps(store[d]), path + {DepKey(d)}, names[1..]);
    }
  }

  // ---- Whose content a tag gets ----------------------------------------------------------------------------

  /** A listed reference resolves to the content it names. */
  ghost predicate GetsItsOwn(r: Ref, store: Store, deps: seq<Ref>, path: set<string>)
    requires r in store
  {
    Value(store, deps, path, DepKey(r)) == Some(Expand(store, store[r].content, Deps(store[r]), path + {DepKey(r)}))
  }

  /** Unambiguous references get the content they name, not that of a reference with the same key. */
  lemma TagGetsItsOwnPrompt(store: Store, deps: seq<Ref>, path: set<string>, r: Ref)
    requires Spelled(r) && Unambiguous(r) && forall d :: d in deps ==> Spelled(d)
    requires r in deps && r in store && DepKey(r) !in path
    ensures GetsItsOwn(r, store, deps, path)
  {
    var i :| 0 <= i < |deps| && deps[i] == r;
    assert HasKey(deps, DepKey(r));
    UnambiguousIsUnique(r, FirstWithKey(deps, DepKey(r)).value);
  }

  /** For any other reference there is a store and a prompt in which it gets another prompt's content. */
  lemma TagGetsAnother(r: Ref) returns (store: Store, deps: seq<Ref>)
    requires Spelled(r) && !Unambiguous(r)
    ensures r in deps && r in store && (forall d :: d in deps ==> Spelled(d) && d in store)
    ensures !GetsItsOwn(r, store, deps, {})
  {
    var b := SharedKey(r);
    store := map[r := Prompt(1, [], Opaque("own"), []), b := Prompt(1, [], Opaque("another"), [])];
    deps := [b, r];
    assert deps[1..] == [r];
    assert FirstWithKey(deps, DepKey(r)) == Some(b);
    assert Value(store, deps, {}, DepKey(r)) == Some(Opaque("another"));
    assert Opaque("another") != Opaque("own") by { assert |"another"| != |"own"|; }
  }

  /** Its own prompt in every store and every list: exactly the unambiguous references. */
  lemma TagGetsItsOwnIff(r: Ref)
    requires Spelled(r)
    ensures Unambiguous(r) <==> forall store: Store, deps: seq<Ref> ::
              r in deps && r in store && (forall d :: d in deps ==> Spelled(d)) ==> GetsItsOwn(r, store, deps, {})
  {
    if Unambiguous(r) {
      forall store: Store, deps: seq<Ref> | r in deps && r in store && (forall d :: d in deps ==> Spelled(d))
        ensures GetsItsOwn(r, store, deps, {})
      {
        TagGetsItsOwnPrompt(store, deps, {}, r);
      }
    } else {
      var store, deps := TagGetsAnother(r);
    }
  }

  // ---- Acyclic stores resolve completely ---------------------------------------------------------------------

  predicate TokenFree(t: Token) {
    match t
    case Lit(_) => true
    case Tag(_) => false
    case Json(c) => TagFree(c)
  }

  /** No tag anywhere, rendered chat prompts included. */
  predicate TagFree(c: Content) {
    match c
    case Text(tokens) => forall t | t in tokens :: TokenFree(t)
    case Chat(messages) => forall m | m in messages :: MessageFree(m)
    case Opaque(_) => true
  }

  predicate MessageFree(m: Message) {
    match m.body
    case NotText => true
    case Tokens(tokens) => forall t | t in tokens :: TokenFree(t)
  }

  predicate TokensFree(tokens: seq<Token>) {
    forall t | t in tokens :: TokenFree(t)
  }

  /** Stored text is literals and tags; rendered JSON only arises from substitution. */
  predicate Authored(c: Content) {
    match c
    case Text(tokens) => forall t :: t in tokens ==> !t.Json?
    case Chat(messages) => forall m :: m in messages && m.body.Tokens? ==> forall t :: t in m.body.tokens ==> !t.Json?
    case Opaque(_) => true
  }

  ghost predicate WellFormed(store: Store) {
    forall r :: r in store ==> Authored(store[r].content) && Covered(store[r].content, Deps(store[r]))
  }

  /** References only lead downwards: the graph has no cycle. */
  ghost predicate Acyclic(store: Store, rank: string -> nat) {
    forall r, d :: r in store && d in Deps(store[r]) ==> rank(DepKey(d)) < rank(DepKey(r))
  }

  /** The place being expanded lies below everything on its path. */
  ghost predicate Below(deps: seq<Ref>, path: set<string>, rank: string -> nat, bound: nat) {
    && (forall d :: d in deps ==> rank(DepKey(d)) < bound)
    && (forall key :: key in path ==> bound <= rank(key))
  }

  lemma CompleteBelow(store: Store, deps: seq<Ref>, path: set<string>, r: Ref)
    requires Complete(store, deps, path) && DepKey(r) !in path && FirstWithKey(deps, DepKey(r)) == Some(r)
    ensures r in store && Complete(store, Deps(store[r]), path + {DepKey(r)})
  {
    assert LeadsNowhere(store, deps, path, [r]) <==> r !in store;
    forall chain ensures !LeadsNowhere(store, Deps(store[r]), path + {DepKey(r)}, chain) {
      if LeadsNowhere(store, Deps(store[r]), path + {DepKey(r)}, chain) {
        LongerChain(store, r, path, chain);
        assert LeadsNowhere(store, deps, path, [r] + chain);
      }
    }
  }

  /** Everything that is needed of the place a tag leads to. */
  lemma BelowTag(store: Store, rank: string -> nat, deps: seq<Ref>, path: set<string>, bound: nat, r: Ref)
    requires WellFormed(store) && Acyclic(store, rank) && Complete(store, deps, path) && Below(deps, path, rank, bound)
    requires r in deps && FirstWithKey(deps, DepKey(r)) == Some(r)
    ensures DepKey(r) !in path && r in store && DepKey(r) in StoreKeys(store)
    ensures Complete(store, Deps(store[r]), path + {DepKey(r)})
    ensures Below(Deps(store[r]), path + {DepKey(r)}, rank, rank(DepKey(r)))
  {
    assert DepKey(r) !in path;
    CompleteBelow(store, deps, path, r);
  }

  lemma FreePieceIsFree(store: Store, t: Token, deps: seq<Ref>, path: set<string>, r: Ref)
    requires t.Tag? && DepKey(t.ref) == DepKey(r) && FirstWithKey(deps, DepKey(r)) == Some(r)
    requires r in store && DepKey(r) !in path
    requires TagFree(Expand(store, store[r].content, Deps(store[r]), path + {DepKey(r)}))
    ensures TokensFree(ExpandToken(store, t, deps, path))
  {
    assert Value(store, deps, path, DepKey(r)) == Some(Expand(store, store[r].content, Deps(store[r]), path + {DepKey(r)}));
  }

  lemma {:induction false} ExpandTokenIsFree(store: Store, rank: string -> nat, t: Token, deps: seq<Ref>,
                                             path: set<string>, bound: nat)
    requires WellFormed(store) && Acyclic(store, rank) && Complete(store, deps, path) && Below(deps, path, rank, bound)
    requires !t.Json? && (t.Tag? ==> HasKey(deps, DepKey(t.ref)))
    ensures TokensFree(ExpandToken(store, t, deps, path))
    decreases |StoreKeys(store) - path|, 1, 0
  {
    if t.Tag? {
      var key := DepKey(t.ref);
      var r := FirstWithKey(deps, key).value;
      BelowTag(store, rank, deps, path, bound, r);
      PathShrinks(StoreKeys(store), path, key);
      ExpandIsFree(store, rank, store[r].content, Deps(store[r]), path + {key}, rank(key));
      FreePieceIsFree(store, t, deps, path, r);
    }
  }

  lemma {:induction false} ExpandTokensIsFree(store: Store, rank: string -> nat, tokens: seq<Token>, deps: seq<Ref>,
                                              path: set<string>, bound: nat)
    requires WellFormed(store) && Acyclic(store, rank) && Complete(store, deps, path) && Below(deps, path, rank, bound)
    requires (forall t :: t in tokens ==> !t.Json?) && TokensCovered(tokens, deps)
    ensures TokensFree(ExpandTokens(store, tokens, deps, path))
    decreases |StoreKeys(store) - path|, 2, |tokens|
  {
    if tokens != [] {
      ExpandTokenIsFree(store, rank, tokens[0], deps, path, bound);
      ExpandTokensIsFree(store, rank, tokens[1..], deps, path, bound);
    }
  }

  lemma {:induction false} ExpandMessagesIsFree(store: Store, rank: string -> nat, messages: seq<Message>,
                                                deps: seq<Ref>, path: set<string>, bound: nat)
    requires WellFormed(store) && Acyclic(store, rank) && Complete(store, deps, path) && Below(deps, path, rank, bound)
    requires Authored(Chat(messages)) && Covered(Chat(messages), deps)
    ensures TagFree(Chat(ExpandMessages(store, messages, deps, path)))
    decreases |StoreKeys(store) - path|, 3, |messages|
  {
    if messages != [] {
      var m := messages[0];
      assert m in messages;
      if m.body.Tokens? { ExpandTokensIsFree(store, rank, m.body.tokens, deps, path, bound); }
      forall i | 0 <= i < |messages[1..]| && messages[1..][i].body.Tokens? ensures TokensCovered(messages[1..][i].body.tokens, deps) {
        assert messages[1..][i] == messages[i + 1];
      }
      ExpandMessagesIsFree(store, rank, messages[1..], deps, path, bound);
    }
  }

  lemma {:induction false} ExpandIsFree(store: Store, rank: string -> nat, c: Content, deps: seq<Ref>,
                                        path: set<string>, bound: nat)
    requires WellFormed(store) && Acyclic(store, rank) && Complete(store, deps, path) && Below(deps, path, rank, bound)
    requires Authored(c) && Covered(c, deps)
    ensures TagFree(Expand(store, c, deps, path))
    decreases |StoreKeys(store) - path|, 4, 0
  {
    match c
    case Text(tokens) => ExpandTokensIsFree(store, rank, tokens, deps, path, bound);
    case Chat(messages) => ExpandMessagesIsFree(store, rank, messages, deps, path, bound);
    case Opaque(_) =>
  }

  /** On an acyclic store a resolvable prompt keeps no tag. */
  lemma AcyclicLeavesNoTag(store: Store, rank: string -> nat, p: Prompt, bound: nat)
    requires WellFormed(store) && Acyclic(store, rank) && Complete(store, Deps(p), {})
    requires Authored(p.content) && Covered(p.content, Deps(p))
    requires forall d :: d in Deps(p) ==> rank(DepKey(d)) < bound
    ensures TagFree(Expand(store, p.content, Deps(p), {}))
  {
    ExpandIsFree(store, rank, p.content, Deps(p), {}, bound);
  }
}
