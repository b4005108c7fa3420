/**
 The provider stream reader: `generateChunks` inside `callStream`. The decoded
 text arrives in arbitrary pieces; complete lines are handled as they appear and
 the residue waits for the next piece.
 */
module SseStream {
  import opened Options
  import opened Texts
  import Utf8Text

  /** UTF-8 length of one scalar value (section 3 of RFC 3629). */
  function CharBytes(c: char): nat {
    if c < '\U{80}' then 1 else if c < '\U{800}' then 2 else if c < '\U{10000}' then 3 else 4
  }

  function ByteLength(s: string): nat {
    if s == [] then 0 else CharBytes(s[0]) + ByteLength(s[1..])
  }

  lemma {:induction false} ByteLengthAppends(a: string, b: string)
    ensures ByteLength(a + b) == ByteLength(a) + ByteLength(b)
  {
    if a == [] {
      assert a + b == b;
    } else {
      ByteLengthAppends(a[1..], b);
      assert (a + b)[1..] == a[1..] + b;
    }
  }

  function CodePoints(s: string): seq<Utf8Text.Scalar> {
    seq(|s|, i requires 0 <= i < |s| => s[i] as int)
  }

  /** The length of a line is that of its UTF-8 form. */
  lemma {:induction false} ByteLengthIsUtf8(s: string)
    ensures ByteLength(s) == |Utf8Text.Utf8Bytes(CodePoints(s))|
  {
    if s != [] {
      ByteLengthIsUtf8(s[1..]);
      assert CodePoints(s)[1..] == CodePoints(s[1..]);
    }
  }

  function TrimStart(s: string): string {
    if s != [] && IsSpace(s[0]) then TrimStart(s[1..]) else s
  }

  function TrimEnd(s: string): string {
    if s != [] && IsSpace(s[|s| - 1]) then TrimEnd(s[..|s| - 1]) else s
  }

  /** The payload of an event line: what follows `data: ` once the line is trimmed. */
  function Payload(line: string): Option<string> {
    var trimmed := TrimEnd(TrimStart(line));
    if "data: " <= trimmed then Some(trimmed[6..]) else None
  }

  predicate AllSpace(s: string) {
    forall i :: 0 <= i < |s| ==> IsSpace(s[i])
  }

  lemma {:induction false} TrimStartIs(s: string) returns (front: string)
    ensures s == front + TrimStart(s) && AllSpace(front)
    ensures TrimStart(s) != [] ==> !IsSpace(TrimStart(s)[0])
  {
    hide AllSpace, IsSpace;
    if s != [] && IsSpace(s[0]) {
      var rest := TrimStartIs(s[1..]);
      front := [s[0]] + rest;
      RegroupFront(s, rest, TrimStart(s[1..]));
    } else {
      front := [];
      NoSpace();
    }
  }

  lemma NoSpace()
    ensures AllSpace([])
  {
  }

  lemma RegroupFront(s: string, rest: string, kept: string)
    requires s != [] && s[1..] == rest + kept && AllSpace(rest) && IsSpace(s[0])
    ensures s == [s[0]] + rest + kept && AllSpace([s[0]] + rest)
  {
  }

  lemma {:induction false} TrimEndIs(s: string) returns (back: string)
    ensures s == TrimEnd(s) + back && AllSpace(back)
    ensures TrimEnd(s) != [] ==> !IsSpace(TrimEnd(s)[|TrimEnd(s)| - 1])
  {
    if s != [] && IsSpace(s[|s| - 1]) {
      var init, last := s[..|s| - 1], s[|s| - 1];
      var rest := TrimEndIs(init);
      back := rest + [last];
      Regroup(s, init, TrimEnd(init), rest, last);
      AllSpaceSnoc(rest, last);
    } else {
      back := [];
    }
  }

  lemma Regroup(s: string, init: string, kept: string, rest: string, last: char)
    requires s != [] && init == s[..|s| - 1] && last == s[|s| - 1] && init == kept + rest
    ensures s == kept + (rest + [last])
  {
  }

  lemma AllSpaceSnoc(s: string, c: char)
    requires AllSpace(s) && IsSpace(c)
    ensures AllSpace(s + [c])
  {
  }

  lemma {:induction false} TrimStartOf(front: string, s: string)
    requires AllSpace(front) && (s != [] ==> !IsSpace(s[0]))
    ensures TrimStart(front + s) == s
  {
    if front == [] {
      assert front + s == s;
    } else {
      assert (front + s)[1..] == front[1..] + s;
      TrimStartOf(front[1..], s);
    }
  }

  lemma {:induction false} TrimEndOf(s: string, back: string)
    requires AllSpace(back) && (s != [] ==> !IsSpace(s[|s| - 1]))
    ensures TrimEnd(s + back) == s
  {
    if back == [] {
      assert s + back == s;
    } else {
      assert (s + back)[..|s + back| - 1] == s + back[..|back| - 1];
      TrimEndOf(s, back[..|back| - 1]);
    }
  }

  /** The line is `data: ` and the payload, with nothing but white space around. */
  ghost predicate IsEventLine(line: string, payload: string) {
    && payload != "" && !IsSpace(payload[|payload| - 1])
    && exists front, back :: line == front + "data: " + payload + back && AllSpace(front) && AllSpace(back)
  }

  /** A line has a payload exactly if it is an event line, which it is of no other payload. */
  lemma PayloadIff(line: string, payload: string)
    ensures Payload(line) == Some(payload) <==> IsEventLine(line, payload)
  {
    if IsEventLine(line, payload) {
      var front, back :| line == front + "data: " + payload + back && AllSpace(front) && AllSpace(back);
      EventLineHasPayload(front, payload, back);
    }
    if Payload(line) == Some(payload) {
      PayloadOfEventLine(line);
    }
  }

  lemma EventLineHasPayload(front: string, payload: string, back: string)
    requires payload != "" && !IsSpace(payload[|payload| - 1]) && AllSpace(front) && AllSpace(back)
    ensures Payload(front + "data: " + payload + back) == Some(payload)
  {
    var trimmed := "data: " + payload;
    assert front + "data: " + payload + back == front + (trimmed + back);
    SpaceIff('d');
    TrimStartOf(front, trimmed + back);
    TrimEndOf(trimmed, back);
    assert trimmed[6..] == payload;
  }

  lemma PayloadOfEventLine(line: string)
    requires Payload(line).Some?
    ensures IsEventLine(line, Payload(line).value)
  {
    hide TrimStart, TrimEnd, AllSpace, IsSpace;
    var front := TrimStartIs(line);
    var back := TrimEndIs(TrimStart(line));
    var trimmed, payload := TrimEnd(TrimStart(line)), Payload(line).value;
    assert trimmed == "data: " + payload;
    SpaceIff(' ');
    LastOf("data: ", payload);
    assert line == front + "data: " + payload + back;
  }

  lemma LastOf(a: string, b: string)
    requires a != ""
    ensures (a + b)[|a + b| - 1] == if b == "" then a[|a| - 1] else b[|b| - 1]
  {
  }

  const DONE: string := "[DONE]"

  // ---- What a stream means -----------------------------------------------------------

  predicate IsDone(line: string) {
    Payload(line) == Some(DONE)
  }

  predicate HasDone(lines: seq<string>) {
    exists i :: 0 <= i < |lines| && IsDone(lines[i])
  }

  /**
   The chunk of one line, if any. `handle` is the payload's JSON parse followed
   by the adapter's transform: None for a payload that does not parse or gives
   no chunk.
   */
  function ChunkOf<C>(line: string, handle: string -> Option<C>): seq<C> {
    if Payload(line).None? || IsDone(line) then []
    else match handle(Payload(line).value) case Some(c) => [c] case None => []
  }

  /** The chunks of a list of lines, up to the first `[DONE]`. */
  function Emitted<C>(lines: seq<string>, handle: string -> Option<C>): seq<C> {
    if lines == [] then []
    else
      var init := lines[..|lines| - 1];
      if HasDone(init) then Emitted(init, handle) else Emitted(init, handle) + ChunkOf(lines[|lines| - 1], handle)
  }

  /** Lines handled up to and including line i, and those that follow. */
  lemma StopAt<C>(before: seq<string>, lines: seq<string>, i: nat, handle: string -> Option<C>)
    requires i < |lines|
    ensures before + lines[..i] + [lines[i]] == before + lines[..i + 1]
    ensures Emitted(before + lines[..i], handle) <= Emitted(before + lines, handle)
    ensures HasDone(before + lines[..i + 1]) ==>
              HasDone(before + lines) && Emitted(before + lines[..i + 1], handle) == Emitted(before + lines, handle)
  {
    hide Emitted, HasDone;
    assert before + lines == before + lines[..i] + lines[i..];
    assert before + lines == before + lines[..i + 1] + lines[i + 1..];
    EmittedGrows(before + lines[..i], lines[i..], handle);
    EmittedGrows(before + lines[..i + 1], lines[i + 1..], handle);
  }

  lemma LongPart(before: seq<string>, lines: seq<string>, last: string, maxLineBytes: nat)
    requires ByteLength(last) > maxLineBytes || !WithinLimit(lines, maxLineBytes)
    ensures !WithinLimit(before + lines + [last], maxLineBytes)
  {
    var parts := before + lines + [last];
    if ByteLength(last) > maxLineBytes {
      assert parts[|before| + |lines|] == last;
    } else {
      var i :| 0 <= i < |lines| && ByteLength(lines[i]) > maxLineBytes;
      assert parts[|before| + i] == lines[i];
    }
  }

  predicate WithinLimit(lines: seq<string>, maxLineBytes: nat) {
    forall i :: 0 <= i < |lines| ==> ByteLength(lines[i]) <= maxLineBytes
  }

  /** The usage figures a consumer sees: those of the last chunk that had any. */
  function LastUsage<C, U>(chunks: seq<C>, usageOf: C -> Option<U>, initial: U): U {
    if chunks == [] then initial
    else match usageOf(chunks[|chunks| - 1])
      case Some(u) => u
      case None => LastUsage(chunks[..|chunks| - 1], usageOf, initial)
  }

  /** Later lines only add chunks, and none after the end marker. */
  lemma {:induction false} EmittedGrows<C>(a: seq<string>, b: seq<string>, handle: string -> Option<C>)
    ensures Emitted(a, handle) <= Emitted(a + b, handle)
    ensures HasDone(a) ==> HasDone(a + b) && Emitted(a + b, handle) == Emitted(a, handle)
  {
    if b == [] {
      assert a + b == a;
    } else {
      var init := b[..|b| - 1];
      EmittedGrows(a, init, handle);
      assert (a + b)[..|a + b| - 1] == a + init;
      if HasDone(a) {
        var i :| 0 <= i < |a| && IsDone(a[i]);
        assert IsDone((a + b)[i]) && IsDone((a + init)[i]);
      }
    }
  }

  lemma EmittedSnoc<C>(lines: seq<string>, line: string, handle: string -> Option<C>)
    requires !HasDone(lines)
    ensures Emitted(lines + [line], handle) == Emitted(lines, handle) + ChunkOf(line, handle)
    ensures HasDone(lines + [line]) <==> IsDone(line)
  {
    assert (lines + [line])[..|lines|] == lines;
    assert (lines + [line])[|lines|] == line;
    assert forall i :: 0 <= i < |lines| ==> (lines + [line])[i] == lines[i];
  }

  // ---- The reader ------------------------------------------------------------------------

  datatype Status = Reading | Finished | TooLong

  class Reader<C, U> {
    const maxLineBytes: nat
    const handle: string -> Option<C>
    const usageOf: C -> Option<U>
    const noUsage: U
    var buffer: string
    var yielded: seq<C>
    var usage: U
    var status: Status
    ghost var seen: string   // all text read so far

    ghost predicate Valid()
      reads this
    {
      var lines := Ended(seen, '\n');
      && usage == LastUsage(yielded, usageOf, noUsage)
      && (status.Reading? ==>
        && buffer == Residue(seen, '\n')
        && ByteLength(buffer) <= maxLineBytes
        && !HasDone(lines)
        && yielded == Emitted(lines, handle))
      && (status.Finished? ==> HasDone(lines) && yielded == Emitted(lines, handle))
      && (status.TooLong? ==>
        && !WithinLimit(Split(seen, '\n'), maxLineBytes)
        && yielded <= Emitted(lines, handle))
    }

    constructor (maxLineBytes: nat, handle: string -> Option<C>, usageOf: C -> Option<U>, noUsage: U)
      ensures Valid() && status.Reading? && seen == [] && yielded == []
      ensures this.maxLineBytes == maxLineBytes && this.handle == handle
      ensures this.usageOf == usageOf && this.noUsage == noUsage
    {
      this.maxLineBytes := maxLineBytes;
      this.handle := handle;
      this.usageOf := usageOf;
      this.noUsage := noUsage;
      buffer, yielded, usage, status, seen := "", [], noUsage, Reading, "";
    }

    /** Yields one chunk and records its usage figures. */
    method Yield(chunk: C)
      requires usage == LastUsage(yielded, usageOf, noUsage)
      modifies this`yielded, this`usage
      ensures yielded == old(yielded) + [chunk]
      ensures usage == LastUsage(yielded, usageOf, noUsage)
    {
      yielded := yielded + [chunk];
      match usageOf(chunk) {
        case Some(u) => usage := u;
        case None =>
      }
      assert yielded[..|yielded| - 1] == old(yielded);
    }

    /** Handles one complete line; `before` are the complete lines handled earlier. */
    method HandleLine(line: string, ghost before: seq<string>)
      requires status.Reading? && usage == LastUsage(yielded, usageOf, noUsage)
      requires !HasDone(before) && yielded == Emitted(before, handle)
      modifies this`yielded, this`usage, this`status
      ensures usage == LastUsage(yielded, usageOf, noUsage)
      ensures old(yielded) <= yielded
      ensures status.TooLong? ==> ByteLength(line) > maxLineBytes && yielded == Emitted(before, handle)
      ensures !status.TooLong? ==> ByteLength(line) <= maxLineBytes && yielded == Emitted(before + [line], handle)
      ensures status.Finished? <==> ByteLength(line) <= maxLineBytes && HasDone(before + [line])
    {
      EmittedSnoc(before, line, handle);
      if ByteLength(line) > maxLineBytes {
        status := TooLong;
        return;
      }
      var payload := Payload(line);
      if payload.None? {
        return;
      }
      if payload.value == DONE {
        status := Finished;
        return;
      }
      var parsed := handle(payload.value);
      if parsed.Some? {
        Yield(parsed.value);
      }
    }

    /** The complete lines of one read, in order, until one of them ends the stream. */
    method HandleLines(lines: seq<string>, ghost before: seq<string>)
      requires status.Reading? && usage == LastUsage(yielded, usageOf, noUsage)
      requires !HasDone(before) && yielded == Emitted(before, handle)
      modifies this`yielded, this`usage, this`status
      ensures usage == LastUsage(yielded, usageOf, noUsage)
      ensures old(yielded) <= yielded
      ensures status.TooLong? ==> !WithinLimit(lines, maxLineBytes) && yielded <= Emitted(before + lines, handle)
      ensures !status.TooLong? ==> yielded == Emitted(before + lines, handle)
      ensures !status.TooLong? ==> (status.Finished? <==> HasDone(before + lines))
    {
      assert before + lines[..0] == before;
      for i := 0 to |lines|
        invariant status.Reading? && usage == LastUsage(yielded, usageOf, noUsage)
        invariant old(yielded) <= yielded
        invariant !HasDone(before + lines[..i]) && yielded == Emitted(before + lines[..i], handle)
      {
        HandleLine(lines[i], before + lines[..i]);
        StopAt(before, lines, i, handle);
        if !status.Reading? {
          return;
        }
      }
      assert before + lines[..|lines|] == before + lines;
    }

    /** One read: everything between two awaits of the reader. */
    method Feed(text: string)
      requires Valid() && status.Reading?
      modifies this
      ensures Valid()
      ensures seen == old(seen) + text
      ensures old(yielded) <= yielded
    {
      ghost var before := Ended(seen, '\n');
      SplitIsIncremental(seen, text, '\n');
      seen := seen + text;
      buffer := buffer + text;
      var lines := Ended(buffer, '\n');
      buffer := Residue(buffer, '\n');
      ghost var parts := Split(seen, '\n');
      assert parts == before + lines + [buffer];
      if ByteLength(buffer) > maxLineBytes {
        EmittedGrows(before, lines, handle);
        status := TooLong;
      } else {
        HandleLines(lines, before);
      }
      if status.TooLong? {
        LongPart(before, lines, buffer, maxLineBytes);
      }
    }
  }

  /**
   A whole stream, cut into reads in any way. Lines after the end marker are not
   part of the answer; the trailing unterminated line is never handled. Only a
   line over the limit, complete or trailing, makes the reader give up.
   */
  method ReadStream<C, U>(pieces: seq<string>, maxLineBytes: nat, handle: string -> Option<C>,
                          usageOf: C -> Option<U>, noUsage: U)
    returns (chunks: seq<C>, usage: U, status: Status)
    ensures chunks <= Emitted(Ended(Concat(pieces), '\n'), handle)
    ensures usage == LastUsage(chunks, usageOf, noUsage)
    ensures status.TooLong? ==> !WithinLimit(Split(Concat(pieces), '\n'), maxLineBytes)
    ensures !status.TooLong? ==> chunks == Emitted(Ended(Concat(pieces), '\n'), handle)
    ensures !status.TooLong? ==> (status.Finished? <==> HasDone(Ended(Concat(pieces), '\n')))
  {
    hide Ended, Residue, Emitted, HasDone, WithinLimit, LastUsage;
    var reader := new Reader(maxLineBytes, handle, usageOf, noUsage);
    var i := 0;
    while i < |pieces| && reader.status.Reading?
      invariant 0 <= i <= |pieces|
      invariant reader.Valid() && fresh(reader)
      invariant reader.maxLineBytes == maxLineBytes && reader.handle == handle
      invariant reader.usageOf == usageOf && reader.noUsage == noUsage
      invariant reader.seen == Concat(pieces[..i])
    {
      ConcatSnoc(pieces[..i], pieces[i]);
      assert pieces[..i] + [pieces[i]] == pieces[..i + 1];
      reader.Feed(pieces[i]);
      i := i + 1;
    }
    assert pieces == pieces[..i] + pieces[i..];
    ConcatAppends(pieces[..i], pieces[i..]);
    LaterText(reader.seen, Concat(pieces[i..]), maxLineBytes, handle);
    if reader.status.Reading? {
      assert pieces[..i] == pieces;
    }
    chunks, usage, status := reader.yielded, reader.usage, reader.status;
  }

  /** More text keeps an over-long line over-long and adds nothing after the end marker. */
  lemma LaterText<C>(seen: string, more: string, maxLineBytes: nat, handle: string -> Option<C>)
    ensures !WithinLimit(Split(seen, '\n'), maxLineBytes) ==> !WithinLimit(Split(seen + more, '\n'), maxLineBytes)
    ensures Emitted(Ended(seen, '\n'), handle) <= Emitted(Ended(seen + more, '\n'), handle)
    ensures HasDone(Ended(seen, '\n')) ==> HasDone(Ended(seen + more, '\n'))
    ensures HasDone(Ended(seen, '\n')) ==> Emitted(Ended(seen, '\n'), handle) == Emitted(Ended(seen + more, '\n'), handle)
  {
    SplitIsIncremental(seen, more, '\n');
    var left := Residue(seen, '\n');
    EmittedGrows(Ended(seen, '\n'), Ended(left + more, '\n'), handle);
    if !WithinLimit(Split(seen, '\n'), maxLineBytes) {
      LongLineStays(seen, more, maxLineBytes);
    }
  }

  lemma LongLineStays(seen: string, more: string, maxLineBytes: nat)
    requires !WithinLimit(Split(seen, '\n'), maxLineBytes)
    ensures !WithinLimit(Split(seen + more, '\n'), maxLineBytes)
  {
    hide Ended, Residue;
    var left := Residue(seen, '\n');
    var before, rest := Ended(seen, '\n'), Split(left + more, '\n');
    SplitIsIncremental(seen, more, '\n');
    var all := Split(seen + more, '\n');
    assert all == before + rest;
    var i :| 0 <= i < |Split(seen, '\n')| && ByteLength(Split(seen, '\n')[i]) > maxLineBytes;
    if i < |before| {
      assert all[i] == before[i];
    } else {
      ResidueIsPlain(seen, '\n');
      FirstPartGrows(left, more, '\n');
      assert rest[0] == left + rest[0][|left|..];
      ByteLengthAppends(left, rest[0][|left|..]);
      assert all[|before|] == rest[0];
    }
  }

  /**
   The promise for well-behaved providers: with no line over the limit, the way
   the stream was cut does not matter.
   */
  method ReadTwoCuttings<C, U>(a: seq<string>, b: seq<string>, maxLineBytes: nat, handle: string -> Option<C>,
                               usageOf: C -> Option<U>, noUsage: U)
    returns (first: seq<C>, second: seq<C>)
    requires Concat(a) == Concat(b)
    requires WithinLimit(Split(Concat(a), '\n'), maxLineBytes)
    ensures first == second == Emitted(Ended(Concat(a), '\n'), handle)
  {
    var u1, s1, u2, s2;
    first, u1, s1 := ReadStream(a, maxLineBytes, handle, usageOf, noUsage);
    second, u2, s2 := ReadStream(b, maxLineBytes, handle, usageOf, noUsage);
  }
}
