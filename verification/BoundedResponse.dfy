/**
 Reading a response body into one bounded buffer: the small-response buffer of the
 server, whose oversized bodies go on as a stream, and its twin in the gateway, which
 truncates or throws instead.
 */
module BoundedResponse {
  import opened Options
  import Utf8Text

  type Byte = Utf8Text.Byte

  type Bytes = seq<Byte>

  /** What a read of the source yields: a chunk, or a rejection. After the last item it is done. */
  datatype Item = Chunk(bytes: Bytes) | Broken

  /** The bytes of the source. */
  function Data(items: seq<Item>): Bytes {
    if items == [] then []
    else Data(items[..|items| - 1]) + if items[|items| - 1].Chunk? then items[|items| - 1].bytes else []
  }

  lemma {:induction false} DataAppends(a: seq<Item>, b: seq<Item>)
    ensures Data(a + b) == Data(a) + Data(b)
  {
    if b == [] {
      assert a + b == a;
    } else {
      assert (a + b)[..|a + b| - 1] == a + b[..|b| - 1];
      DataAppends(a, b[..|b| - 1]);
    }
  }

  lemma NoData()
    ensures Data([]) == []
  {
  }

  lemma DataFrom(items: seq<Item>, i: nat)
    requires i < |items|
    ensures Data(items[i..]) == (if items[i].Chunk? then items[i].bytes else []) + Data(items[i + 1..])
  {
    assert items[i..] == [items[i]] + items[i + 1..];
    DataAppends([items[i]], items[i + 1..]);
    assert [items[i]][..0] == [];
    assert Data([items[i]]) == if items[i].Chunk? then items[i].bytes else [];
  }

  lemma DataUpTo(items: seq<Item>, i: nat)
    requires i < |items|
    ensures Data(items[..i + 1]) == Data(items[..i]) + if items[i].Chunk? then items[i].bytes else []
  {
    assert items[..i + 1][..i] == items[..i];
  }

  lemma DataSplit(items: seq<Item>, i: nat)
    requires i <= |items|
    ensures Data(items) == Data(items[..i]) + Data(items[i..])
  {
    hide Data;
    assert items == items[..i] + items[i..];
    DataAppends(items[..i], items[i..]);
  }

  function Min(a: int, b: int): int { if a <= b then a else b }

  function Max(a: int, b: int): int { if a >= b then a else b }

  // ---- The growing buffer ------------------------------------------------------------------

  /**
   Never more capacity than the limit. While it is below the limit every growth has at
   least doubled it, so no more has been copied than it holds; only the last growth
   can be cut short by the limit.
   */
  predicate Frugal(capacity: nat, copied: nat, limit: nat) {
    && capacity <= limit
    && (capacity < limit ==> copied <= capacity)
    && (copied == 0 || copied < 2 * limit)
  }

  /** Put `value` behind the first `length` bytes, in a larger buffer if need be. `copied` counts the bytes moved by growing. */
  method Append(prefix: array<Byte>, length: nat, value: Bytes, limit: nat, ghost copied: nat)
    returns (grown: array<Byte>, ghost copied': nat)
    requires length <= prefix.Length && length + |value| <= limit && Frugal(prefix.Length, copied, limit)
    modifies prefix
    ensures grown == prefix || fresh(grown)
    ensures length + |value| <= grown.Length && grown[..length + |value|] == old(prefix[..length]) + value
    ensures Frugal(grown.Length, copied', limit)
  {
    grown, copied' := prefix, copied;
    if length + |value| > prefix.Length {
      var capacity := Min(limit, Max(4096, Max(prefix.Length * 2, length + |value|)));
      grown := new Byte[capacity];
      forall i | 0 <= i < length { grown[i] := prefix[i]; }
      copied' := copied + length;
    }
    forall i | 0 <= i < |value| { grown[length + i] := value[i]; }
  }

  // ---- Filling the prefix --------------------------------------------------------------------

  datatype End = AllRead | Overflowed(value: Bytes) | Disturbed

  /** The signal is aborted once `abortAt` reads have come back, or a read was rejected. */
  predicate Trouble(items: seq<Item>, abortAt: nat, taken: nat) {
    taken >= abortAt || (0 < taken <= |items| && items[taken - 1].Broken?)
  }

  predicate AllChunks(items: seq<Item>) {
    forall i :: 0 <= i < |items| ==> items[i].Chunk?
  }

  /** The read loop: until the source is done, or the next chunk does not fit any more. */
  method ReadPrefix(items: seq<Item>, maxBytes: nat, abortAt: nat)
    returns (end: End, prefix: array<Byte>, length: nat, taken: nat, ghost copied: nat)
    ensures fresh(prefix) && length <= prefix.Length && Frugal(prefix.Length, copied, maxBytes)
    ensures taken <= |items| + 1 && (end.Disturbed? <==> Trouble(items, abortAt, taken))
    ensures end.AllRead? ==> taken == |items| + 1 && AllChunks(items) && prefix[..length] == Data(items)
    ensures end.Overflowed? ==> taken <= |items| && AllChunks(items[..taken]) && prefix[..length] + end.value == Data(items[..taken])
    ensures end.Overflowed? ==> length <= maxBytes < length + |end.value|
  {
    hide Data;
    prefix, length, taken, copied := new Byte[0], 0, 0, 0;
    NoData();
    if abortAt <= 0 { return Disturbed, prefix, length, taken, copied; }
    while true
      invariant fresh(prefix) && length <= prefix.Length && Frugal(prefix.Length, copied, maxBytes)
      invariant taken <= |items| && taken < abortAt && AllChunks(items[..taken])
      invariant prefix[..length] == Data(items[..taken])
      decreases |items| - taken
    {
      taken := taken + 1;
      if Trouble(items, abortAt, taken) { return Disturbed, prefix, length, taken, copied; }
      if taken > |items| {
        assert items[..taken - 1] == items;
        return AllRead, prefix, length, taken, copied;
      }
      DataUpTo(items, taken - 1);
      var value := items[taken - 1].bytes;
      if value == [] { continue; }
      if length + |value| > maxBytes { return Overflowed(value), prefix, length, taken, copied; }
      prefix, copied := Append(prefix, length, value, maxBytes, copied);
      length := length + |value|;
    }
  }

  lemma {:induction false} DataGrows(items: seq<Item>, i: nat)
    requires i <= |items|
    ensures |Data(items[..i])| <= |Data(items)| && Data(items)[..|Data(items[..i])|] == Data(items[..i])
  {
    DataSplit(items, i);
  }

  // ---- bufferSmallResponse --------------------------------------------------------------------

  /** What `bufferSmallResponse` comes to, and what its stream yields on a pull. */
  datatype Outcome = Untouched | Whole(body: Bytes) | Streamed | Thrown

  datatype Pulled = Enqueued(bytes: Bytes) | Closed | Errored

  class Bounded {
    const maxBytes: nat
    /** The source, and how often it has been read. */
    const items: seq<Item>
    var taken: nat
    const abortAt: nat

    var prefix: array<Byte>
    var length: nat
    var overflow: Option<Bytes>
    var released: bool
    /** A cancellation of the source is under way; the lock is released when it settles. */
    var cancelling: bool
    /** How often the lock has been released. */
    ghost var releases: nat

    ghost predicate Valid()
      reads this
    {
      && length <= prefix.Length <= maxBytes
      && taken <= |items| + 1
      && releases == if released then 1 else 0
    }

    /** What has been taken from the source and not handed on, followed by what is still there. */
    ghost function Pending(): Bytes
      reads this, prefix
      requires length <= prefix.Length
    {
      prefix[..length] + (if overflow.Some? then overflow.value else []) + Data(if taken <= |items| then items[taken..] else [])
    }

    constructor (items: seq<Item>, maxBytes: nat, abortAt: nat)
      ensures Valid() && fresh(prefix)
      ensures this.items == items && this.maxBytes == maxBytes && this.abortAt == abortAt
      ensures taken == 0 && length == 0 && overflow == None && !released && !cancelling
    {
      this.items, this.maxBytes, this.abortAt := items, maxBytes, abortAt;
      taken, length, overflow, released, cancelling, releases := 0, 0, None, false, false, 0;
      prefix := new Byte[0];
    }

    method Release()
      requires Valid()
      modifies this`released, this`releases
      ensures Valid() && released
    {
      if released { return; }
      released, releases := true, releases + 1;
    }

    /** `abort`: drop what is held and cancel the source. */
    method Abort()
      requires Valid()
      modifies this`prefix, this`length, this`overflow, this`cancelling
      ensures Valid() && length == 0 && overflow == None && cancelling
    {
      prefix, length := new Byte[0], 0;
      overflow, cancelling := None, true;
    }

    /** The cancellation has settled, in either way. */
    method CancelSettles()
      requires Valid() && cancelling
      modifies this`cancelling, this`released, this`releases
      ensures Valid() && released && !cancelling
    {
      cancelling := false;
      Release();
    }

    /** `bufferSmallResponse`. A body whose length is declared as too large is left alone. */
    method BufferSmallResponse(hasBody: bool, declaredLength: Option<nat>) returns (r: Outcome)
      requires Valid() && taken == 0 && length == 0 && overflow == None && !released && !cancelling
      requires !hasBody ==> items == []
      modifies this
      ensures Valid()
      ensures r.Untouched? <==> hasBody && declaredLength.Some? && declaredLength.value > maxBytes
      ensures r.Whole? ==> r.body == Data(items) && |r.body| <= maxBytes && AllChunks(items) && (hasBody ==> released)
      ensures r.Streamed? ==> Pending() == Data(items) && !released && taken <= |items|
      ensures r.Streamed? && AllChunks(items) ==> |Data(items)| > maxBytes
      ensures r.Thrown? <==> hasBody && !r.Untouched? && Trouble(items, abortAt, taken)
      ensures r.Thrown? ==> cancelling
    {
      if !hasBody { return Whole([]); }
      if declaredLength.Some? && declaredLength.value > maxBytes { return Untouched; }
      var end, buffer, filled, count, _ := ReadPrefix(items, maxBytes, abortAt);
      prefix, length, taken := buffer, filled, count;
      match end {
        case Disturbed =>
          Abort();
          r := Thrown;
        case AllRead =>
          r := Whole(prefix[..length]);
          prefix, length := new Byte[0], 0;
          Release();
        case Overflowed(value) =>
          overflow := Some(value);
          DataSplit(items, taken);
          DataGrows(items, taken);
          r := Streamed;
      }
    }

    /** The stream's `pull`: the prefix, then the chunk that did not fit, then the source. */
    method Pull() returns (p: Pulled)
      requires Valid() && taken <= |items|
      modifies this
      ensures Valid()
      ensures p.Enqueued? ==> taken <= |items| && old(Pending()) == p.bytes + Pending() && released == old(released)
      ensures p.Enqueued? ==> Left() < old(Left())
      ensures p.Closed? ==> old(Pending()) == [] && released
      ensures p.Errored? ==> cancelling && (Trouble(items, abortAt, taken) || old(Trouble(items, abortAt, taken)))
      ensures old(taken) >= abortAt ==> p.Errored?
    {
      if taken >= abortAt {
        Abort();
        return Errored;
      }
      if length > 0 {
        p := Enqueued(prefix[..length]);
        prefix, length := new Byte[0], 0;
        return;
      }
      if overflow.Some? {
        p := Enqueued(overflow.value);
        overflow := None;
        return;
      }
      var before := taken;
      taken := taken + 1;
      if Trouble(items, abortAt, taken) {
        Abort();
        return Errored;
      }
      if before == |items| {
        assert items[before..] == [];
        Release();
        return Closed;
      }
      DataFrom(items, before);
      p := Enqueued(items[before].bytes);
    }

    /** How many pulls are left at most. */
    ghost function Left(): nat
      reads this
      requires taken <= |items|
    {
      |items| - taken + (if length > 0 then 1 else 0) + if overflow.Some? then 1 else 0
    }

    /** The stream's `cancel`, up to its await. */
    method Cancel()
      requires Valid()
      modifies this
      ensures Valid() && Pending() == Data(if taken <= |items| then items[taken..] else []) && cancelling
    {
      Abort();
    }

    /** A consumer that reads the returned stream to its end sees exactly the bytes of the source. */
    method Drain() returns (bytes: Bytes, closed: bool)
      requires Valid() && taken <= |items|
      modifies this
      ensures Valid()
      ensures closed ==> bytes == old(Pending()) && released
      ensures !closed ==> bytes <= old(Pending()) && cancelling
      ensures AllChunks(items) && abortAt > |items| + 1 ==> closed
    {
      hide Data;
      bytes := [];
      while true
        invariant Valid() && taken <= |items|
        invariant bytes + Pending() == old(Pending())
        decreases Left()
      {
        ghost var pending := Pending();
        var p := Pull();
        if p.Closed? { return bytes, true; }
        if p.Errored? { return bytes, false; }
        assert bytes + (p.bytes + Pending()) == (bytes + p.bytes) + Pending();
        bytes := bytes + p.bytes;
      }
    }
  }

  /** Buffering and then reading gives the source's bytes, whichever way the body went. */
  method ReadThrough(items: seq<Item>, maxBytes: nat, declaredLength: Option<nat>) returns (bytes: Bytes, present: bool)
    requires AllChunks(items)
    ensures bytes == Data(items)
    ensures present <==> !(declaredLength.Some? && declaredLength.value > maxBytes) && |Data(items)| <= maxBytes
  {
    var bounded := new Bounded(items, maxBytes, |items| + 2);
    var r := bounded.BufferSmallResponse(true, declaredLength);
    match r {
      case Untouched => bytes, present := Data(items), false;
      case Whole(body) => bytes, present := body, true;
      case Streamed =>
        var closed;
        bytes, closed := bounded.Drain();
        present := false;
      case Thrown => assert false;
    }
  }

  // ---- readBoundedText --------------------------------------------------------------------------

  /** The chunk that crosses the limit, cut there, completes the first `limit` bytes. */
  lemma CutAtLimit(items: seq<Item>, taken: nat, limit: nat)
    requires 0 < taken <= |items| && items[taken - 1].Chunk? && |Data(items[..taken - 1])| <= limit
    ensures Data(items[..taken]) == Data(items[..taken - 1]) + items[taken - 1].bytes
    ensures |Data(items[..taken])| > limit ==>
              |Data(items)| > limit
              && Data(items)[..limit] == Data(items[..taken - 1]) + items[taken - 1].bytes[..limit - |Data(items[..taken - 1])|]
  {
    DataUpTo(items, taken - 1);
    DataGrows(items, taken);
  }

  datatype Text = Read(bytes: Bytes) | TooLong | Interrupted

  /** `readBoundedText`, up to the decoding. It never reads on once the limit is reached. */
  method ReadBoundedText(items: seq<Item>, limit: nat, abortAt: nat, truncate: bool)
    returns (r: Text, taken: nat, capacity: nat, ghost copied: nat)
    ensures Frugal(capacity, copied, limit) && taken <= |items| + 1
    ensures r.Interrupted? <==> Trouble(items, abortAt, taken)
    ensures r.Read? ==> r.bytes == Data(items)[..Min(limit, |Data(items)|)]
    ensures r.Read? && !truncate ==> |Data(items)| <= limit && taken == |items| + 1
    ensures r.TooLong? ==> !truncate && |Data(items)| > limit
  {
    hide Data;
    var buffer := new Byte[0];
    var length := 0;
    taken, copied := 0, 0;
    NoData();
    if abortAt <= 0 { return Interrupted, taken, buffer.Length, copied; }
    while true
      invariant fresh(buffer) && length <= buffer.Length && Frugal(buffer.Length, copied, limit)
      invariant taken <= |items| && taken < abortAt && AllChunks(items[..taken])
      invariant buffer[..length] == Data(items[..taken])
      decreases |items| - taken
    {
      taken := taken + 1;
      if Trouble(items, abortAt, taken) { return Interrupted, taken, buffer.Length, copied; }
      if taken > |items| {
        assert items[..taken - 1] == items;
        return Read(buffer[..length]), taken, buffer.Length, copied;
      }
      CutAtLimit(items, taken, limit);
      var value := items[taken - 1].bytes;
      if value == [] { continue; }
      var accepted := Min(|value|, limit - length);
      if accepted < |value| && !truncate { return TooLong, taken, buffer.Length, copied; }
      buffer, copied := Append(buffer, length, value[..accepted], limit, copied);
      length := length + accepted;
      if accepted < |value| {
        return Read(buffer[..length]), taken, buffer.Length, copied;
      }
    }
  }
}
