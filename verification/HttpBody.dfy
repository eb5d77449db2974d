/** Reading an HTTP response body into storage the caller's allocator provides. */
module HttpBody {
  import opened Bytes

  /** One read of the body stream before its end. */
  datatype Read = Chunk(bytes: seq<byte>) | NotBytes | ReadFails

  /** The stream's reader, and whether storing the i-th chunk succeeds. */
  datatype Source = Source(stream: seq<Read>, readerOk: bool, unlockOk: bool, setOk: nat -> bool)

  /** What the caller's allocator does: fail, return no object or a malformed one, or storage of the size asked for. */
  datatype Allocation = AllocatorThrows | NotAnObject | Malformed | WellFormed

  datatype Strategy = RejectUnknown | BufferUnknown

  ghost predicate AllChunks(stream: seq<Read>) {
    forall i :: 0 <= i < |stream| ==> stream[i].Chunk?
  }

  ghost function Concat(stream: seq<Read>): seq<byte> {
    if stream == [] then [] else
      Concat(stream[..|stream| - 1]) + if stream[|stream| - 1].Chunk? then stream[|stream| - 1].bytes else []
  }

  lemma ConcatStep(stream: seq<Read>, i: nat)
    requires i < |stream|
    ensures Concat(stream[..i + 1]) == Concat(stream[..i]) + if stream[i].Chunk? then stream[i].bytes else []
  {
    assert stream[..i + 1][..i] == stream[..i];
  }

  lemma {:induction false} ConcatGrows(stream: seq<Read>, i: nat)
    requires i <= |stream|
    ensures |Concat(stream[..i])| <= |Concat(stream)|
    decreases |stream|
  {
    if i < |stream| {
      ConcatGrows(stream[..|stream| - 1], i);
      assert stream[..|stream| - 1][..i] == stream[..i];
    } else {
      assert stream[..i] == stream;
    }
  }

  /** The stream ends well after exactly `n` bytes, all of which can be stored. */
  ghost predicate Delivers(src: Source, n: nat) {
    && src.readerOk && AllChunks(src.stream) && |Concat(src.stream)| == n
    && forall i :: 0 <= i < |src.stream| ==> src.setOk(i)
  }

  /** The stream ends well within `max` bytes. */
  ghost predicate Ends(src: Source, max: nat) {
    src.readerOk && AllChunks(src.stream) && |Concat(src.stream)| <= max
  }

  /** Storage from the caller's allocator, and how often it was given back. */
  class Storage {
    var view: array<byte>
    var releases: nat

    constructor (byteLength: nat)
      ensures fresh(view) && view.Length == byteLength && releases == 0
    {
      view := new byte[byteLength];
      releases := 0;
    }

    method Release()
      modifies this`releases
      ensures releases == old(releases) + 1
    {
      releases := releases + 1;
    }

    /** Copies `bytes` into the view at `offset`. */
    method Set(bytes: seq<byte>, offset: nat)
      requires offset + |bytes| <= view.Length
      modifies view
      ensures view[..] == old(view[..])[..offset] + bytes + old(view[..])[offset + |bytes|..]
    {
      forall k | 0 <= k < |bytes| {
        view[offset + k] := bytes[k];
      }
    }
  }

  /** The allocator handed something over that has to be given back or passed on. */
  predicate Obtains(allocation: Allocation) {
    allocation.Malformed? || allocation.WellFormed?
  }

  /** Asks the allocator for storage; a malformed answer is given back at once. */
  method Allocate(byteLength: nat, allocation: Allocation) returns (s: Storage?)
    ensures s != null ==> fresh(s) && fresh(s.view) && s.releases == (if allocation.WellFormed? then 0 else 1)
    ensures allocation.WellFormed? ==> s != null && s.view.Length == byteLength
    ensures s != null <==> Obtains(allocation)
  {
    if allocation.AllocatorThrows? || allocation.NotAnObject? { return null; }
    s := new Storage(byteLength);
    if allocation.Malformed? { s.Release(); }
  }

  /** The reading loop: stores each chunk behind the last, never beyond the announced length. */
  method FillStorage(src: Source, s: Storage) returns (whole: bool)
    modifies s.view
    ensures whole <==> Delivers(src, s.view.Length)
    ensures whole ==> s.view[..] == Concat(src.stream)
  {
    var offset := 0;
    if !src.readerOk { return false; }
    for i := 0 to |src.stream|
      invariant offset == |Concat(src.stream[..i])| <= s.view.Length
      invariant s.view[..offset] == Concat(src.stream[..i])
      invariant forall j :: 0 <= j < i ==> src.stream[j].Chunk? && src.setOk(j)
    {
      var chunk := src.stream[i];
      if !chunk.Chunk? { return false; }
      ConcatStep(src.stream, i);
      ConcatGrows(src.stream, i + 1);
      if offset + |chunk.bytes| > s.view.Length { return false; }
      if !src.setOk(i) { return false; }
      s.Set(chunk.bytes, offset);
      offset := offset + |chunk.bytes|;
    }
    assert src.stream[..|src.stream|] == src.stream;
    if offset != s.view.Length { return false; }
    assert s.view[..offset] == s.view[..];
    whole := true;
  }

  /** With an announced length: storage first, then the stream straight into it. */
  method ReadAllocated(src: Source, byteLength: nat, allocation: Allocation) returns (ok: bool, s: Storage?)
    ensures ok <==> allocation.WellFormed? && Delivers(src, byteLength) && src.unlockOk
    ensures s != null <==> Obtains(allocation)
    ensures s != null ==> fresh(s) && fresh(s.view)
    ensures allocation.WellFormed? ==> s.view.Length == byteLength
    ensures allocation.WellFormed? && Delivers(src, byteLength) ==> s.view[..] == Concat(src.stream)
    ensures ok ==> s.releases == 0
    ensures !ok && s != null ==>
              s.releases == if allocation.WellFormed? && Delivers(src, byteLength) then 0 else 1
  {
    s := Allocate(byteLength, allocation);
    if !allocation.WellFormed? { return false, s; }
    var whole := FillStorage(src, s);
    if !whole { s.Release(); }
    ok := whole && src.unlockOk;
  }

  /** The chunks of a stream, kept until its length is known. */
  method CollectChunks(src: Source, maxBytes: nat) returns (ended: bool, chunks: seq<seq<byte>>, byteLength: nat)
    requires maxBytes <= MAX_PAYLOAD
    ensures ended <==> Ends(src, maxBytes)
    ensures ended ==> |chunks| == |src.stream| && byteLength == |Concat(src.stream)|
    ensures ended ==> forall i :: 0 <= i < |chunks| ==> chunks[i] == src.stream[i].bytes
  {
    chunks, byteLength := [], 0;
    if !src.readerOk { return false, chunks, byteLength; }
    for i := 0 to |src.stream|
      invariant |chunks| == i && byteLength == |Concat(src.stream[..i])| <= maxBytes
      invariant forall j :: 0 <= j < i ==> src.stream[j].Chunk? && chunks[j] == src.stream[j].bytes
    {
      var chunk := src.stream[i];
      if !chunk.Chunk? { return false, chunks, byteLength; }
      ConcatStep(src.stream, i);
      ConcatGrows(src.stream, i + 1);
      var next := byteLength + |chunk.bytes|;
      if next > MAX_SAFE_INTEGER { return false, chunks, byteLength; }
      if next > maxBytes { return false, chunks, byteLength; }
      chunks, byteLength := chunks + [chunk.bytes], next;
    }
    assert src.stream[..|src.stream|] == src.stream;
    ended := true;
  }

  method CopyChunks(src: Source, chunks: seq<seq<byte>>, s: Storage) returns (whole: bool)
    requires AllChunks(src.stream) && |chunks| == |src.stream| && s.view.Length == |Concat(src.stream)|
    requires forall i :: 0 <= i < |chunks| ==> chunks[i] == src.stream[i].bytes
    modifies s.view
    ensures whole <==> forall i :: 0 <= i < |src.stream| ==> src.setOk(i)
    ensures whole ==> s.view[..] == Concat(src.stream)
  {
    var offset := 0;
    for i := 0 to |chunks|
      invariant offset == |Concat(src.stream[..i])| && offset <= s.view.Length
      invariant s.view[..offset] == Concat(src.stream[..i])
      invariant forall j :: 0 <= j < i ==> src.setOk(j)
    {
      ConcatStep(src.stream, i);
      ConcatGrows(src.stream, i + 1);
      if !src.setOk(i) { return false; }
      s.Set(chunks[i], offset);
      offset := offset + |chunks[i]|;
    }
    assert src.stream[..|src.stream|] == src.stream;
    assert s.view[..offset] == s.view[..];
    whole := true;
  }

  /** Without an announced length: the whole stream first, then storage of its length. */
  method ReadUnknownLength(src: Source, maxBytes: nat, allocation: Allocation) returns (ok: bool, s: Storage?)
    requires maxBytes <= MAX_PAYLOAD
    ensures ok <==> Ends(src, maxBytes) && src.unlockOk && allocation.WellFormed? && Delivers(src, |Concat(src.stream)|)
    ensures s != null <==> Ends(src, maxBytes) && src.unlockOk && Obtains(allocation)
    ensures s != null ==> fresh(s) && fresh(s.view)
    ensures ok ==> s.releases == 0 && s.view[..] == Concat(src.stream) && s.view.Length <= maxBytes
    ensures !ok && s != null ==> s.releases == 1
  {
    var ended, chunks, byteLength := CollectChunks(src, maxBytes);
    if !ended || !src.unlockOk { return false, null; }
    s := Allocate(byteLength, allocation);
    if !allocation.WellFormed? { return false, s; }
    ok := CopyChunks(src, chunks, s);
    if !ok { s.Release(); }
  }

  /** The response as the reader sees it; an unreadable Content-Length is `Invalid`. */
  datatype Length = Unknown | Invalid | Announced(n: nat)
  datatype Response = Response(length: Length, hasBody: bool, src: Source)

  /** The allocator is asked: always for an announced length, and otherwise once the stream has ended well. */
  ghost predicate Asks(r: Response, strategy: Strategy, maxBytes: nat) {
    match r.length
    case Invalid => false
    case Unknown => strategy.BufferUnknown? && r.hasBody && Ends(r.src, maxBytes) && r.src.unlockOk
    case Announced(n) => n == 0 || (n <= MAX_PAYLOAD && r.hasBody)
  }

  /** The body can be read in full into storage of its length. */
  ghost predicate Arrives(r: Response) {
    r.length == Announced(0) || Delivers(r.src, if r.length.Announced? then r.length.n else |Concat(r.src.stream)|)
  }

  /** The reader's lock is given back after a body that was read. */
  ghost predicate Unlocks(r: Response) {
    r.length == Announced(0) || r.src.unlockOk
  }

  /** What a successful read returns: nothing is read of a body announced as empty. */
  ghost function Body(r: Response): seq<byte> {
    if r.length == Announced(0) then [] else Concat(r.src.stream)
  }

  /**
   * Storage is obtained exactly when the allocator is asked and hands some over. The read succeeds
   * exactly if that storage is well formed, the body arrives and the lock is given back; then the
   * storage holds the body, of the announced length or within the maximum, and is not released.
   * Otherwise obtained storage is released exactly once, unless only the lock failed.
   */
  method ReadSuccessPayload(r: Response, strategy: Strategy, maxBytes: nat, allocation: Allocation)
    returns (ok: bool, s: Storage?)
    requires maxBytes <= MAX_PAYLOAD
    ensures s != null <==> Asks(r, strategy, maxBytes) && Obtains(allocation)
    ensures ok <==> Asks(r, strategy, maxBytes) && allocation.WellFormed? && Arrives(r) && Unlocks(r)
    ensures s != null && allocation.WellFormed? && Arrives(r) ==> s.view[..] == Body(r)
    ensures ok ==> s.releases == 0
    ensures ok ==> match r.length
                   case Unknown => s.view.Length <= maxBytes
                   case Announced(n) => s.view.Length == n <= MAX_PAYLOAD
                   case Invalid => false
    ensures !ok && s != null ==> (s.releases == if allocation.WellFormed? && Arrives(r) && !Unlocks(r) then 0 else 1)
    ensures s != null ==> fresh(s) && fresh(s.view)
  {
    match r.length
    case Invalid => return false, null;
    case Unknown =>
      if strategy.RejectUnknown? || !r.hasBody { return false, null; }
      ok, s := ReadUnknownLength(r.src, maxBytes, allocation);
    case Announced(n) =>
      if n > MAX_PAYLOAD { return false, null; }
      if n == 0 {
        s := Allocate(0, allocation);
        return allocation.WellFormed?, s;
      }
      if !r.hasBody { return false, null; }
      ok, s := ReadAllocated(r.src, n, allocation);
  }

  /**
   * The read within a call that may time out. A timeout fails the call at once and leaves the read
   * to itself, so storage is left with nobody exactly if its body arrives in full although the call
   * has failed by then, or although the lock is not given back.
   */
  method ReadWithTimeout(r: Response, strategy: Strategy, maxBytes: nat, allocation: Allocation, timedOut: bool)
    returns (ok: bool, s: Storage?)
    requires maxBytes <= MAX_PAYLOAD
    ensures s != null <==> Asks(r, strategy, maxBytes) && Obtains(allocation)
    ensures ok <==> !timedOut && Asks(r, strategy, maxBytes) && allocation.WellFormed? && Arrives(r) && Unlocks(r)
    ensures ok ==> s.releases == 0 && s.view[..] == Body(r)
    ensures !ok && s != null ==>
              s.releases == if allocation.WellFormed? && Arrives(r) && (timedOut || !Unlocks(r)) then 0 else 1
  {
    ok, s := ReadSuccessPayload(r, strategy, maxBytes, allocation);
    if timedOut { ok := false; }
  }

  /** The whole stream is one chunk of one byte. */
  lemma OneByte(b: byte)
    ensures Concat([Chunk([b])]) == [b]
  {
    var stream := [Chunk([b])];
    assert stream[..0] == [];
    assert Concat(stream) == Concat(stream[..0]) + [b];
  }

  /** A body read in full whose reader then fails to unlock leaves its storage with nobody: not returned, not released. */
  method LockLeakHappens(b: byte) returns (ok: bool, s: Storage?)
    ensures !ok && s != null && s.view[..] == [b] && s.releases == 0
  {
    OneByte(b);
    var r := Response(Announced(1), true, Source([Chunk([b])], true, false, _ => true));
    ok, s := ReadSuccessPayload(r, RejectUnknown, 0, WellFormed);
  }

  /** A body that arrives in full after its call timed out: nobody has it, and it is not released. */
  method LateBodyIsKept(b: byte) returns (ok: bool, s: Storage?)
    ensures !ok && s != null && s.releases == 0
  {
    OneByte(b);
    var r := Response(Announced(1), true, Source([Chunk([b])], true, true, _ => true));
    ok, s := ReadWithTimeout(r, RejectUnknown, 0, WellFormed, true);
  }

  /** A body of one byte that is announced as empty is not read: the read succeeds with nothing in it. */
  method EmptyAnnouncementHidesBody(b: byte) returns (ok: bool, s: Storage?)
    ensures ok && s != null && s.view[..] == [] != Concat([Chunk([b])])
  {
    OneByte(b);
    var r := Response(Announced(0), true, Source([Chunk([b])], true, true, _ => true));
    ok, s := ReadSuccessPayload(r, RejectUnknown, 0, WellFormed);
  }
}
