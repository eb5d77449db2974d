/** Reassembly of a reply that arrives as chunk frames in any order after the first. */
module ChunkAssembly {
  import opened Bytes
  import opened Frames
  import opened RequestUpload

  const META_BYTES: nat := 16

  datatype Chunk = Chunk(totalSize: nat, totalChunks: nat, index: nat, data: seq<byte>)

  function DecodeMeta(payload: seq<byte>): Option<Chunk> {
    if |payload| < META_BYTES || FromLE(payload[0..8]) > MAX_SAFE_INTEGER then None
    else Some(Chunk(FromLE(payload[0..8]), FromLE(payload[8..12]), FromLE(payload[12..16]), payload[16..]))
  }

  /** A chunk frame of this request: a v2 chunked reply without a shared-memory descriptor. */
  function DecodeChunk(f: Frame, requestId: nat): Option<Chunk> {
    if f.requestId != requestId then None
    else if !f.Has(FLAG_RESPONSE) || !f.Has(FLAG_REPLY_V2) || !f.Has(FLAG_CHUNKED) then None
    else if f.Has(FLAG_BUDDY) then None
    else DecodeMeta(f.payload)
  }

  /** A lone chunk is as long as the reply; otherwise the first chunk fixes the size of all but the last. */
  function SizeOfChunks(first: Chunk): nat {
    if first.totalChunks == 1 then first.totalSize else |first.data|
  }

  function SizeOfLast(first: Chunk): int {
    if first.totalChunks > 1 then first.totalSize - (first.totalChunks - 1) * SizeOfChunks(first) else first.totalSize
  }

  /** The announced layout can hold the announced size. */
  predicate Opens(first: Chunk) {
    && first.index == 0
    && 0 < first.totalSize <= MAX_PAYLOAD
    && 0 < first.totalChunks <= first.totalSize
    && SizeOfChunks(first) > 0
    && (first.totalChunks > 1 ==> SizeOfChunks(first) <= (first.totalSize - 1) / (first.totalChunks - 1))
  }

  /** Chunk `c`, carried by a frame that says `last`, belongs to the reply `first` opened. */
  predicate Fits(first: Chunk, c: Chunk, last: bool) {
    && c.totalSize == first.totalSize && c.totalChunks == first.totalChunks
    && c.index < first.totalChunks
    && (last <==> c.index == first.totalChunks - 1)
    && if last then 0 < |c.data| <= SizeOfChunks(first) && |c.data| == SizeOfLast(first)
       else |c.data| == SizeOfChunks(first)
  }

  ghost predicate FitsFrame(first: Chunk, f: Frame, requestId: nat) {
    DecodeChunk(f, requestId).Some? && Fits(first, DecodeChunk(f, requestId).value, f.Has(FLAG_CHUNK_LAST))
  }

  /** The indexes received so far, with their data. */
  ghost function Parts(frames: seq<Frame>, requestId: nat): map<nat, seq<byte>> {
    if frames == [] then map[] else
      var c, before := DecodeChunk(frames[|frames| - 1], requestId), Parts(frames[..|frames| - 1], requestId);
      if c.None? then before else before[c.value.index := c.value.data]
  }

  /** `frames` are chunks of one reply: chunk 0 opens it, and each further one fits and is new. */
  ghost predicate Accepted(frames: seq<Frame>, requestId: nat)
    decreases |frames|
  {
    && frames != []
    && DecodeChunk(frames[0], requestId).Some?
    && var first, n := DecodeChunk(frames[0], requestId).value, |frames|;
       && Opens(first)
       && FitsFrame(first, frames[n - 1], requestId)
       && (n > 1 ==> Accepted(frames[..n - 1], requestId))
       && DecodeChunk(frames[n - 1], requestId).value.index !in Parts(frames[..n - 1], requestId)
  }

  ghost function Opening(frames: seq<Frame>, requestId: nat): Chunk
    requires Accepted(frames, requestId)
  {
    DecodeChunk(frames[0], requestId).value
  }

  ghost predicate Complete(frames: seq<Frame>, requestId: nat) {
    Accepted(frames, requestId) && |frames| == Opening(frames, requestId).totalChunks
  }

  function Join(parts: map<nat, seq<byte>>, count: nat): seq<byte> {
    if count == 0 then [] else Join(parts, count - 1) + (if count - 1 in parts then parts[count - 1] else [])
  }

  /** The reply: chunk data concatenated in index order. */
  ghost function Payload(frames: seq<Frame>, requestId: nat): seq<byte>
    requires Accepted(frames, requestId)
  {
    Join(Parts(frames, requestId), Opening(frames, requestId).totalChunks)
  }

  // ----- which indexes are present

  lemma {:induction false} PartsKeys(frames: seq<Frame>, requestId: nat, k: nat)
    ensures k in Parts(frames, requestId) <==>
            exists i :: 0 <= i < |frames| && HasIndex(frames[i], requestId, k)
  {
    if frames != [] {
      var n := |frames|;
      PartsKeys(frames[..n - 1], requestId, k);
      assert forall i :: 0 <= i < n - 1 ==> frames[..n - 1][i] == frames[i];
      if i :| 0 <= i < n && HasIndex(frames[i], requestId, k) {
        if i < n - 1 { assert HasIndex(frames[..n - 1][i], requestId, k); }
      }
    }
  }

  ghost predicate HasIndex(f: Frame, requestId: nat, k: nat) {
    DecodeChunk(f, requestId).Some? && DecodeChunk(f, requestId).value.index == k
  }

  /** In an accepted sequence every frame fits what chunk 0 announced. */
  lemma {:induction false} AcceptedFits(frames: seq<Frame>, requestId: nat, i: nat)
    requires Accepted(frames, requestId) && i < |frames|
    ensures FitsFrame(Opening(frames, requestId), frames[i], requestId)
    decreases |frames|
  {
    if i < |frames| - 1 {
      var before := frames[..|frames| - 1];
      AcceptedFits(before, requestId, i);
      assert before[0] == frames[0] && before[i] == frames[i];
    }
  }

  /** No two frames of an accepted sequence carry the same index. */
  lemma {:induction false} AcceptedDistinct(frames: seq<Frame>, requestId: nat, i: nat, j: nat)
    requires Accepted(frames, requestId) && i < j < |frames|
    requires DecodeChunk(frames[i], requestId).Some? && DecodeChunk(frames[j], requestId).Some?
    ensures DecodeChunk(frames[i], requestId).value.index != DecodeChunk(frames[j], requestId).value.index
    decreases |frames|
  {
    var before := frames[..|frames| - 1];
    assert before[i] == frames[i];
    if j < |frames| - 1 {
      assert before[j] == frames[j];
      AcceptedDistinct(before, requestId, i, j);
    } else {
      var k := DecodeChunk(frames[i], requestId).value.index;
      PartsKeys(before, requestId, k);
      assert HasIndex(before[i], requestId, k);
    }
  }

  lemma {:induction false} PartsCount(frames: seq<Frame>, requestId: nat)
    requires Accepted(frames, requestId)
    ensures |Parts(frames, requestId)| == |frames|
    ensures forall k :: k in Parts(frames, requestId) ==> k < Opening(frames, requestId).totalChunks
    decreases |frames|
  {
    var n := |frames|;
    var before, c := frames[..n - 1], DecodeChunk(frames[n - 1], requestId).value;
    if n > 1 {
      PartsCount(before, requestId);
    } else {
      assert Parts(before, requestId) == map[];
    }
    assert Parts(frames, requestId).Keys == Parts(before, requestId).Keys + {c.index};
  }

  /** A set of `n` numbers below `n` has all of them. */
  lemma {:induction false} FullSet(s: set<nat>, n: nat, k: nat)
    requires |s| == n && (forall x :: x in s ==> x < n) && k < n
    ensures k in s
  {
    SetBound(s - {k}, n, k);
  }

  lemma {:induction false} SetBound(s: set<nat>, n: nat, k: nat)
    requires (forall x :: x in s ==> x < n && x != k) && k < n
    ensures |s| < n
    decreases n
  {
    if n > 1 {
      var top := n - 1;
      if top == k {
        if s != {} {
          var x :| x in s;
          SetBound(s - {x}, n - 1, x);
        }
      } else {
        SetBound(s - {top}, n - 1, k);
      }
    } else {
      assert s == {};
    }
  }

  /** A complete reply holds every index once. */
  lemma CompleteHasAll(frames: seq<Frame>, requestId: nat, k: nat)
    requires Complete(frames, requestId) && k < |frames|
    ensures k in Parts(frames, requestId)
  {
    PartsCount(frames, requestId);
    FullSet(Parts(frames, requestId).Keys, |frames|, k);
  }

  /** Distinct indexes below the total: never more frames than chunks. */
  lemma AtMostTotal(fed: seq<Frame>, id: nat)
    requires Accepted(fed, id)
    ensures |fed| <= Opening(fed, id).totalChunks
  {
    PartsCount(fed, id);
    BoundedSet(Parts(fed, id).Keys, Opening(fed, id).totalChunks);
  }

  lemma {:induction false} BoundedSet(s: set<nat>, n: nat)
    requires forall x :: x in s ==> x < n
    ensures |s| <= n
    decreases n
  {
    if n == 0 {
      assert s == {};
    } else {
      BoundedSet(s - {n - 1}, n - 1);
    }
  }

  // ----- sizes

  lemma OpensLayout(first: Chunk)
    requires Opens(first)
    ensures (first.totalChunks - 1) * SizeOfChunks(first) < first.totalSize
    ensures SizeOfLast(first) == first.totalSize - (first.totalChunks - 1) * SizeOfChunks(first)
  {
    var n, size, total := first.totalChunks, SizeOfChunks(first), first.totalSize;
    if n > 1 {
      var q := (total - 1) / (n - 1);
      assert q * (n - 1) <= total - 1;
      Scale(size, q, n - 1);
      assert size * (n - 1) == (n - 1) * size;
    }
  }

  /** Where chunk `k` ends. */
  ghost function EndOf(first: Chunk, k: nat): int {
    if k == first.totalChunks - 1 then first.totalSize else k * SizeOfChunks(first) + SizeOfChunks(first)
  }

  /** Chunk `k` occupies `[k * size, EndOf(k))`, inside the reply and before chunk `j > k`. */
  lemma ChunkSpan(first: Chunk, k: nat, j: nat)
    requires Opens(first) && k < first.totalChunks
    ensures 0 <= k * SizeOfChunks(first) <= EndOf(first, k) <= first.totalSize
    ensures k < j < first.totalChunks ==> EndOf(first, k) <= j * SizeOfChunks(first)
  {
    var n, size := first.totalChunks, SizeOfChunks(first);
    OpensLayout(first);
    Scale(k, n - 1, size);
    if k < n - 1 {
      Scale(k + 1, n - 1, size);
      assert (k + 1) * size == k * size + size;
    }
    if k < j { Scale(k + 1, j, size); }
  }

  lemma FitsSize(first: Chunk, c: Chunk, last: bool)
    requires Opens(first) && Fits(first, c, last)
    ensures c.index * SizeOfChunks(first) + |c.data| == EndOf(first, c.index)
  {
    OpensLayout(first);
  }

  /** `buffer` holds every received chunk at its place. */
  ghost predicate Holds(buffer: seq<byte>, first: Chunk, parts: map<nat, seq<byte>>)
    requires Opens(first)
  {
    && |buffer| == first.totalSize
    && forall k :: k in parts ==> Placed(buffer, first, parts[k], k)
  }

  ghost predicate Placed(buffer: seq<byte>, first: Chunk, data: seq<byte>, k: nat) {
    && k < first.totalChunks
    && 0 <= k * SizeOfChunks(first) <= EndOf(first, k) <= |buffer|
    && buffer[k * SizeOfChunks(first)..EndOf(first, k)] == data
  }

  /** A buffer that holds all chunks is their concatenation. */
  lemma {:induction false} HeldIsJoined(buffer: seq<byte>, first: Chunk, parts: map<nat, seq<byte>>, count: nat)
    requires Opens(first) && Holds(buffer, first, parts) && count <= first.totalChunks
    requires forall k :: 0 <= k < count ==> k in parts
    ensures var end := if count == 0 then 0 else EndOf(first, count - 1);
            0 <= end <= |buffer| && Join(parts, count) == buffer[..end]
  {
    if count > 0 {
      var k: nat := count - 1;
      HeldIsJoined(buffer, first, parts, k);
      assert Placed(buffer, first, parts[k], k);
      if k > 0 { EndIsNextStart(first, k - 1); }
      JoinStep(buffer, parts, k, k * SizeOfChunks(first), EndOf(first, k));
    }
  }

  lemma JoinStep(buffer: seq<byte>, parts: map<nat, seq<byte>>, k: nat, a: nat, b: nat)
    requires k in parts && a <= b <= |buffer| && Join(parts, k) == buffer[..a] && parts[k] == buffer[a..b]
    ensures Join(parts, k + 1) == buffer[..b]
  {
    assert buffer[..a] + buffer[a..b] == buffer[..b];
  }

  lemma EndIsNextStart(first: Chunk, k: nat)
    requires k + 1 < first.totalChunks
    ensures EndOf(first, k) == (k + 1) * SizeOfChunks(first)
  {}

  // ----- every byte once

  /** Position `p` belongs to chunk `k`. */
  ghost predicate InSpan(first: Chunk, k: nat, p: int) {
    k * SizeOfChunks(first) <= p < EndOf(first, k)
  }

  /** A position before `n` whole pieces is in the piece its quotient numbers. */
  lemma QuotientPiece(p: nat, size: nat, n: nat)
    requires size > 0 && p < n * size
    ensures p / size < n && p / size * size <= p < p / size * size + size
  {
    assert p == p / size * size + p % size;
    if p / size >= n { Scale(n, p / size, size); }
  }

  lemma HomePiece(p: nat, size: nat, n: nat) returns (k: nat)
    requires size > 0 && n > 0
    ensures k < n && k * size <= p && (k < n - 1 ==> p < k * size + size)
  {
    k := n - 1;
    if p < (n - 1) * size {
      k := p / size;
      QuotientPiece(p, size, n - 1);
    }
  }

  lemma SpansAreDisjoint(first: Chunk, j: nat, k: nat, p: nat)
    requires Opens(first) && j < first.totalChunks && k < first.totalChunks
    requires InSpan(first, j, p) && InSpan(first, k, p)
    ensures j == k
  {
    ChunkSpan(first, j, k);
    ChunkSpan(first, k, j);
  }

  /** Every position of the reply belongs to exactly one chunk. */
  lemma ByteHasChunk(first: Chunk, p: nat) returns (k: nat)
    requires Opens(first) && p < first.totalSize
    ensures k < first.totalChunks && InSpan(first, k, p)
    ensures forall j: nat :: j < first.totalChunks && InSpan(first, j, p) ==> j == k
  {
    k := HomePiece(p, SizeOfChunks(first), first.totalChunks);
    forall j: nat | j < first.totalChunks && InSpan(first, j, p) ensures j == k {
      SpansAreDisjoint(first, j, k, p);
    }
  }

  /** How often each position was written: once if its chunk has been received, and else not at all. */
  ghost predicate Counted(writes: seq<nat>, first: Chunk, received: set<nat>) {
    && |writes| == first.totalSize
    && forall k: nat, p: nat :: k < first.totalChunks && p < |writes| && InSpan(first, k, p) ==>
         writes[p] == if k in received then 1 else 0
  }

  lemma OneMoreCounted(writes: seq<nat>, after: seq<nat>, first: Chunk, received: set<nat>, c: nat)
    requires Opens(first) && Counted(writes, first, received) && c < first.totalChunks && c !in received
    requires |after| == |writes|
    requires forall p :: 0 <= p < |writes| ==> after[p] == writes[p] + if InSpan(first, c, p) then 1 else 0
    ensures Counted(after, first, received + {c})
  {
    forall k: nat, p: nat | k < first.totalChunks && p < |after| && InSpan(first, k, p)
      ensures after[p] == if k in received + {c} then 1 else 0
    {
      assert writes[p] == if k in received then 1 else 0;
      ChunkSpan(first, k, c);
      ChunkSpan(first, c, k);
    }
  }

  lemma AllCounted(writes: seq<nat>, first: Chunk, received: set<nat>)
    requires Opens(first) && Counted(writes, first, received)
    requires forall k :: 0 <= k < first.totalChunks ==> k in received
    ensures forall p :: 0 <= p < |writes| ==> writes[p] == 1
  {
    forall p | 0 <= p < |writes| ensures writes[p] == 1 {
      var k := ByteHasChunk(first, p);
      assert InSpan(first, k, p);
    }
  }

  ghost function CountSpan(writes: seq<nat>, from: nat, to: nat): (r: seq<nat>)
    ensures |r| == |writes|
    ensures forall p :: 0 <= p < |writes| ==> r[p] == writes[p] + if from <= p < to then 1 else 0
  {
    seq(|writes|, p requires 0 <= p < |writes| => writes[p] + if from <= p < to then 1 else 0)
  }

  // ----- the assembler

  /** The state of one reassembly: the reply buffer, the indexes seen, and the highest byte written. */
  class Assembler {
    const requestId: nat
    const first: Chunk
    const assembled: array<byte>
    var received: set<nat>
    var writtenEnd: int
    ghost var fed: seq<Frame>
    ghost var writes: seq<nat>

    ghost predicate Valid()
      reads this, assembled
    {
      && Opens(first)
      && (fed != [] ==> Accepted(fed, requestId) && Opening(fed, requestId) == first)
      && Stored(Parts(fed, requestId), |fed|)
      && Counted(writes, first, received)
    }

    /** The buffer, the index set and the written end reflect `count` chunks. */
    ghost predicate Stored(parts: map<nat, seq<byte>>, count: nat)
      requires Opens(first)
      reads this, assembled
    {
      && received == parts.Keys && |received| == count
      && Holds(assembled[..], first, parts)
      && 0 <= writtenEnd <= first.totalSize
      && (first.totalChunks - 1 in received ==> writtenEnd == first.totalSize)
    }

    constructor (id: nat, opening: Chunk)
      requires Opens(opening)
      ensures Valid() && fresh(assembled) && fed == [] && received == {} && requestId == id && first == opening
    {
      requestId, first := id, opening;
      assembled := new byte[opening.totalSize];
      received, writtenEnd, fed, writes := {}, 0, [], seq(opening.totalSize, _ => 0);
    }

    /** The checks a frame must pass, in order. */
    method Check(f: Frame) returns (r: Option<Chunk>)
      requires Opens(first)
      ensures r.Some? <==> FitsFrame(first, f, requestId) && DecodeChunk(f, requestId).value.index !in received
      ensures r.Some? ==> r == DecodeChunk(f, requestId) && Fits(first, r.value, r.value.index == first.totalChunks - 1)
    {
      var c := DecodeChunk(f, requestId);
      if c.None? { return None; }
      var chunk, size := c.value, SizeOfChunks(first);
      if chunk.totalSize != first.totalSize || chunk.totalChunks != first.totalChunks { return None; }
      if chunk.index >= first.totalChunks { return None; }
      if chunk.index in received { return None; }
      var isLast, saysLast := chunk.index == first.totalChunks - 1, f.Has(FLAG_CHUNK_LAST);
      if isLast != saysLast { return None; }
      if !isLast && |chunk.data| != size { return None; }
      if isLast && |chunk.data| == 0 { return None; }
      if isLast && |chunk.data| > size { return None; }
      if isLast && |chunk.data| != SizeOfLast(first) { return None; }
      FitsSize(first, chunk, isLast);
      ChunkSpan(first, chunk.index, chunk.index);
      if chunk.index * size + |chunk.data| > first.totalSize { return None; }
      return c;
    }

    /** Takes one more frame: accepted exactly when it extends the reply, and then written at its place. */
    method Feed(f: Frame) returns (ok: bool)
      requires Valid() && (fed == [] ==> DecodeChunk(f, requestId) == Some(first))
      modifies this, assembled
      ensures Valid()
      ensures ok <==> Accepted(old(fed) + [f], requestId)
      ensures fed == if ok then old(fed) + [f] else old(fed)
    {
      ExtendAccepted(fed, f, requestId, first);
      var checked := Check(f);
      if checked.None? { return false; }
      FitsSize(first, checked.value, checked.value.index == first.totalChunks - 1);
      ChunkSpan(first, checked.value.index, checked.value.index);
      Store(checked.value, Parts(fed, requestId), |fed|);
      fed := fed + [f];
      ok := true;
    }

    /** Writes a new chunk and records it. */
    method Store(c: Chunk, ghost parts: map<nat, seq<byte>>, ghost count: nat)
      requires Opens(first) && Stored(parts, count) && Counted(writes, first, received)
      requires c.index < first.totalChunks && c.index !in received
      requires c.index * SizeOfChunks(first) + |c.data| == EndOf(first, c.index) <= first.totalSize
      modifies this`received, this`writtenEnd, this`writes, assembled
      ensures Stored(parts[c.index := c.data], count + 1) && Counted(writes, first, received)
    {
      var end := Place(c, parts);
      writtenEnd := if end > writtenEnd then end else writtenEnd;
      OneMoreRecorded(received, parts, c.index, c.data);
      received := received + {c.index};
      assert Counted(writes, first, received);
    }

    /** Writes a new chunk and counts its bytes; returns where it ends. */
    method Place(c: Chunk, ghost parts: map<nat, seq<byte>>) returns (end: nat)
      requires Opens(first) && Holds(assembled[..], first, parts) && Counted(writes, first, received)
      requires c.index < first.totalChunks && c.index !in received && c.index !in parts
      requires c.index * SizeOfChunks(first) + |c.data| == EndOf(first, c.index) <= first.totalSize
      modifies assembled, this`writes
      ensures Holds(assembled[..], first, parts[c.index := c.data])
      ensures Counted(writes, first, received + {c.index})
      ensures end == EndOf(first, c.index)
    {
      ghost var before := writes;
      WriteChunk(c, parts);
      OneMoreCounted(before, writes, first, received, c.index);
      end := c.index * SizeOfChunks(first) + |c.data|;
    }

    /** Copies the data to its place, each byte of it once, and touches no other; chunks already there keep theirs. */
    method WriteChunk(c: Chunk, ghost parts: map<nat, seq<byte>>)
      requires Opens(first) && Holds(assembled[..], first, parts) && |writes| == first.totalSize
      requires c.index < first.totalChunks && c.index !in parts
      requires c.index * SizeOfChunks(first) + |c.data| == EndOf(first, c.index) <= first.totalSize
      modifies assembled, this`writes
      ensures Holds(assembled[..], first, parts[c.index := c.data])
      ensures forall p :: 0 <= p < assembled.Length && !InSpan(first, c.index, p) ==> assembled[p] == old(assembled[p])
      ensures |writes| == |old(writes)|
      ensures forall p :: 0 <= p < |writes| ==> writes[p] == old(writes)[p] + if InSpan(first, c.index, p) then 1 else 0
    {
      var offset := c.index * SizeOfChunks(first);
      ghost var before := assembled[..];
      ChunkSpan(first, c.index, c.index);
      forall k | 0 <= k < |c.data| { assembled[offset + k] := c.data[k]; }
      writes := CountSpan(writes, offset, offset + |c.data|);
      ghost var after := assembled[..];
      assert Placed(after, first, c.data, c.index);
      forall k | k in parts ensures Placed(after, first, parts[k], k) {
        assert Placed(before, first, parts[k], k);
        ChunkSpan(first, k, c.index);
        ChunkSpan(first, c.index, k);
        Undisturbed(before, after, offset, offset + |c.data|, k * SizeOfChunks(first), EndOf(first, k));
      }
    }

    /** Once every index has arrived the buffer is the reply, and every byte of it has been written exactly once. */
    method Result() returns (payload: seq<byte>)
      requires Valid() && fed != [] && |received| >= first.totalChunks
      ensures Complete(fed, requestId) && payload == Payload(fed, requestId)
      ensures |payload| == first.totalSize == writtenEnd
      ensures |writes| == |payload| && forall p :: 0 <= p < |writes| ==> writes[p] == 1
    {
      var n := first.totalChunks;
      AtMostTotal(fed, requestId);
      assert Complete(fed, requestId);
      forall k | 0 <= k < n ensures k in Parts(fed, requestId) { CompleteHasAll(fed, requestId, k); }
      HeldIsJoined(assembled[..], first, Parts(fed, requestId), n);
      AllCounted(writes, first, received);
      payload := assembled[..];
      assert payload[..|payload|] == payload;
    }
  }

  lemma OneMoreRecorded(received: set<nat>, parts: map<nat, seq<byte>>, k: nat, data: seq<byte>)
    requires received == parts.Keys && k !in received
    ensures received + {k} == parts[k := data].Keys && |received + {k}| == |received| + 1
  {}

  lemma Undisturbed(before: seq<byte>, after: seq<byte>, lo: int, hi: int, a: int, b: int)
    requires |before| == |after| && 0 <= a <= b <= |before| && (b <= lo || hi <= a)
    requires forall i :: 0 <= i < |before| && !(lo <= i < hi) ==> after[i] == before[i]
    ensures after[a..b] == before[a..b]
  {}

  /** `fed` was opened by `first`, or `f` itself opens the reply. */
  ghost predicate Underway(fed: seq<Frame>, f: Frame, requestId: nat, first: Chunk) {
    && Opens(first)
    && if fed == [] then DecodeChunk(f, requestId) == Some(first)
       else Accepted(fed, requestId) && Opening(fed, requestId) == first
  }

  /** What it takes to extend an accepted sequence by one frame. */
  lemma ExtendAccepted(fed: seq<Frame>, f: Frame, requestId: nat, first: Chunk)
    requires Underway(fed, f, requestId, first)
    ensures Accepted(fed + [f], requestId) <==>
            && FitsFrame(first, f, requestId)
            && DecodeChunk(f, requestId).value.index !in Parts(fed, requestId)
    ensures Accepted(fed + [f], requestId) ==> Opening(fed + [f], requestId) == first
    ensures FitsFrame(first, f, requestId) ==>
              Parts(fed + [f], requestId)
              == Parts(fed, requestId)[DecodeChunk(f, requestId).value.index := DecodeChunk(f, requestId).value.data]
  {
    var all := fed + [f];
    assert all[..|fed|] == fed && all[|fed|] == f;
    assert all[0] == if fed == [] then f else fed[0];
  }

  // ----- every regular layout, in any order, is accepted

  /** Chunk `index` of a reply cut into `total` chunks of `chunkSize` bytes. */
  function ReplyFrame(requestId: nat, payload: seq<byte>, chunkSize: nat, total: nat, index: nat): Frame
    requires index * chunkSize <= |payload|
  {
    Frame(requestId,
          FLAG_RESPONSE + FLAG_REPLY_V2 + FLAG_CHUNKED + (if index + 1 == total then FLAG_CHUNK_LAST else 0),
          LE(|payload|, 8) + LE(total, 4) + LE(index, 4) + ChunkData(payload, chunkSize, index))
  }

  /** A layout the sender may use: equal chunks and a nonempty last one that is no larger. */
  ghost predicate Regular(payload: seq<byte>, chunkSize: nat, total: nat) {
    0 < |payload| <= MAX_PAYLOAD && Layout(|payload|, chunkSize, total)
  }

  /** `f` carries chunk `index` of the payload. */
  ghost predicate Carries(f: Frame, requestId: nat, payload: seq<byte>, chunkSize: nat, total: nat, index: nat) {
    && index < total && index * chunkSize <= |payload|
    && f == ReplyFrame(requestId, payload, chunkSize, total, index)
  }

  lemma CountBelowSize(payload: seq<byte>, chunkSize: nat, total: nat)
    requires Regular(payload, chunkSize, total)
    ensures 0 < total <= |payload|
  {
    assert total != 0;
    Scale(1, chunkSize, total - 1);
    assert (total - 1) * chunkSize == chunkSize * (total - 1);
  }

  lemma CarriedFlags(f: Frame, requestId: nat, payload: seq<byte>, chunkSize: nat, total: nat, index: nat)
    requires Carries(f, requestId, payload, chunkSize, total, index)
    ensures f.Has(FLAG_RESPONSE) && f.Has(FLAG_REPLY_V2) && f.Has(FLAG_CHUNKED) && !f.Has(FLAG_BUDDY) && !f.Has(FLAG_CTRL)
    ensures f.Has(FLAG_CHUNK_LAST) <==> index == total - 1
  {
    assert f.flags == if index == total - 1 then 0x702 else 0x302;
  }

  lemma MetaPieces(a: seq<byte>, b: seq<byte>, c: seq<byte>, data: seq<byte>)
    requires |a| == 8 && |b| == |c| == 4
    ensures var all := a + b + c + data;
            |all| == 16 + |data| && all[0..8] == a && all[8..12] == b && all[12..16] == c && all[16..] == data
  {}

  lemma {:induction false} CarriedMeta(data: seq<byte>, size: nat, total: nat, index: nat)
    requires size <= MAX_PAYLOAD && total < Range(4) && index < Range(4)
    ensures DecodeMeta(LE(size, 8) + LE(total, 4) + LE(index, 4) + data) == Some(Chunk(size, total, index, data))
  {
    assert size < Range(8) by { Ranges(); }
    ReadBack(size, 8);
    ReadBack(total, 4);
    ReadBack(index, 4);
    MetaPieces(LE(size, 8), LE(total, 4), LE(index, 4), data);
  }

  lemma CarriedChunk(f: Frame, requestId: nat, payload: seq<byte>, chunkSize: nat, total: nat, index: nat)
    requires Regular(payload, chunkSize, total) && Carries(f, requestId, payload, chunkSize, total, index)
    ensures DecodeChunk(f, requestId) == Some(Chunk(|payload|, total, index, ChunkData(payload, chunkSize, index)))
    ensures f.Has(FLAG_CHUNK_LAST) <==> index == total - 1
  {
    CarriedFlags(f, requestId, payload, chunkSize, total, index);
    CountBelowSize(payload, chunkSize, total);
    assert total < Range(4) && index < Range(4) by { Ranges(); }
    CarriedMeta(ChunkData(payload, chunkSize, index), |payload|, total, index);
  }

  lemma RegularOpens(payload: seq<byte>, chunkSize: nat, total: nat)
    requires Regular(payload, chunkSize, total)
    ensures var first := Chunk(|payload|, total, 0, ChunkData(payload, chunkSize, 0));
            && Opens(first)
            && SizeOfChunks(first) == if total == 1 then |payload| else chunkSize
  {
    CountBelowSize(payload, chunkSize, total);
    ChunkDataSize(payload, chunkSize, total, 0);
    if total > 1 { QuotientAtLeast(|payload| - 1, total - 1, chunkSize); }
  }

  lemma QuotientAtLeast(x: nat, d: nat, q: nat)
    requires d > 0 && d * q <= x
    ensures q <= x / d
  {
    assert x == x / d * d + x % d;
    Scale(x / d + 1, q, d);
    assert (x / d + 1) * d == x / d * d + d;
  }

  lemma RegularFits(payload: seq<byte>, chunkSize: nat, total: nat, index: nat)
    requires Regular(payload, chunkSize, total) && index < total
    ensures index * chunkSize <= |payload|
    ensures Fits(Chunk(|payload|, total, 0, ChunkData(payload, chunkSize, 0)),
                 Chunk(|payload|, total, index, ChunkData(payload, chunkSize, index)), index == total - 1)
  {
    RegularOpens(payload, chunkSize, total);
    ChunkDataSize(payload, chunkSize, total, index);
    ChunkBounds(|payload|, chunkSize, total, index);
  }

  /** `order` lists all chunk indexes, chunk 0 first. */
  ghost predicate Ordering(order: seq<nat>, total: nat) {
    && |order| == total && total > 0 && order[0] == 0
    && (forall i :: 0 <= i < total ==> order[i] < total)
    && (forall i, j :: 0 <= i < j < total ==> order[i] != order[j])
  }

  ghost predicate Delivers(
      frames: seq<Frame>, order: seq<nat>, requestId: nat, payload: seq<byte>, chunkSize: nat, total: nat)
  {
    && |frames| == |order|
    && forall i :: 0 <= i < |frames| ==> Carries(frames[i], requestId, payload, chunkSize, total, order[i])
  }

  lemma {:induction false} DeliveredIsAccepted(
      frames: seq<Frame>, order: seq<nat>, requestId: nat, payload: seq<byte>, chunkSize: nat, total: nat)
    requires Regular(payload, chunkSize, total) && |order| > 0 && order[0] == 0
    requires forall i, j :: 0 <= i < j < |order| ==> order[i] != order[j]
    requires Delivers(frames, order, requestId, payload, chunkSize, total)
    ensures Accepted(frames, requestId)
    ensures Opening(frames, requestId) == Chunk(|payload|, total, 0, ChunkData(payload, chunkSize, 0))
    decreases |frames|
  {
    var n := |frames|;
    assert Carries(frames[n - 1], requestId, payload, chunkSize, total, order[n - 1]);
    CarriedChunk(frames[n - 1], requestId, payload, chunkSize, total, order[n - 1]);
    RegularOpens(payload, chunkSize, total);
    RegularFits(payload, chunkSize, total, order[n - 1]);
    if n > 1 {
      DeliveredIsAccepted(frames[..n - 1], order[..n - 1], requestId, payload, chunkSize, total);
    }
    DeliveredIndexes(frames[..n - 1], order[..n - 1], requestId, payload, chunkSize, total, order[n - 1]);
    assert frames[0] == frames[..n][0];
    if n == 1 { assert frames[0] == frames[n - 1]; } else { assert frames[..n - 1][0] == frames[0]; }
  }

  lemma {:induction false} DeliveredIndexes(
      frames: seq<Frame>, order: seq<nat>, requestId: nat, payload: seq<byte>, chunkSize: nat, total: nat, k: nat)
    requires Regular(payload, chunkSize, total) && Delivers(frames, order, requestId, payload, chunkSize, total)
    requires k !in order
    ensures k !in Parts(frames, requestId)
    decreases |frames|
  {
    if frames != [] {
      var n := |frames|;
      assert Carries(frames[n - 1], requestId, payload, chunkSize, total, order[n - 1]);
      CarriedChunk(frames[n - 1], requestId, payload, chunkSize, total, order[n - 1]);
      assert order[n - 1] in order;
      DeliveredIndexes(frames[..n - 1], order[..n - 1], requestId, payload, chunkSize, total, k);
    }
  }

  lemma {:induction false} DeliveredParts(
      frames: seq<Frame>, order: seq<nat>, requestId: nat, payload: seq<byte>, chunkSize: nat, total: nat, k: nat)
    requires Regular(payload, chunkSize, total)
    requires Delivers(frames, order, requestId, payload, chunkSize, total)
    requires k in Parts(frames, requestId)
    ensures k < total && k * chunkSize <= |payload| && Parts(frames, requestId)[k] == ChunkData(payload, chunkSize, k)
  {
    var n := |frames|;
    assert Carries(frames[n - 1], requestId, payload, chunkSize, total, order[n - 1]);
    CarriedChunk(frames[n - 1], requestId, payload, chunkSize, total, order[n - 1]);
    if k != order[n - 1] {
      DeliveredParts(frames[..n - 1], order[..n - 1], requestId, payload, chunkSize, total, k);
    }
  }

  lemma ChunkIsPlaced(payload: seq<byte>, chunkSize: nat, total: nat, k: nat)
    requires Regular(payload, chunkSize, total) && k < total && k * chunkSize <= |payload|
    ensures Placed(payload, Chunk(|payload|, total, 0, ChunkData(payload, chunkSize, 0)), ChunkData(payload, chunkSize, k), k)
  {
    RegularOpens(payload, chunkSize, total);
    ChunkBounds(|payload|, chunkSize, total, k);
  }

  /** Whatever order the chunks after the first arrive in, the reply is accepted and is the payload. */
  lemma AnyOrderReassembles(
      frames: seq<Frame>, order: seq<nat>, requestId: nat, payload: seq<byte>, chunkSize: nat, total: nat)
    requires Regular(payload, chunkSize, total) && Ordering(order, total)
    requires Delivers(frames, order, requestId, payload, chunkSize, total)
    ensures Complete(frames, requestId) && Payload(frames, requestId) == payload
  {
    DeliveredIsAccepted(frames, order, requestId, payload, chunkSize, total);
    var first, parts := Opening(frames, requestId), Parts(frames, requestId);
    forall k | k in parts ensures Placed(payload, first, parts[k], k) {
      DeliveredParts(frames, order, requestId, payload, chunkSize, total, k);
      ChunkIsPlaced(payload, chunkSize, total, k);
    }
    forall k | 0 <= k < total ensures k in parts { CompleteHasAll(frames, requestId, k); }
    HeldIsJoined(payload, first, parts, total);
    assert payload[..|payload|] == payload;
  }
}
