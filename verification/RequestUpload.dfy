/** A request too large for one frame goes out as a sequence of chunk frames. */
module RequestUpload {
  import opened Bytes
  import opened Frames

  const CHUNK_HEADER_BYTES: nat := 4

  /** Number of chunks, rounded up. */
  function ChunkCount(length: nat, chunkSize: nat): nat
    requires chunkSize > 0
  {
    (length + chunkSize - 1) / chunkSize
  }

  /** The slice of the payload that chunk `index` carries. */
  function ChunkData(payload: seq<byte>, chunkSize: nat, index: nat): seq<byte>
    requires index * chunkSize <= |payload|
  {
    var start := index * chunkSize;
    payload[start..if start + chunkSize < |payload| then start + chunkSize else |payload|]
  }

  /** Frame number `index` of the upload: chunk header, then call control on the first frame, then data. */
  function ChunkFrame(requestId: nat, control: seq<byte>, payload: seq<byte>, chunkSize: nat, total: nat, index: nat): Frame
    requires index * chunkSize <= |payload|
  {
    Frame(requestId,
          FLAG_CALL_V2 + FLAG_CHUNKED + (if index + 1 == total then FLAG_CHUNK_LAST else 0),
          LE(index, 2) + LE(total, 2) + (if index == 0 then control else []) + ChunkData(payload, chunkSize, index))
  }

  /** The chunk data of a received frame, without header and call control. */
  function Stripped(f: Frame, index: nat, controlLength: nat): seq<byte> {
    var skip := CHUNK_HEADER_BYTES + if index == 0 then controlLength else 0;
    if |f.payload| < skip then [] else f.payload[skip..]
  }

  function JoinStripped(frames: seq<Frame>, controlLength: nat): seq<byte> {
    if frames == [] then []
    else JoinStripped(frames[..|frames| - 1], controlLength)
         + Stripped(frames[|frames| - 1], |frames| - 1, controlLength)
  }

  // ----- layout of the chunks

  /** `total` chunks of `chunkSize` bytes, the last one possibly shorter but not empty, make up `length`. */
  ghost predicate Layout(length: nat, chunkSize: nat, total: nat) {
    && chunkSize > 0
    && if total == 0 then length == 0 else (total - 1) * chunkSize < length <= total * chunkSize
  }

  lemma CountIsLayout(length: nat, chunkSize: nat)
    requires chunkSize > 0
    ensures Layout(length, chunkSize, ChunkCount(length, chunkSize))
  {
    var n, x := ChunkCount(length, chunkSize), length + chunkSize - 1;
    assert x == n * chunkSize + x % chunkSize;
    if n > 0 { assert n * chunkSize == (n - 1) * chunkSize + chunkSize; }
  }

  /** Every chunk starts inside the payload, and only the last one reaches its end. */
  lemma {:induction false} ChunkBounds(length: nat, chunkSize: nat, total: nat, index: nat)
    requires Layout(length, chunkSize, total) && index < total
    ensures index * chunkSize < length
    ensures index + 1 < total ==> index * chunkSize + chunkSize < length
    ensures index + 1 == total ==> length <= index * chunkSize + chunkSize
    ensures (index + 1) * chunkSize == index * chunkSize + chunkSize
  {
    Scale(index, total - 1, chunkSize);
    if index + 1 < total { Scale(index + 1, total - 1, chunkSize); }
  }

  lemma Scale(a: nat, b: nat, c: nat)
    ensures a <= b ==> a * c <= b * c
  {
    if a <= b { assert b * c == a * c + (b - a) * c; }
  }

  /** Chunks are nonempty and bounded; only the last may be shorter. */
  lemma {:induction false} ChunkDataSize(payload: seq<byte>, chunkSize: nat, total: nat, index: nat)
    requires Layout(|payload|, chunkSize, total) && index < total
    ensures index * chunkSize <= |payload|
    ensures var n := |ChunkData(payload, chunkSize, index)|;
            0 < n <= chunkSize && (index + 1 < total ==> n == chunkSize)
  {
    ChunkBounds(|payload|, chunkSize, total, index);
  }

  /** The first frames of an upload of `total` chunks. */
  ghost predicate UploadPrefix(
      frames: seq<Frame>, requestId: nat, control: seq<byte>, payload: seq<byte>, chunkSize: nat, total: nat)
  {
    && |frames| <= total
    && forall i :: 0 <= i < |frames| ==> IsChunk(frames[i], requestId, control, payload, chunkSize, total, i)
  }

  ghost predicate IsChunk(
      f: Frame, requestId: nat, control: seq<byte>, payload: seq<byte>, chunkSize: nat, total: nat, index: nat)
  {
    index * chunkSize <= |payload| && f == ChunkFrame(requestId, control, payload, chunkSize, total, index)
  }

  /** How much of the payload the first `count` chunks cover. */
  ghost function Covered(length: nat, chunkSize: nat, total: nat, count: nat): nat {
    if count == total then length else count * chunkSize
  }

  lemma CoveredStep(payload: seq<byte>, chunkSize: nat, total: nat, index: nat)
    requires Layout(|payload|, chunkSize, total) && index < total
    ensures index * chunkSize < |payload|
    ensures Covered(|payload|, chunkSize, total, index) == index * chunkSize
    ensures var next := Covered(|payload|, chunkSize, total, index + 1);
            index * chunkSize <= next <= |payload| && ChunkData(payload, chunkSize, index) == payload[index * chunkSize..next]
  {
    ChunkBounds(|payload|, chunkSize, total, index);
  }

  /** Frame `index` of an upload, stripped, is chunk `index` of the payload. */
  ghost predicate StripsTo(f: Frame, controlLength: nat, payload: seq<byte>, chunkSize: nat, index: nat) {
    index * chunkSize <= |payload| && Stripped(f, index, controlLength) == ChunkData(payload, chunkSize, index)
  }

  lemma ChunkStrips(
      f: Frame, requestId: nat, control: seq<byte>, payload: seq<byte>, chunkSize: nat, total: nat, index: nat)
    requires IsChunk(f, requestId, control, payload, chunkSize, total, index)
    ensures StripsTo(f, |control|, payload, chunkSize, index)
  {}

  lemma {:induction false} StrippedCovers(
      frames: seq<Frame>, controlLength: nat, payload: seq<byte>, chunkSize: nat, total: nat)
    requires Layout(|payload|, chunkSize, total) && |frames| <= total
    requires forall i :: 0 <= i < |frames| ==> StripsTo(frames[i], controlLength, payload, chunkSize, i)
    ensures var covered := Covered(|payload|, chunkSize, total, |frames|);
            covered <= |payload| && JoinStripped(frames, controlLength) == payload[..covered]
  {
    var n := |frames|;
    if n > 0 {
      assert StripsTo(frames[n - 1], controlLength, payload, chunkSize, n - 1);
      StrippedCovers(frames[..n - 1], controlLength, payload, chunkSize, total);
      CoveredStep(payload, chunkSize, total, n - 1);
      Extend(payload, Covered(|payload|, chunkSize, total, n - 1), Covered(|payload|, chunkSize, total, n));
    }
  }

  lemma Extend(s: seq<byte>, a: nat, b: nat)
    requires a <= b <= |s|
    ensures s[..a] + s[a..b] == s[..b]
  {}

  /** The data sent so far is a prefix of the payload, and a complete upload carries all of it. */
  lemma {:induction false} UploadCarriesPayload(
      frames: seq<Frame>, requestId: nat, control: seq<byte>, payload: seq<byte>, chunkSize: nat, total: nat)
    requires Layout(|payload|, chunkSize, total)
    requires UploadPrefix(frames, requestId, control, payload, chunkSize, total)
    ensures var covered := Covered(|payload|, chunkSize, total, |frames|);
            covered <= |payload| && JoinStripped(frames, |control|) == payload[..covered]
    ensures |frames| == total ==> JoinStripped(frames, |control|) == payload
  {
    forall i | 0 <= i < |frames| ensures StripsTo(frames[i], |control|, payload, chunkSize, i) {
      ChunkStrips(frames[i], requestId, control, payload, chunkSize, total, i);
    }
    StrippedCovers(frames, |control|, payload, chunkSize, total);
    assert payload[..|payload|] == payload;
  }

  /** The header fields of a chunk survive the wire. */
  lemma ChunkHeader(
      f: Frame, requestId: nat, control: seq<byte>, payload: seq<byte>, chunkSize: nat, total: nat, index: nat)
    requires index < total <= 0xffff && IsChunk(f, requestId, control, payload, chunkSize, total, index)
    ensures |f.payload| >= 4 && FromLE(f.payload[0..2]) == index && FromLE(f.payload[2..4]) == total
  {
    assert index < Range(2) && total < Range(2) by { Ranges(); }
    ReadBack(index, 2);
    ReadBack(total, 2);
    assert f.payload[0..2] == LE(index, 2);
    assert f.payload[2..4] == LE(total, 2);
  }

  /** The last-chunk flag marks exactly the last frame. */
  lemma ChunkFlags(
      f: Frame, requestId: nat, control: seq<byte>, payload: seq<byte>, chunkSize: nat, total: nat, index: nat)
    requires index < total && IsChunk(f, requestId, control, payload, chunkSize, total, index)
    ensures f.Has(FLAG_CALL_V2) && f.Has(FLAG_CHUNKED)
    ensures f.Has(FLAG_CHUNK_LAST) <==> index == total - 1
  {
    assert f.flags == 0x280 || f.flags == 0x680;
  }

  // ----- the upload loop

  method EncodeChunk(requestId: nat, control: seq<byte>, payload: seq<byte>, chunkSize: nat, total: nat, index: nat)
    returns (f: Frame)
    requires Layout(|payload|, chunkSize, total) && index < total
    ensures IsChunk(f, requestId, control, payload, chunkSize, total, index)
  {
    ChunkBounds(|payload|, chunkSize, total, index);
    var start := index * chunkSize;
    var chunk := payload[start..if start + chunkSize < |payload| then start + chunkSize else |payload|];
    var flags := FLAG_CALL_V2 + FLAG_CHUNKED;
    if index == total - 1 { flags := flags + FLAG_CHUNK_LAST; }
    var header := LE(index, 2) + LE(total, 2);
    var body := if index == 0 then header + control + chunk else header + chunk;
    assert header + [] + chunk == header + chunk;
    f := Frame(requestId, flags, body);
  }

  /** How an upload ends; the frames are those written whole. */
  datatype Upload = BadCount | Sent(frames: seq<Frame>) | Broken(frames: seq<Frame>)

  /**
   * Writes the upload's frames in order. `stop(i)` tells whether a refusal had been received
   * when frame `i` was about to be written, `writes(i)` whether writing it succeeds. The upload
   * ends before the first frame for which there is a refusal, which is no failure, or whose
   * write fails, which breaks it.
   */
  method UploadChunks(
    requestId: nat, control: seq<byte>, payload: seq<byte>, chunkSize: nat, stop: nat -> bool, writes: nat -> bool)
    returns (r: Upload)
    requires chunkSize > 0
    ensures r.BadCount? <==> ChunkCount(|payload|, chunkSize) == 0 || ChunkCount(|payload|, chunkSize) > 0xffff
    ensures !r.BadCount? ==>
              var total := ChunkCount(|payload|, chunkSize);
              && UploadPrefix(r.frames, requestId, control, payload, chunkSize, total)
              && (forall i :: 0 <= i < |r.frames| ==> !stop(i) && writes(i))
              && (r.Sent? ==> |r.frames| == total || stop(|r.frames|))
              && (r.Broken? ==> |r.frames| < total && !stop(|r.frames|) && !writes(|r.frames|))
  {
    var total := ChunkCount(|payload|, chunkSize);
    if total <= 0 || total > 0xffff { return BadCount; }
    CountIsLayout(|payload|, chunkSize);
    var frames, index := [], 0;
    while index < total
      invariant index == |frames| <= total
      invariant UploadPrefix(frames, requestId, control, payload, chunkSize, total)
      invariant forall i :: 0 <= i < |frames| ==> !stop(i) && writes(i)
    {
      if stop(index) { return Sent(frames); }
      var frame := EncodeChunk(requestId, control, payload, chunkSize, total, index);
      if !writes(index) { return Broken(frames); }
      frames := frames + [frame];
      index := index + 1;
    }
    return Sent(frames);
  }
}
