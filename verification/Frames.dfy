/** The framed byte codec of the IPC stream. */
module Frames {
  import opened Bytes

  const HEADER_BYTES: nat := 16
  const BODY_HEADER_BYTES: nat := 12

  const FLAG_RESPONSE: nat := 0x2
  const FLAG_CTRL: nat := 0x10
  const FLAG_BUDDY: nat := 0x40
  const FLAG_CALL_V2: nat := 0x80
  const FLAG_REPLY_V2: nat := 0x100
  const FLAG_CHUNKED: nat := 0x200
  const FLAG_CHUNK_LAST: nat := 0x400

  datatype Frame = Frame(requestId: nat, flags: nat, payload: seq<byte>) {
    predicate Has(mask: nat)
      requires mask > 0
    {
      HasBit(flags, mask)
    }
  }

  /** The fields fit their wire widths: a u64 id and u32 flags. */
  predicate Encodable(f: Frame) {
    f.requestId < 0x1_0000_0000_0000_0000 && f.flags < 0x1_0000_0000
  }

  /** A frame's bytes, refused when the length field could not hold the payload length. */
  function EncodeFrame(f: Frame): (r: Option<seq<byte>>)
    ensures r.None? <==> |f.payload| > 0xffff_ffff - BODY_HEADER_BYTES
  {
    if |f.payload| > 0xffff_ffff - BODY_HEADER_BYTES then None
    else Some(LE(BODY_HEADER_BYTES + |f.payload|, 4) + LE(f.requestId, 8) + LE(f.flags, 4) + f.payload)
  }

  datatype StreamRead = Got(frame: Frame, rest: seq<byte>) | ReadFailed

  /** Reads one frame from the front of a stream: a fixed header, then as many bytes as it announces. */
  function ReadFrame(stream: seq<byte>): StreamRead {
    if |stream| < HEADER_BYTES then ReadFailed else
      var totalLen := FromLE(stream[0..4]);
      if totalLen < BODY_HEADER_BYTES then ReadFailed else
        var payloadLen := totalLen - BODY_HEADER_BYTES;
        if payloadLen > MAX_PAYLOAD || |stream| < HEADER_BYTES + payloadLen then ReadFailed
        else Got(Frame(FromLE(stream[4..12]), FromLE(stream[12..16]), stream[16..16 + payloadLen]),
                 stream[16 + payloadLen..])
  }

  /**
   * Reading succeeds exactly on an encoded frame of acceptable length followed by anything;
   * it returns that frame and leaves what follows untouched.
   */
  lemma ReadFrameExact(stream: seq<byte>, f: Frame, rest: seq<byte>)
    ensures ReadFrame(stream) == Got(f, rest) <==>
            && Encodable(f) && |f.payload| <= MAX_PAYLOAD
            && stream == EncodeFrame(f).value + rest
  {
    if ReadFrame(stream) == Got(f, rest) {
      ReadFrameSound(stream, f, rest);
    }
    if Encodable(f) && |f.payload| <= MAX_PAYLOAD && stream == EncodeFrame(f).value + rest {
      ReadFrameComplete(f, rest);
    }
  }

  lemma HeaderSplits(stream: seq<byte>, n: nat)
    requires |stream| >= HEADER_BYTES + n
    ensures stream == stream[0..4] + stream[4..12] + stream[12..16] + stream[16..16 + n] + stream[16 + n..]
  {}

  /** What a successful read says about the header's three fields. */
  lemma {:induction false} ReadFields(stream: seq<byte>, f: Frame, rest: seq<byte>)
    requires ReadFrame(stream) == Got(f, rest)
    ensures |f.payload| <= MAX_PAYLOAD && |stream| >= HEADER_BYTES + |f.payload|
    ensures FromLE(stream[0..4]) == BODY_HEADER_BYTES + |f.payload|
    ensures FromLE(stream[4..12]) == f.requestId && FromLE(stream[12..16]) == f.flags
    ensures f.payload == stream[16..16 + |f.payload|] && rest == stream[16 + |f.payload|..]
  {}

  lemma {:induction false} ReadFrameSound(stream: seq<byte>, f: Frame, rest: seq<byte>)
    requires ReadFrame(stream) == Got(f, rest)
    ensures Encodable(f) && |f.payload| <= MAX_PAYLOAD
    ensures stream == EncodeFrame(f).value + rest
  {
    ReadFields(stream, f, rest);
    assert Encodable(f) by {
      Ranges();
      FieldSound(stream, 4, 8);
      FieldSound(stream, 12, 4);
    }
    assert LE(BODY_HEADER_BYTES + |f.payload|, 4) == stream[0..4] by { FieldSound(stream, 0, 4); }
    assert LE(f.requestId, 8) == stream[4..12] by { FieldSound(stream, 4, 8); }
    assert LE(f.flags, 4) == stream[12..16] by { FieldSound(stream, 12, 4); }
    HeaderSplits(stream, |f.payload|);
  }

  lemma ReadFrameComplete(f: Frame, rest: seq<byte>)
    requires Encodable(f) && |f.payload| <= MAX_PAYLOAD
    ensures ReadFrame(EncodeFrame(f).value + rest) == Got(f, rest)
  {
    Ranges();
    var a, b, c := LE(BODY_HEADER_BYTES + |f.payload|, 4), LE(f.requestId, 8), LE(f.flags, 4);
    ReadBack(BODY_HEADER_BYTES + |f.payload|, 4);
    ReadBack(f.requestId, 8);
    ReadBack(f.flags, 4);
    var stream := EncodeFrame(f).value + rest;
    assert stream == a + b + c + f.payload + rest;
    assert stream[0..4] == a && stream[4..12] == b && stream[12..16] == c;
    assert stream[16..16 + |f.payload|] == f.payload && stream[16 + |f.payload|..] == rest;
  }

  // ----- whole streams

  predicate Sendable(f: Frame) {
    Encodable(f) && |f.payload| <= MAX_PAYLOAD
  }

  predicate AllSendable(frames: seq<Frame>) {
    forall f :: f in frames ==> Sendable(f)
  }

  function EncodeAll(frames: seq<Frame>): seq<byte>
    requires AllSendable(frames)
  {
    if frames == [] then [] else assert frames[0] in frames; EncodeFrame(frames[0]).value + EncodeAll(frames[1..])
  }

  /** Reads `count` frames in a row. */
  function ReadMany(stream: seq<byte>, count: nat): Option<(seq<Frame>, seq<byte>)> {
    if count == 0 then Some(([], stream)) else
      match ReadFrame(stream)
      case ReadFailed => None
      case Got(f, rest) =>
        match ReadMany(rest, count - 1)
        case None => None
        case Some((fs, tail)) => Some(([f] + fs, tail))
  }

  /** Reading a concatenation of encoded frames returns exactly those frames and nothing beyond them. */
  lemma {:induction false} StreamRoundTrip(frames: seq<Frame>, rest: seq<byte>)
    requires AllSendable(frames)
    ensures ReadMany(EncodeAll(frames) + rest, |frames|) == Some((frames, rest))
  {
    if frames == [] {
      assert [] + rest == rest;
    } else {
      var f, fs := frames[0], frames[1..];
      assert f in frames;
      var head, tail := EncodeFrame(f).value, EncodeAll(fs) + rest;
      assert EncodeAll(frames) + rest == head + tail;
      ReadFrameComplete(f, tail);
      StreamRoundTrip(fs, rest);
      assert frames == [f] + fs;
    }
  }

  /** Conversely, whatever is read from a stream is the stream's own prefix, frame by frame. */
  lemma {:induction false} StreamSound(stream: seq<byte>, count: nat)
    requires ReadMany(stream, count).Some?
    ensures var (frames, rest) := ReadMany(stream, count).value;
            && |frames| == count
            && AllSendable(frames)
            && stream == EncodeAll(frames) + rest
  {
    if count > 0 {
      var Got(f, rest) := ReadFrame(stream);
      ReadFrameSound(stream, f, rest);
      StreamSound(rest, count - 1);
      var (fs, tail) := ReadMany(rest, count - 1).value;
      assert ([f] + fs)[1..] == fs;
    }
  }
}
