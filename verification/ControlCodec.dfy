/** Call control records, shared-memory descriptors and reply control. */
module ControlCodec {
  import opened Bytes

  const MAX_TEXT: nat := 255
  const BUDDY_BYTES: nat := 23
  const BUDDY_FLAG_DEDICATED: nat := 1
  const MAX_U64: nat := 0xffff_ffff_ffff_ffff

  /** Text goes on the wire as one length byte and its UTF-8 bytes. */
  predicate WireText(t: seq<byte>) { |t| <= MAX_TEXT }

  function EncodeText(t: seq<byte>): (r: seq<byte>)
    requires WireText(t)
    ensures |r| == 1 + |t|
  {
    [|t|] + t
  }

  /** A length-prefixed text is self-delimiting. */
  lemma TextSelfDelimiting(a: seq<byte>, x: seq<byte>, b: seq<byte>, y: seq<byte>)
    requires WireText(a) && WireText(b) && EncodeText(a) + x == EncodeText(b) + y
    ensures a == b && x == y
  {
    var s := EncodeText(a) + x;
    assert s[0] == |a| && s[0] == |b|;
    assert s[1..1 + |a|] == a && s[1..1 + |b|] == b;
    assert s[1 + |a|..] == x && s[1 + |b|..] == y;
  }

  // ----- call control

  /** Route identity as UTF-8 bytes. */
  datatype CallRoute = CallRoute(
    name: seq<byte>, routeUid: seq<byte>, crmNs: seq<byte>, crmName: seq<byte>, crmVer: seq<byte>,
    abiHash: seq<byte>, signatureHash: seq<byte>)

  function Texts(route: CallRoute): seq<seq<byte>> {
    [route.name, route.routeUid, route.crmNs, route.crmName, route.crmVer, route.abiHash, route.signatureHash]
  }

  /** What the encoder accepts: short texts, a non-empty name and uid, and a u16 method index. */
  predicate CallEncodable(route: CallRoute, methodIndex: int) {
    && (forall i :: 0 <= i < 7 ==> WireText(Texts(route)[i]))
    && route.name != [] && route.routeUid != []
    && 0 <= methodIndex <= 0xffff
  }

  function EncodeTexts(texts: seq<seq<byte>>): seq<byte>
    requires forall i :: 0 <= i < |texts| ==> WireText(texts[i])
  {
    if texts == [] then [] else EncodeText(texts[0]) + EncodeTexts(texts[1..])
  }

  function EncodeCallControl(route: CallRoute, methodIndex: int): (r: Option<seq<byte>>)
    ensures r.Some? <==> CallEncodable(route, methodIndex)
  {
    if CallEncodable(route, methodIndex) then Some(EncodeTexts(Texts(route)) + LE(methodIndex, 2)) else None
  }

  lemma {:induction false} TextsSelfDelimiting(a: seq<seq<byte>>, x: seq<byte>, b: seq<seq<byte>>, y: seq<byte>)
    requires |a| == |b|
    requires forall i :: 0 <= i < |a| ==> WireText(a[i]) && WireText(b[i])
    requires EncodeTexts(a) + x == EncodeTexts(b) + y
    ensures a == b && x == y
  {
    if a == [] {
      assert EncodeTexts(a) + x == x && EncodeTexts(b) + y == y;
    } else {
      var p, q := EncodeTexts(a[1..]) + x, EncodeTexts(b[1..]) + y;
      assert EncodeTexts(a) + x == EncodeText(a[0]) + p;
      assert EncodeTexts(b) + y == EncodeText(b[0]) + q;
      TextSelfDelimiting(a[0], p, b[0], q);
      TextsSelfDelimiting(a[1..], x, b[1..], y);
      assert a == [a[0]] + a[1..] && b == [b[0]] + b[1..];
    }
  }

  /** The call control record never runs into the payload: equal request bodies have equal parts. */
  lemma CallControlSelfDelimiting(r1: CallRoute, m1: int, p1: seq<byte>, r2: CallRoute, m2: int, p2: seq<byte>)
    requires CallEncodable(r1, m1) && CallEncodable(r2, m2)
    requires EncodeCallControl(r1, m1).value + p1 == EncodeCallControl(r2, m2).value + p2
    ensures r1 == r2 && m1 == m2 && p1 == p2
  {
    var x, y := LE(m1, 2) + p1, LE(m2, 2) + p2;
    assert EncodeCallControl(r1, m1).value + p1 == EncodeTexts(Texts(r1)) + x;
    assert EncodeCallControl(r2, m2).value + p2 == EncodeTexts(Texts(r2)) + y;
    TextsSelfDelimiting(Texts(r1), x, Texts(r2), y);
    assert Texts(r1)[0] == Texts(r2)[0] && Texts(r1)[1] == Texts(r2)[1] && Texts(r1)[2] == Texts(r2)[2];
    assert Texts(r1)[3] == Texts(r2)[3] && Texts(r1)[4] == Texts(r2)[4] && Texts(r1)[5] == Texts(r2)[5];
    assert Texts(r1)[6] == Texts(r2)[6];
    assert x[..2] == LE(m1, 2) && y[..2] == LE(m2, 2) && x[2..] == p1 && y[2..] == p2;
    Ranges();
    ReadBack(m1, 2);
    ReadBack(m2, 2);
  }

  // ----- shared-memory descriptors

  datatype Block = Block(segmentIndex: nat, generation: nat, offset: nat, byteLength: nat, loanId: nat, dedicated: bool)

  predicate InRange(b: Block) {
    && b.segmentIndex <= 0xffff && b.generation <= 0xffff_ffff
    && b.offset <= 0xffff_ffff && b.byteLength <= 0xffff_ffff
  }

  function EncodeBuddy(b: Block): (r: Option<seq<byte>>)
    ensures r.Some? <==> 0 < b.loanId <= MAX_U64
    ensures r.Some? ==> |r.value| == BUDDY_BYTES
  {
    if 0 < b.loanId <= MAX_U64 then
      Some(LE(b.segmentIndex, 2) + LE(b.generation, 4) + LE(b.offset, 4) + LE(b.byteLength, 4)
           + [if b.dedicated then BUDDY_FLAG_DEDICATED else 0] + LE(b.loanId, 8))
    else None
  }

  datatype BuddyResult = Descriptor(block: Block) | Truncated | ZeroLoan

  /** A truncated descriptor is an ordinary error; a zero loan id fails the whole connection. */
  function DecodeBuddy(payload: seq<byte>): (r: BuddyResult)
    ensures r.Truncated? <==> |payload| < BUDDY_BYTES
    ensures r.ZeroLoan? <==> |payload| >= BUDDY_BYTES && FromLE(payload[15..23]) == 0
  {
    if |payload| < BUDDY_BYTES then Truncated
    else if FromLE(payload[15..23]) == 0 then ZeroLoan
    else Descriptor(Block(FromLE(payload[0..2]), FromLE(payload[2..6]), FromLE(payload[6..10]),
                          FromLE(payload[10..14]), FromLE(payload[15..23]),
                          HasBit(payload[14], BUDDY_FLAG_DEDICATED)))
  }

  /** Descriptors with in-range fields survive the wire, whatever follows them. */
  lemma BuddyRoundTrip(b: Block, rest: seq<byte>)
    requires InRange(b) && 0 < b.loanId <= MAX_U64
    ensures DecodeBuddy(EncodeBuddy(b).value + rest) == Descriptor(b)
  {
    var s := EncodeBuddy(b).value + rest;
    Ranges();
    ReadBack(b.segmentIndex, 2);
    ReadBack(b.generation, 4);
    ReadBack(b.offset, 4);
    ReadBack(b.byteLength, 4);
    ReadBack(b.loanId, 8);
    assert s[0..2] == LE(b.segmentIndex, 2);
    assert s[2..6] == LE(b.generation, 4);
    assert s[6..10] == LE(b.offset, 4);
    assert s[10..14] == LE(b.byteLength, 4);
    assert s[15..23] == LE(b.loanId, 8);
  }

  /** The integer fields of a descriptor are what writing their values gives. */
  lemma {:induction false} BuddyFields(payload: seq<byte>)
    requires DecodeBuddy(payload).Descriptor?
    ensures var b := DecodeBuddy(payload).block;
            && InRange(b) && 0 < b.loanId <= MAX_U64
            && LE(b.segmentIndex, 2) == payload[0..2] && LE(b.generation, 4) == payload[2..6]
            && LE(b.offset, 4) == payload[6..10] && LE(b.byteLength, 4) == payload[10..14]
            && LE(b.loanId, 8) == payload[15..23]
  {
    Ranges();
    FieldSound(payload, 0, 2);
    FieldSound(payload, 2, 4);
    FieldSound(payload, 6, 4);
    FieldSound(payload, 10, 4);
    FieldSound(payload, 15, 8);
  }

  lemma BuddySplits(payload: seq<byte>, flag: byte)
    requires |payload| >= BUDDY_BYTES
    ensures payload[..23][14 := flag]
         == payload[0..2] + payload[2..6] + payload[6..10] + payload[10..14] + [flag] + payload[15..23]
  {}

  /** Conversely a decoded descriptor is in range, and it is what the 23 bytes encode up to unused flag bits. */
  lemma {:induction false} BuddySound(payload: seq<byte>)
    requires DecodeBuddy(payload).Descriptor?
    ensures var b := DecodeBuddy(payload).block;
            && InRange(b) && 0 < b.loanId <= MAX_U64
            && EncodeBuddy(b).value == payload[..23][14 := payload[14] % 2]
  {
    BuddyFields(payload);
    BuddySplits(payload, payload[14] % 2);
  }
}
