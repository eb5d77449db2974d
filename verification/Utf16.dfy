/** Strings of UTF-16 code units, as the transport's language has them, on their way through UTF-8. */
module Utf16 {
  import opened Bytes
  import Utf8

  type codeunit = u: int | 0 <= u < 0x1_0000

  const REPLACEMENT: char := 0xFFFD as char

  predicate High(u: codeunit) { 0xD800 <= u < 0xDC00 }

  predicate Low(u: codeunit) { 0xDC00 <= u < 0xE000 }

  /** The string starts with the two halves of one scalar value. */
  predicate Pair(s: seq<codeunit>) {
    |s| >= 2 && High(s[0]) && Low(s[1])
  }

  function Joined(high: codeunit, low: codeunit): char
    requires High(high) && Low(low)
  {
    (0x1_0000 + (high as int - 0xD800) * 0x400 + (low as int - 0xDC00)) as char
  }

  /** The scalar values of a string; a half without its other half is replaced. */
  function Scalars(s: seq<codeunit>): string {
    if s == [] then []
    else if Pair(s) then [Joined(s[0], s[1])] + Scalars(s[2..])
    else [if High(s[0]) || Low(s[0]) then REPLACEMENT else s[0] as char] + Scalars(s[1..])
  }

  function CharUnits(c: char): seq<codeunit> {
    var n := c as int;
    if n < 0x1_0000 then [n] else [0xD800 + (n - 0x1_0000) / 0x400, 0xDC00 + (n - 0x1_0000) % 0x400]
  }

  function Units(t: string): seq<codeunit> {
    if t == [] then [] else CharUnits(t[0]) + Units(t[1..])
  }

  /** Every half stands with its other half. */
  predicate WellFormed(s: seq<codeunit>) {
    s == [] || if Pair(s) then WellFormed(s[2..]) else !High(s[0]) && !Low(s[0]) && WellFormed(s[1..])
  }

  lemma JoinedUnits(high: codeunit, low: codeunit)
    requires High(high) && Low(low)
    ensures CharUnits(Joined(high, low)) == [high, low]
  {}

  /** A text is read back from its code units, whatever follows its first character. */
  lemma {:induction false} ScalarsOfChar(c: char, rest: seq<codeunit>)
    ensures Scalars(CharUnits(c) + rest) == [c] + Scalars(rest)
  {
    var s := CharUnits(c) + rest;
    if c as int < 0x1_0000 {
      assert s[1..] == rest && s[0] == c as int && !Pair(s);
    } else {
      assert s[2..] == rest && Pair(s);
    }
  }

  lemma {:induction false} ScalarsOfUnits(t: string)
    ensures Scalars(Units(t)) == t
  {
    if t != [] {
      ScalarsOfChar(t[0], Units(t[1..]));
      ScalarsOfUnits(t[1..]);
    }
  }

  lemma UnitsOfScalars(c: char, t: string)
    ensures Units([c] + t) == CharUnits(c) + Units(t)
  {
    assert ([c] + t)[1..] == t;
  }

  /** A string is the code units of its scalar values exactly if it is well formed. */
  lemma {:induction false} UnitsExact(s: seq<codeunit>)
    ensures Units(Scalars(s)) == s <==> WellFormed(s)
    decreases |s|
  {
    if Pair(s) {
      UnitsExact(s[2..]);
      UnitsOfScalars(Joined(s[0], s[1]), Scalars(s[2..]));
      JoinedUnits(s[0], s[1]);
      Parts(s, [s[0], s[1]], Units(Scalars(s[2..])));
    } else if s != [] {
      UnitsExact(s[1..]);
      var c := Scalars(s)[0];
      UnitsOfScalars(c, Scalars(s[1..]));
      Parts(s, CharUnits(c), Units(Scalars(s[1..])));
    }
  }

  lemma Parts(s: seq<codeunit>, front: seq<codeunit>, back: seq<codeunit>)
    requires |front| <= |s|
    ensures front + back == s <==> front == s[..|front|] && back == s[|front|..]
  {
    assert s == s[..|front|] + s[|front|..];
    assert (front + back)[..|front|] == front && (front + back)[|front|..] == back;
  }

  // ----- the text encoder and decoder on strings

  function EncodeString(s: seq<codeunit>): seq<byte> {
    Utf8.Encode(Scalars(s))
  }

  function DecodeString(t: seq<byte>): Option<seq<codeunit>> {
    match Utf8.DecodeText(t)
    case None => None
    case Some(text) => Some(Units(text))
  }

  lemma FirstScalar(s: seq<codeunit>)
    requires s != []
    ensures Scalars(s) != [] && (Scalars(s)[0] as int == 0xFEFF <==> s[0] == 0xFEFF)
  {}

  /** A string survives encoding and decoding exactly if it is well formed and does not start with U+FEFF. */
  lemma StringRoundTripExact(s: seq<codeunit>)
    ensures DecodeString(EncodeString(s)) == Some(s) <==> WellFormed(s) && (s == [] || s[0] != 0xFEFF)
  {
    var text := Scalars(s);
    Utf8.RoundTripExact(text);
    UnitsExact(s);
    if s != [] { FirstScalar(s); }
    if DecodeString(EncodeString(s)) == Some(s) {
      ScalarsOfUnits(Utf8.DecodeText(EncodeString(s)).value);
    }
  }

  /** The shortest string that does not survive for want of its other half: it comes back as U+FFFD. */
  lemma LoneHalfIsReplaced(u: codeunit)
    requires High(u) || Low(u)
    ensures DecodeString(EncodeString([u])) == Some([0xFFFD])
  {
    var s: seq<codeunit> := [u];
    assert s[1..] == [] && Scalars(s) == [REPLACEMENT] + Scalars([]) == [REPLACEMENT];
    Utf8.RoundTripExact([REPLACEMENT]);
    UnitsOfScalars(REPLACEMENT, []);
    assert [REPLACEMENT] + [] == [REPLACEMENT] && CharUnits(REPLACEMENT) + [] == [0xFFFD];
  }
}
