/** UTF-8 as the text encoder writes it and the strict text decoder reads it, byte-order mark included. */
module Utf8 {
  import opened Bytes

  predicate Continues(b: byte) {
    0x80 <= b < 0xC0
  }

  function Digit(b: byte): (r: nat)
    requires Continues(b)
    ensures r < 64 && b == 0x80 + r
  {
    b as int - 0x80
  }

  /** The encoding of one scalar value. */
  function EncodeChar(c: char): (r: seq<byte>)
    ensures 1 <= |r| <= 4
  {
    var n := c as int;
    if n < 0x80 then [n]
    else if n < 0x800 then [0xC0 + n / 64, 0x80 + n % 64]
    else if n < 0x1_0000 then [0xE0 + n / 4096, 0x80 + n / 64 % 64, 0x80 + n % 64]
    else [0xF0 + n / 262144, 0x80 + n / 4096 % 64, 0x80 + n / 64 % 64, 0x80 + n % 64]
  }

  function Encode(s: string): seq<byte> {
    if s == [] then [] else EncodeChar(s[0]) + Encode(s[1..])
  }

  /** How many bytes a sequence takes that starts with `lead`; none if no sequence does. */
  function Length(lead: byte): nat {
    if lead < 0x80 then 1
    else if 0xC0 <= lead < 0xE0 then 2
    else if 0xE0 <= lead < 0xF0 then 3
    else if 0xF0 <= lead < 0xF8 then 4
    else 0
  }

  /** The number the bytes of a sequence spell. */
  function Spelled(t: seq<byte>): nat
    requires t != [] && 0 < Length(t[0]) == |t| && forall i :: 0 < i < |t| ==> Continues(t[i])
  {
    if |t| == 1 then t[0]
    else if |t| == 2 then Join(0, 0, t[0] as int - 0xC0, Digit(t[1]))
    else if |t| == 3 then Join(0, t[0] as int - 0xE0, Digit(t[1]), Digit(t[2]))
    else Join(t[0] as int - 0xF0, Digit(t[1]), Digit(t[2]), Digit(t[3]))
  }

  /** The number with these base-64 digits. */
  function Join(a: nat, b: nat, c: nat, d: nat): nat {
    a * 262144 + b * 4096 + c * 64 + d
  }

  lemma SplitJoined(a: nat, b: nat, c: nat, d: nat)
    requires b < 64 && c < 64 && d < 64
    ensures var n := Join(a, b, c, d); n % 64 == d && n / 64 % 64 == c && n / 4096 % 64 == b && n / 262144 == a
    ensures a == 0 ==> Join(a, b, c, d) / 4096 == b
    ensures a == b == 0 ==> Join(a, b, c, d) / 64 == c
  {
    var n := Join(a, b, c, d);
    var x := a * 64 + b;
    var y := x * 64 + c;
    assert n == y * 64 + d;
    assert n / 64 == y && n % 64 == d;
    assert n / 4096 == y / 64 == x;
    assert n / 262144 == x / 64 == a;
  }

  lemma JoinSplit(n: nat)
    ensures Join(n / 262144, n / 4096 % 64, n / 64 % 64, n % 64) == n
    ensures n < 0x4_0000 ==> n / 262144 == 0 && n / 4096 % 64 == n / 4096
    ensures n < 0x1000 ==> n / 4096 == 0 && n / 64 % 64 == n / 64
  {
    var y := n / 64;
    var x := y / 64;
    assert n / 4096 == x && n / 262144 == x / 64;
    assert n == y * 64 + n % 64 && y == x * 64 + y % 64 && x == x / 64 * 64 + x % 64;
  }

  /** Shortest form only, and no surrogates. */
  predicate Allowed(n: nat, length: nat) {
    && (length == 1 || (length == 2 && n >= 0x80) || (length == 3 && n >= 0x800) || (length == 4 && n >= 0x1_0000))
    && (n < 0xD800 || 0xE000 <= n < 0x11_0000)
  }

  /** The scalar value at the front, strictly decoded. */
  function TakeChar(t: seq<byte>): (r: Option<char>)
    ensures r.Some? ==> t != [] && 0 < Length(t[0]) <= |t|
  {
    if t == [] then None else
      var k := Length(t[0]);
      if k == 0 || |t| < k || exists i :: 0 < i < k && !Continues(t[i]) then None else
        var n := Spelled(t[..k]);
        if Allowed(n, k) then Some(n as char) else None
  }

  function Decode(t: seq<byte>): Option<string>
    decreases |t|
  {
    if t == [] then Some([]) else
      match TakeChar(t)
      case None => None
      case Some(c) =>
        match Decode(t[Length(t[0])..])
        case None => None
        case Some(s) => Some([c] + s)
  }

  lemma EncodedLength(c: char)
    ensures Length(EncodeChar(c)[0]) == |EncodeChar(c)|
    ensures forall i :: 0 < i < |EncodeChar(c)| ==> Continues(EncodeChar(c)[i])
  {}

  lemma {:induction false} EncodedSpells(c: char)
    requires Length(EncodeChar(c)[0]) == |EncodeChar(c)| && forall i :: 0 < i < |EncodeChar(c)| ==> Continues(EncodeChar(c)[i])
    ensures Spelled(EncodeChar(c)) == c as int && Allowed(c as int, |EncodeChar(c)|)
  {
    JoinSplit(c as int);
  }

  /** An encoded scalar value is read back, whatever follows it. */
  lemma {:induction false} TakeEncoded(c: char, rest: seq<byte>)
    ensures TakeChar(EncodeChar(c) + rest) == Some(c)
  {
    EncodedLength(c);
    EncodedSpells(c);
    var e, t := EncodeChar(c), EncodeChar(c) + rest;
    assert t[0] == e[0] && t[..|e|] == e;
    forall i | 0 < i < |e| ensures Continues(t[i]) { assert t[i] == e[i]; }
  }

  lemma {:induction false} SpelledEncodes(t: seq<byte>)
    requires t != [] && 0 < Length(t[0]) == |t| && forall i :: 0 < i < |t| ==> Continues(t[i])
    requires Allowed(Spelled(t), |t|)
    ensures EncodeChar(Spelled(t) as char) == t
  {
    if |t| == 2 {
      SplitJoined(0, 0, t[0] as int - 0xC0, Digit(t[1]));
    } else if |t| == 3 {
      SplitJoined(0, t[0] as int - 0xE0, Digit(t[1]), Digit(t[2]));
    } else if |t| == 4 {
      SplitJoined(t[0] as int - 0xF0, Digit(t[1]), Digit(t[2]), Digit(t[3]));
    }
  }

  /** Only the encoding of a scalar value is read as it. */
  lemma {:induction false} TakenIsEncoded(t: seq<byte>)
    requires TakeChar(t).Some?
    ensures EncodeChar(TakeChar(t).value) == t[..Length(t[0])]
  {
    var k := Length(t[0]);
    forall i | 0 < i < k ensures Continues(t[..k][i]) { assert t[..k][i] == t[i]; }
    SpelledEncodes(t[..k]);
  }

  lemma {:induction false} DecodeEncoded(s: string)
    ensures Decode(Encode(s)) == Some(s)
  {
    if s != [] {
      var e, rest := EncodeChar(s[0]), Encode(s[1..]);
      TakeEncoded(s[0], rest);
      EncodedLength(s[0]);
      assert (e + rest)[0] == e[0] && (e + rest)[|e|..] == rest;
      DecodeEncoded(s[1..]);
      assert s == [s[0]] + s[1..];
    }
  }

  lemma {:induction false} EncodeDecoded(t: seq<byte>)
    requires Decode(t).Some?
    ensures Encode(Decode(t).value) == t
    decreases |t|
  {
    if t != [] {
      var k := Length(t[0]);
      TakenIsEncoded(t);
      EncodeDecoded(t[k..]);
      var c, s := TakeChar(t).value, Decode(t[k..]).value;
      assert ([c] + s)[1..] == s;
      assert t == t[..k] + t[k..];
    }
  }

  // ----- the byte-order mark

  const MARK: seq<byte> := [0xEF, 0xBB, 0xBF]

  predicate Marked(t: seq<byte>) {
    |t| >= 3 && t[0] == 0xEF && t[1] == 0xBB && t[2] == 0xBF
  }

  /** What the text decoder returns: a leading byte-order mark is dropped. */
  function DecodeText(t: seq<byte>): Option<string> {
    Decode(if Marked(t) then t[3..] else t)
  }

  /** A decoded text encodes to the bytes it was read from exactly if they do not start with the mark. */
  lemma DecodeTextExact(t: seq<byte>)
    requires DecodeText(t).Some?
    ensures Encode(DecodeText(t).value) == (if Marked(t) then t[3..] else t)
    ensures Encode(DecodeText(t).value) == t <==> !Marked(t)
  {
    EncodeDecoded(if Marked(t) then t[3..] else t);
  }

  lemma MarkIsFirst(s: string)
    ensures Marked(Encode(s)) <==> s != [] && s[0] as int == 0xFEFF
  {
    if s != [] {
      var e := EncodeChar(s[0]);
      EncodedLength(s[0]);
      assert Encode(s)[..|e|] == e && Encode(s)[0] == e[0];
      if Marked(Encode(s)) {
        assert |e| == 3 && e == [0xEF, 0xBB, 0xBF];
        EncodedSpells(s[0]);
      }
      if s[0] as int == 0xFEFF { assert e == [0xEF, 0xBB, 0xBF]; }
    }
  }

  /** Encoding and decoding a text gives it back exactly if it does not start with U+FEFF. */
  lemma RoundTripExact(s: string)
    ensures DecodeText(Encode(s)) == Some(s) <==> s == [] || s[0] as int != 0xFEFF
  {
    MarkIsFirst(s);
    DecodeEncoded(s);
    if Marked(Encode(s)) {
      if DecodeText(Encode(s)) == Some(s) { EncodeDecoded(Encode(s)[3..]); }
    }
  }
}
