/** Bytes and little-endian integers, as the IPC codecs write them. */
module Bytes {
  type byte = b: int | 0 <= b < 256

  datatype Option<+T> = None | Some(value: T)

  /** The largest response payload the client accepts, and the largest integer a JavaScript number holds exactly. */
  const MAX_PAYLOAD: nat := 2_147_483_647
  const MAX_SAFE_INTEGER: nat := 9_007_199_254_740_991

  /** The low `width` bytes of `value`, least significant first; higher bytes are dropped. */
  function LE(value: nat, width: nat): (r: seq<byte>)
    ensures |r| == width
  {
    if width == 0 then [] else [value % 256] + LE(value / 256, width - 1)
  }

  function FromLE(s: seq<byte>): nat {
    if s == [] then 0 else s[0] + 256 * FromLE(s[1..])
  }

  /** How many values fit in `width` bytes. */
  function Range(width: nat): nat {
    if width == 0 then 1 else 256 * Range(width - 1)
  }

  lemma {:induction false} ReadBack(value: nat, width: nat)
    requires value < Range(width)
    ensures FromLE(LE(value, width)) == value
  {
    if width > 0 {
      ReadBack(value / 256, width - 1);
      assert LE(value, width)[1..] == LE(value / 256, width - 1);
    }
  }

  lemma {:induction false} WriteBack(s: seq<byte>)
    ensures FromLE(s) < Range(|s|) && LE(FromLE(s), |s|) == s
  {
    if s != [] {
      WriteBack(s[1..]);
      LowDigit(s[0], FromLE(s[1..]));
      assert s == [s[0]] + s[1..];
    }
  }

  /** A field of a record is what writing its value gives. */
  lemma FieldSound(record: seq<byte>, from: nat, n: nat)
    requires from + n <= |record|
    ensures FromLE(record[from..from + n]) < Range(n) && LE(FromLE(record[from..from + n]), n) == record[from..from + n]
  {
    WriteBack(record[from..from + n]);
  }

  lemma LowDigit(low: byte, high: nat)
    ensures (low + 256 * high) % 256 == low && (low + 256 * high) / 256 == high
  {}

  lemma Ranges()
    ensures Range(1) == 0x100 && Range(2) == 0x1_0000 && Range(4) == 0x1_0000_0000
    ensures Range(8) == 0x1_0000_0000_0000_0000
  {
    assert Range(3) == 0x100_0000;
    assert Range(5) == 0x100_0000_0000;
    assert Range(6) == 0x1_0000_0000_0000;
    assert Range(7) == 0x100_0000_0000_0000;
  }

  /** Whether the bit `mask` of `flags` is set; `mask` is a power of two. */
  predicate HasBit(flags: nat, mask: nat)
    requires mask > 0
  {
    flags / mask % 2 == 1
  }
}
