/** `calc_checksum` of `qeez_stats/utils.py`: the CRC32 of the request body
    formatted by `'%08x' % (crc & 0xffffffff)`. The CRC32 itself is a library
    call and enters the model as the integer it returns. */
module Checksum {

  /** `x & 0xffffffff` keeps the residue modulo 2^32; Dafny's `%` is Euclidean,
      so a negative CRC (Python 2) is masked as Python masks it. */
  const CrcModulus: nat := 0x1_0000_0000
  const Width: nat := 8

  function Pow16(n: nat): (r: nat)
    ensures r > 0
  {
    if n == 0 then 1 else 16 * Pow16(n - 1)
  }

  predicate IsLowerHex(c: char)
  {
    '0' <= c <= '9' || 'a' <= c <= 'f'
  }

  function HexDigit(d: nat): (c: char)
    requires d < 16
    ensures IsLowerHex(c)
  {
    if d < 10 then ('0' as int + d) as char else ('a' as int + d - 10) as char
  }

  function HexDigitValue(c: char): nat
  {
    if '0' <= c <= '9' then (c - '0') as nat
    else if 'a' <= c <= 'f' then (c - 'a') as nat + 10
    else 0
  }

  /** `'%0*x' % (width, x)` for `x` below 16^width: exactly `width`
      lower-case hex digits, most significant first. */
  function Hex(x: nat, width: nat): (r: string)
    ensures |r| == width
    ensures forall i :: 0 <= i < |r| ==> IsLowerHex(r[i])
  {
    if width == 0 then "" else Hex(x / 16, width - 1) + [HexDigit(x % 16)]
  }

  /** The number a hex string denotes. */
  function HexValue(s: string): nat
  {
    if |s| == 0 then 0 else HexValue(s[..|s| - 1]) * 16 + HexDigitValue(s[|s| - 1])
  }

  /** Reading the digits back gives the number that was formatted. */
  lemma {:induction false} HexRoundTrip(x: nat, width: nat)
    requires x < Pow16(width)
    ensures HexValue(Hex(x, width)) == x
  {
    if width > 0 {
      assert x / 16 < Pow16(width - 1);
      HexRoundTrip(x / 16, width - 1);
      var r := Hex(x, width);
      assert r[..|r| - 1] == Hex(x / 16, width - 1);
      assert HexDigitValue(r[|r| - 1]) == x % 16;
    }
  }

  lemma ModulusIsPow16()
    ensures Pow16(Width) == CrcModulus
  {
  }

  /** `calc_checksum`, given the CRC32 of the body: eight lower-case hex
      digits that spell out the CRC modulo 2^32. */
  function CalcChecksum(crc: int): (r: string)
    ensures |r| == Width
    ensures forall i :: 0 <= i < |r| ==> IsLowerHex(r[i])
    ensures HexValue(r) == crc % CrcModulus
  {
    ModulusIsPow16();
    HexRoundTrip(crc % CrcModulus, Width);
    Hex(crc % CrcModulus, Width)
  }

  /** The checksum is the same whether the CRC comes signed (Python 2) or unsigned. */
  lemma SignedCrcSameChecksum(crc: int)
    ensures CalcChecksum(crc - CrcModulus) == CalcChecksum(crc)
  {
    var m: int := CrcModulus;
    assert (crc - m) % m == crc % m by {
      assert crc - m == (crc / m - 1) * m + crc % m;
    }
  }

  /** The checksum of an empty body (CRC 0) is "00000000". */
  lemma EmptyBodyChecksum()
    ensures CalcChecksum(0) == "00000000"
  {
  }
}
