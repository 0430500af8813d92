/** Fixed-width numbers as bytes, in both byte orders. */
module Bytes {
  type Byte = n: nat | n < 256

  const U32_BOUND: nat := 0x1_0000_0000

  function Power(width: nat): nat {
    if width == 0 then 1 else 256 * Power(width - 1)
  }

  function BigEndian(n: nat, width: nat): (b: seq<Byte>)
    ensures |b| == width
  {
    if width == 0 then [] else BigEndian(n / 256, width - 1) + [n % 256]
  }

  function Number(b: seq<Byte>): nat {
    if b == [] then 0 else 256 * Number(b[..|b| - 1]) + b[|b| - 1]
  }

  lemma {:induction false} NumberOfBigEndian(n: nat, width: nat)
    requires n < Power(width)
    ensures Number(BigEndian(n, width)) == n
  {
    if width == 0 {
    } else {
      NumberOfBigEndian(n / 256, width - 1);
      assert BigEndian(n, width)[..width - 1] == BigEndian(n / 256, width - 1);
    }
  }

  lemma PowersOfWidths()
    ensures Power(1) == 0x100 && Power(2) == 0x1_0000 && Power(4) == U32_BOUND && Power(8) == 0x1_0000_0000_0000_0000
  {
    assert Power(3) == 0x100_0000 && Power(5) == 0x100 * U32_BOUND;
    assert Power(6) == 0x1_0000 * U32_BOUND && Power(7) == 0x100_0000 * U32_BOUND;
  }

  function LittleEndian(n: nat, width: nat): (b: seq<Byte>)
    ensures |b| == width
  {
    if width == 0 then [] else [n % 256] + LittleEndian(n / 256, width - 1)
  }

  function LittleNumber(b: seq<Byte>): nat {
    if b == [] then 0 else b[0] + 256 * LittleNumber(b[1..])
  }

  lemma {:induction false} NumberOfLittleEndian(n: nat, width: nat)
    requires n < Power(width)
    ensures LittleNumber(LittleEndian(n, width)) == n
  {
    if width == 0 {
    } else {
      NumberOfLittleEndian(n / 256, width - 1);
      assert LittleEndian(n, width)[1..] == LittleEndian(n / 256, width - 1);
    }
  }
}
