/** Bytes, digests and the big-endian numbers of the on-disk and on-wire formats. */
module Bytes {
  type Byte = b: nat | b < 256

  /** The bytes of one block of an image. */
  type Block = seq<Byte>

  function Zeros(n: nat): seq<Byte> { seq(n, _ => 0) }

  type Digest = s: seq<Byte> | |s| == 32 witness seq(32, _ => 0)

  function Power(width: nat): nat { if width == 0 then 1 else 256 * Power(width - 1) }

  function BigEndian(n: nat, width: nat): (s: seq<Byte>)
    ensures |s| == width
  {
    if width == 0 then [] else BigEndian(n / 256, width - 1) + [n % 256]
  }

  function Number(s: seq<Byte>): nat {
    if s == [] then 0 else Number(s[..|s| - 1]) * 256 + s[|s| - 1]
  }

  lemma {:induction false} NumberOfBigEndian(n: nat, width: nat)
    requires n < Power(width)
    ensures Number(BigEndian(n, width)) == n
  {
    if width > 0 {
      NumberOfBigEndian(n / 256, width - 1);
      assert BigEndian(n, width)[..width - 1] == BigEndian(n / 256, width - 1);
    }
  }

  lemma {:induction false} Widths()
    ensures Power(4) == 0x1_0000_0000 && Power(8) == 0x1_0000_0000 * 0x1_0000_0000
  {
    assert Power(1) == 256 && Power(2) == 65536 && Power(3) == 0x100_0000;
    assert Power(5) == 256 * Power(4) && Power(6) == 256 * Power(5) && Power(7) == 256 * Power(6);
  }
}
