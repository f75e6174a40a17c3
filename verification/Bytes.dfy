/** Bytes and the little-endian fields of the wire and log formats. */
module Bytes {

  type byte = x: int | 0 <= x < 256

  const TWO_TO_32 := 0x1_0000_0000

  function Concat(parts: seq<seq<byte>>): seq<byte> {
    if parts == [] then [] else parts[0] + Concat(parts[1..])
  }

  function Power256(width: nat): (p: nat)
    ensures p > 0
  {
    if width == 0 then 1 else 256 * Power256(width - 1)
  }

  /** The `width` low bytes of `n`, low byte first. */
  function ToLE(n: nat, width: nat): (s: seq<byte>)
    ensures |s| == width
  {
    if width == 0 then [] else [n % 256] + ToLE(n / 256, width - 1)
  }

  function FromLE(s: seq<byte>): (n: nat)
    ensures n < Power256(|s|)
  {
    if s == [] then 0 else s[0] + 256 * FromLE(s[1..])
  }

  lemma SmallMultiple(d: int, m: int)
    requires -d < d * m < d
    ensures m == 0
  {
    assert m >= 1 ==> d * m >= d;
    assert m <= -1 ==> d * -m >= d;
  }

  lemma RemainderOf(n: nat, d: nat, k: nat, r: nat)
    requires n == d * k + r && r < d
    ensures n % d == r
  {
    var q := n / d;
    assert n == d * q + n % d;
    assert d * (q - k) == r - n % d;
    SmallMultiple(d, q - k);
  }

  lemma RemainderByProduct(n: nat, p: nat)
    requires p > 0
    ensures n % (256 * p) == n % 256 + 256 * (n / 256 % p)
  {
    var k, r := n / 256 / p, n / 256 % p;
    assert n / 256 == p * k + r;
    assert 256 * (p * k) == 256 * p * k;
    RemainderOf(n, 256 * p, k, n % 256 + 256 * r);
  }

  /** Storing a number keeps what fits in the field. */
  lemma {:induction false} FromToLE(n: nat, width: nat)
    ensures FromLE(ToLE(n, width)) == n % Power256(width)
  {
    if width > 0 {
      FromToLE(n / 256, width - 1);
      assert ToLE(n, width)[1..] == ToLE(n / 256, width - 1);
      RemainderByProduct(n, Power256(width - 1));
    }
  }

  lemma {:induction false} ToFromLE(s: seq<byte>)
    ensures ToLE(FromLE(s), |s|) == s
  {
    if s != [] {
      ToFromLE(s[1..]);
      assert FromLE(s) / 256 == FromLE(s[1..]);
    }
  }

  lemma Power256Of4()
    ensures Power256(4) == TWO_TO_32
  {
    assert Power256(2) == 65536;
  }
}
