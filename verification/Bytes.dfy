/** Bits, bytes, big-endian numbers and 32-bit integers. */
module Bytes {

  type Byte = b: int | 0 <= b < 256

  function Bit(b: bool): nat {
    if b then 1 else 0
  }

  function Pow256(n: nat): (r: nat)
    ensures r > 0
  {
    if n == 0 then 1 else 256 * Pow256(n - 1)
  }

  /** The number a string of bytes stands for, most significant byte first. */
  function FromBytes(s: seq<Byte>): (r: nat)
    ensures r < Pow256(|s|)
  {
    if s == [] then 0
    else
      assert |s[..|s| - 1]| == |s| - 1;
      256 * FromBytes(s[..|s| - 1]) + s[|s| - 1]
  }

  /** The n low bytes of x, most significant byte first. */
  function ToBytes(x: nat, n: nat): (r: seq<Byte>)
    ensures |r| == n
  {
    if n == 0 then [] else ToBytes(x / 256, n - 1) + [x % 256]
  }

  lemma {:induction false} FromToBytes(x: nat, n: nat)
    requires x < Pow256(n)
    ensures FromBytes(ToBytes(x, n)) == x
  {
    if n > 0 {
      FromToBytes(x / 256, n - 1);
      var r := ToBytes(x, n);
      assert r[..n - 1] == ToBytes(x / 256, n - 1);
    }
  }

  lemma {:induction false} ToFromBytes(s: seq<Byte>)
    ensures ToBytes(FromBytes(s), |s|) == s
  {
    if s != [] {
      ToFromBytes(s[..|s| - 1]);
      assert s == s[..|s| - 1] + [s[|s| - 1]];
    }
  }

  const INT_MAX: int := 0x7FFF_FFFF

  /** The value a difference has once it is stored in a 32-bit integer. */
  function Int32(x: int): (r: int)
    ensures -0x8000_0000 <= r <= INT_MAX
    ensures 0 <= x < 0x8000_0000 ==> r == x
    ensures r >= 0 <==> x % 0x1_0000_0000 < 0x8000_0000
  {
    var m := x % 0x1_0000_0000;
    if m < 0x8000_0000 then m else m - 0x1_0000_0000
  }
}
