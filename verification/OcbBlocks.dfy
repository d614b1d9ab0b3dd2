/**
 * The 128-bit blocks of OCB and their portable operations
 * (alfalfa/src/crypto/ocb.cc). A block is its sixteen bytes in memory order;
 * arithmetic is done on two 64-bit registers holding the bytes big-endian.
 */
module OcbBlocks {

  type Block = b: seq<bv8> | |b| == 16 witness seq(16, _ => 0)

  function Zero(): Block {
    seq(16, _ => 0)
  }

  function Xor(x: Block, y: Block): Block {
    seq(16, i requires 0 <= i < 16 => x[i] ^ y[i])
  }

  lemma ByteXor(a: bv8, b: bv8, c: bv8)
    ensures a ^ b == b ^ a
    ensures (a ^ b) ^ c == a ^ (b ^ c)
    ensures (a ^ b) ^ b == a
    ensures a ^ 0 == a
  {
  }

  lemma XorCommutes(x: Block, y: Block)
    ensures Xor(x, y) == Xor(y, x)
  {
    forall i | 0 <= i < 16 ensures Xor(x, y)[i] == Xor(y, x)[i] { ByteXor(x[i], y[i], 0); }
  }

  lemma XorAssociates(x: Block, y: Block, z: Block)
    ensures Xor(Xor(x, y), z) == Xor(x, Xor(y, z))
  {
    forall i | 0 <= i < 16 ensures Xor(Xor(x, y), z)[i] == Xor(x, Xor(y, z))[i] { ByteXor(x[i], y[i], z[i]); }
  }

  lemma XorCancels(x: Block, y: Block)
    ensures Xor(Xor(x, y), y) == x
    ensures Xor(y, Xor(y, x)) == x
  {
    forall i | 0 <= i < 16 ensures Xor(Xor(x, y), y)[i] == x[i] { ByteXor(x[i], y[i], 0); }
    XorCommutes(y, x);
    XorCommutes(y, Xor(y, x));
  }

  /** Two terms may be folded into a sum in either order. */
  lemma XorSwaps(x: Block, y: Block, z: Block)
    ensures Xor(Xor(x, y), z) == Xor(Xor(x, z), y)
  {
    XorAssociates(x, y, z);
    XorCommutes(y, z);
    XorAssociates(x, z, y);
  }

  // ---------------------------------------------------------------- registers

  datatype Registers = Registers(l: bv64, r: bv64)

  function Word(s: seq<bv8>): bv64
    requires |s| == 8
  {
    ((s[0] as bv64) << 56) | ((s[1] as bv64) << 48) | ((s[2] as bv64) << 40) | ((s[3] as bv64) << 32) |
    ((s[4] as bv64) << 24) | ((s[5] as bv64) << 16) | ((s[6] as bv64) << 8) | (s[7] as bv64)
  }

  function WordBytes(w: bv64): (s: seq<bv8>)
    ensures |s| == 8
  {
    [((w >> 56) & 0xff) as bv8, ((w >> 48) & 0xff) as bv8, ((w >> 40) & 0xff) as bv8, ((w >> 32) & 0xff) as bv8,
     ((w >> 24) & 0xff) as bv8, ((w >> 16) & 0xff) as bv8, ((w >> 8) & 0xff) as bv8, (w & 0xff) as bv8]
  }

  function ToRegisters(b: Block): Registers {
    Registers(Word(b[..8]), Word(b[8..]))
  }

  function ToMemory(x: Registers): Block {
    WordBytes(x.l) + WordBytes(x.r)
  }

  /** Two words as one 128-bit number, first bit most significant. */
  function Number(l: bv64, r: bv64): bv128 {
    ((l as bv128) << 64) | (r as bv128)
  }

  function FromNumber(n: bv128): Registers {
    Registers((n >> 64) as bv64, (n & 0xffff_ffff_ffff_ffff) as bv64)
  }

  lemma NumberRoundTrip(l: bv64, r: bv64)
    ensures FromNumber(Number(l, r)) == Registers(l, r)
  {
  }

  // ---------------------------------------------------------------- doubling

  function DoubleHigh(l: bv64, r: bv64): bv64 {
    (l + l) ^ (r >> 63)
  }

  function DoubleLow(l: bv64, r: bv64): bv64 {
    (r + r) ^ (SignMask(l) & 135)
  }

  function SignMask(l: bv64): bv64 {
    if l >> 63 == 0 then 0 else 0xffff_ffff_ffff_ffff
  }

  function DoubleRegisters(x: Registers): Registers {
    Registers(DoubleHigh(x.l, x.r), DoubleLow(x.l, x.r))
  }

  /** Section 2 of RFC 7253: shift left by one bit, and reduce by 135 when a one falls out. */
  function DoubleNumber(n: bv128): bv128 {
    if n >> 127 == 0 then n << 1 else (n << 1) ^ 135
  }

  lemma TopBit(l: bv64, r: bv64)
    ensures (Number(l, r) >> 127 == 0) == (l >> 63 == 0)
    ensures l >> 63 == 0 || l >> 63 == 1
  {
  }

  lemma ShiftAcross(l: bv64, r: bv64)
    ensures Number((l + l) ^ (r >> 63), r + r) == Number(l, r) << 1
  {
  }

  lemma ShiftAndReduce(l: bv64, r: bv64)
    ensures Number((l + l) ^ (r >> 63), (r + r) ^ 135) == (Number(l, r) << 1) ^ 135
  {
  }

  lemma MaskSelects(x: bv64, t: bv64)
    ensures t == 0 ==> x ^ (t & 135) == x
    ensures t == 0xffff_ffff_ffff_ffff ==> x ^ (t & 135) == x ^ 135
  {
  }

  lemma DoubleLowReduces(l: bv64, r: bv64)
    ensures DoubleLow(l, r) == if l >> 63 == 0 then r + r else (r + r) ^ 135
  {
    MaskSelects(r + r, SignMask(l));
  }

  lemma DoubleRefines(l: bv64, r: bv64)
    ensures Number(DoubleHigh(l, r), DoubleLow(l, r)) == DoubleNumber(Number(l, r))
  {
    hide Number, DoubleLow;
    DoubleLowReduces(l, r);
    TopBit(l, r);
    ShiftAcross(l, r);
    ShiftAndReduce(l, r);
  }

  function DoubleBlock(b: Block): Block {
    ToMemory(DoubleRegisters(ToRegisters(b)))
  }

  /** The doubling of section 2 of RFC 7253 on a block. */
  function Doubled(b: Block): Block {
    var x := ToRegisters(b);
    ToMemory(FromNumber(DoubleNumber(Number(x.l, x.r))))
  }

  lemma DoubleBlockRefines(b: Block)
    ensures DoubleBlock(b) == Doubled(b)
  {
    hide Number, FromNumber, DoubleHigh, DoubleLow, DoubleNumber, ToMemory, ToRegisters;
    var x := ToRegisters(b);
    DoubleRefines(x.l, x.r);
    NumberRoundTrip(DoubleHigh(x.l, x.r), DoubleLow(x.l, x.r));
  }

  // ---------------------------------------------------------------- initial offset

  /** The stretched top block: Ktop and a third word. */
  datatype Stretch = Stretch(k0: bv64, k1: bv64, k2: bv64)

  function MakeStretch(ktop: Registers): Stretch {
    Stretch(ktop.l, ktop.r, ThirdWord(ktop.l, ktop.r))
  }

  function ThirdWord(k0: bv64, k1: bv64): bv64 {
    k0 ^ Mixed(k0, k1)
  }

  function Mixed(k0: bv64, k1: bv64): bv64 {
    (k0 << 8) ^ (k1 >> 56)
  }

  function GenOffset(k: Stretch, bot: bv6): Registers {
    Registers(Shifted(k.k0, k.k1, bot), Shifted(k.k1, k.k2, bot))
  }

  function Shifted(hi: bv64, lo: bv64, bot: bv6): bv64 {
    if bot != 0 then (hi << bot) | (lo >> (64 - bot as bv8)) else hi
  }

  /** The 64 bits of the string hi || lo that follow its first bot bits. */
  function Window(hi: bv64, lo: bv64, bot: bv6): bv64 {
    ((((((hi as bv128) << 64) | (lo as bv128)) << bot) >> 64) & 0xffff_ffff_ffff_ffff) as bv64
  }

  lemma WindowLowest(hi: bv64, lo: bv64, bot: bv6)
    requires 0 < bot < 16
    ensures ((((((hi as bv128) << 64) | (lo as bv128)) << bot) >> 64) & 0xffff_ffff_ffff_ffff) as bv64
         == (hi << bot) | (lo >> (64 - bot as bv8))
  {
  }

  lemma WindowLow(hi: bv64, lo: bv64, bot: bv6)
    requires 16 <= bot < 32
    ensures ((((((hi as bv128) << 64) | (lo as bv128)) << bot) >> 64) & 0xffff_ffff_ffff_ffff) as bv64
         == (hi << bot) | (lo >> (64 - bot as bv8))
  {
  }

  lemma WindowHigh(hi: bv64, lo: bv64, bot: bv6)
    requires 32 <= bot < 48
    ensures ((((((hi as bv128) << 64) | (lo as bv128)) << bot) >> 64) & 0xffff_ffff_ffff_ffff) as bv64
         == (hi << bot) | (lo >> (64 - bot as bv8))
  {
  }

  lemma WindowHighest(hi: bv64, lo: bv64, bot: bv6)
    requires 48 <= bot
    ensures ((((((hi as bv128) << 64) | (lo as bv128)) << bot) >> 64) & 0xffff_ffff_ffff_ffff) as bv64
         == (hi << bot) | (lo >> (64 - bot as bv8))
  {
  }

  lemma WindowAtZero(hi: bv64, lo: bv64)
    ensures Window(hi, lo, 0) == hi
  {
  }

  lemma ShiftedIsWindow(hi: bv64, lo: bv64, bot: bv6)
    ensures Shifted(hi, lo, bot) == Window(hi, lo, bot)
  {
    if bot == 0 {
      WindowAtZero(hi, lo);
    } else if bot < 16 {
      WindowLowest(hi, lo, bot);
    } else if bot < 32 {
      WindowLow(hi, lo, bot);
    } else if bot < 48 {
      WindowHigh(hi, lo, bot);
    } else {
      WindowHighest(hi, lo, bot);
    }
  }

  lemma MixedIsShifted(k0: bv64, k1: bv64)
    ensures Mixed(k0, k1) == Shifted(k0, k1, 8)
  {
  }

  lemma ThirdWordIsXor(k0: bv64, k1: bv64)
    ensures ThirdWord(k0, k1) == k0 ^ Window(k0, k1, 8)
  {
    hide Window, Shifted, Mixed;
    ShiftedIsWindow(k0, k1, 8);
    MixedIsShifted(k0, k1);
  }

  /**
   * Section 4.2 of RFC 7253: Stretch is Ktop || (Ktop[1..64] xor Ktop[9..72]), and the
   * offset is the 128 bits of Stretch that follow its first bot bits.
   */
  function OffsetBits(ktop: Registers, bot: bv6): Registers {
    var third := ktop.l ^ Window(ktop.l, ktop.r, 8);
    Registers(Window(ktop.l, ktop.r, bot), Window(ktop.r, third, bot))
  }

  lemma OffsetRefines(ktop: Registers, bot: bv6)
    ensures GenOffset(MakeStretch(ktop), bot) == OffsetBits(ktop, bot)
  {
    hide Window, Shifted, ThirdWord;
    var k := MakeStretch(ktop);
    ThirdWordIsXor(ktop.l, ktop.r);
    ShiftedIsWindow(k.k0, k.k1, bot);
    ShiftedIsWindow(k.k1, k.k2, bot);
  }
}
