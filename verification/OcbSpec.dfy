/**
 * OCB as sections 4.1, 4.2 and 4.3 of RFC 7253 define it, block by block, with a
 * 96-bit nonce and a 128-bit tag. The functions start from any running offset and
 * block number, so that they also describe the continuation of a message.
 */
module OcbSpec {
  import opened OcbBlocks

  /** The block cipher under one key. */
  datatype Cipher = Cipher(encrypt: Block -> Block, decrypt: Block -> Block)

  ghost predicate Permutation(c: Cipher) {
    && (forall b: Block :: c.decrypt(c.encrypt(b)) == b)
    && (forall b: Block :: c.encrypt(c.decrypt(b)) == b)
  }

  // ---------------------------------------------------------------- key-dependent values

  function LStar(c: Cipher): Block {
    c.encrypt(Zero())
  }

  function LDollar(c: Cipher): Block {
    Doubled(LStar(c))
  }

  function L(c: Cipher, i: nat): Block {
    if i == 0 then Doubled(LDollar(c)) else Doubled(L(c, i - 1))
  }

  /** Number of trailing zero bits. */
  function Ntz(n: nat): nat
    requires 0 < n
  {
    if n % 2 == 1 then 0 else 1 + Ntz(n / 2)
  }

  // ---------------------------------------------------------------- offsets

  function NonceBlock(nonce: seq<bv8>): Block
    requires |nonce| == 12
  {
    [0, 0, 0, 1] + nonce
  }

  function Bottom(b: Block): bv6 {
    (b[15] & 0x3f) as bv6
  }

  function Top(b: Block): Block {
    b[15 := b[15] & 0xc0]
  }

  function InitialOffset(c: Cipher, nonce: seq<bv8>): Block
    requires |nonce| == 12
  {
    var b := NonceBlock(nonce);
    ToMemory(OffsetBits(ToRegisters(c.encrypt(Top(b))), Bottom(b)))
  }

  /** The offset after m more blocks when n blocks led to the offset off. */
  function Offset(c: Cipher, off: Block, n: nat, m: nat): Block {
    if m == 0 then off else Xor(Offset(c, off, n, m - 1), L(c, Ntz(n + m)))
  }

  // ---------------------------------------------------------------- whole blocks

  function BlockAt(p: seq<bv8>, i: nat): Block
    requires 16 * i + 16 <= |p|
  {
    p[16 * i..16 * i + 16]
  }

  function CipherBlock(c: Cipher, off: Block, p: Block): Block {
    Xor(off, c.encrypt(Xor(p, off)))
  }

  function PlainBlock(c: Cipher, off: Block, p: Block): Block {
    Xor(off, c.decrypt(Xor(p, off)))
  }

  function Encrypted(c: Cipher, off: Block, n: nat, p: seq<bv8>, m: nat): (r: seq<bv8>)
    requires 16 * m <= |p|
    ensures |r| == 16 * m
  {
    if m == 0 then [] else
      Encrypted(c, off, n, p, m - 1) + CipherBlock(c, Offset(c, off, n, m), BlockAt(p, m - 1))
  }

  function Decrypted(c: Cipher, off: Block, n: nat, p: seq<bv8>, m: nat): (r: seq<bv8>)
    requires 16 * m <= |p|
    ensures |r| == 16 * m
  {
    if m == 0 then [] else
      Decrypted(c, off, n, p, m - 1) + PlainBlock(c, Offset(c, off, n, m), BlockAt(p, m - 1))
  }

  function Checksum(sum: Block, p: seq<bv8>, m: nat): Block
    requires 16 * m <= |p|
  {
    if m == 0 then sum else Xor(Checksum(sum, p, m - 1), BlockAt(p, m - 1))
  }

  // ---------------------------------------------------------------- last blocks

  function Tail(p: seq<bv8>): (t: seq<bv8>)
    ensures |t| == |p| % 16
  {
    p[|p| / 16 * 16..]
  }

  function Padded(t: seq<bv8>): Block
    requires |t| < 16
  {
    t + [0x80] + seq(15 - |t|, _ => 0)
  }

  function XorPrefix(t: seq<bv8>, pad: Block): (r: seq<bv8>)
    requires |t| <= 16
    ensures |r| == |t|
  {
    seq(|t|, i requires 0 <= i < |t| => t[i] ^ pad[i])
  }

  /** The ciphertext of the rest of a message. */
  function CipherText(c: Cipher, off: Block, n: nat, p: seq<bv8>): (r: seq<bv8>)
    ensures |r| == |p|
  {
    var m := |p| / 16;
    var last := Xor(Offset(c, off, n, m), LStar(c));
    Encrypted(c, off, n, p, m) + XorPrefix(Tail(p), c.encrypt(last))
  }

  /** The plaintext of the rest of a message. */
  function PlainText(c: Cipher, off: Block, n: nat, p: seq<bv8>): (r: seq<bv8>)
    ensures |r| == |p|
  {
    var m := |p| / 16;
    var last := Xor(Offset(c, off, n, m), LStar(c));
    Decrypted(c, off, n, p, m) + XorPrefix(Tail(p), c.encrypt(last))
  }

  /** The tag of a message whose rest is the plaintext p. */
  function Tag(c: Cipher, off: Block, n: nat, sum: Block, p: seq<bv8>, hash: Block): Block {
    var m := |p| / 16;
    var last := Offset(c, off, n, m);
    var total := Checksum(sum, p, m);
    if Tail(p) == [] then
      Xor(c.encrypt(Xor(Xor(total, last), LDollar(c))), hash)
    else
      Xor(c.encrypt(Xor(Xor(Xor(total, Padded(Tail(p))), Xor(last, LStar(c))), LDollar(c))), hash)
  }

  function HashBlocks(c: Cipher, off: Block, n: nat, sum: Block, a: seq<bv8>, m: nat): Block
    requires 16 * m <= |a|
  {
    if m == 0 then sum else
      Xor(HashBlocks(c, off, n, sum, a, m - 1), c.encrypt(Xor(BlockAt(a, m - 1), Offset(c, off, n, m))))
  }

  /** Section 4.1 of RFC 7253, for the rest of the associated data. */
  function HashRest(c: Cipher, off: Block, n: nat, sum: Block, a: seq<bv8>): Block {
    var m := |a| / 16;
    var whole := HashBlocks(c, off, n, sum, a, m);
    if Tail(a) == [] then whole else
      Xor(whole, c.encrypt(Xor(Padded(Tail(a)), Xor(Offset(c, off, n, m), LStar(c)))))
  }

  function Hash(c: Cipher, a: seq<bv8>): Block {
    HashRest(c, Zero(), 0, Zero(), a)
  }

  // ---------------------------------------------------------------- messages

  datatype Sealed = Sealed(text: seq<bv8>, tag: Block)

  /** Section 4.2 of RFC 7253. */
  function Encrypt(c: Cipher, nonce: seq<bv8>, a: seq<bv8>, p: seq<bv8>): Sealed
    requires |nonce| == 12
  {
    var off := InitialOffset(c, nonce);
    Sealed(CipherText(c, off, 0, p), Tag(c, off, 0, Zero(), p, Hash(c, a)))
  }

  datatype Opened = Opened(text: seq<bv8>, valid: bool)

  /** Section 4.3 of RFC 7253; the text is to be used only when it is valid. */
  function Decrypt(c: Cipher, nonce: seq<bv8>, a: seq<bv8>, s: Sealed): Opened
    requires |nonce| == 12
  {
    var off := InitialOffset(c, nonce);
    var p := PlainText(c, off, 0, s.text);
    Opened(p, s.tag == Tag(c, off, 0, Zero(), p, Hash(c, a)))
  }

  // ---------------------------------------------------------------- round trip

  lemma BlockRoundTrip(c: Cipher, off: Block, p: Block)
    requires Permutation(c)
    ensures PlainBlock(c, off, CipherBlock(c, off, p)) == p
    ensures CipherBlock(c, off, PlainBlock(c, off, p)) == p
  {
    hide Xor;
    var e := c.encrypt(Xor(p, off));
    XorCommutes(off, e);
    XorCancels(e, off);
    XorCommutes(p, off);
    XorCancels(p, off);
    var d := c.decrypt(Xor(p, off));
    XorCommutes(off, d);
    XorCancels(d, off);
  }

  lemma LastBlock(x: seq<bv8>, b: Block, m: nat)
    requires |x| == 16 * m
    ensures BlockAt(x + b, m) == b
    ensures (x + b)[..16 * m] == x
  {
  }

  lemma SamePrefix(p: seq<bv8>, q: seq<bv8>, m: nat)
    requires 0 < m && 16 * m <= |p| && 16 * m <= |q| && p[..16 * m] == q[..16 * m]
    ensures BlockAt(p, m - 1) == BlockAt(q, m - 1)
    ensures p[..16 * (m - 1)] == q[..16 * (m - 1)]
  {
    assert BlockAt(p, m - 1) == p[..16 * m][16 * (m - 1)..];
    assert BlockAt(q, m - 1) == q[..16 * m][16 * (m - 1)..];
    assert p[..16 * (m - 1)] == p[..16 * m][..16 * (m - 1)];
    assert q[..16 * (m - 1)] == q[..16 * m][..16 * (m - 1)];
  }

  lemma {:induction false} DecryptedPrefix(c: Cipher, off: Block, n: nat, p: seq<bv8>, q: seq<bv8>, m: nat)
    requires 16 * m <= |p| && 16 * m <= |q| && p[..16 * m] == q[..16 * m]
    ensures Decrypted(c, off, n, p, m) == Decrypted(c, off, n, q, m)
  {
    hide BlockAt, PlainBlock, Offset;
    if m != 0 {
      SamePrefix(p, q, m);
      DecryptedPrefix(c, off, n, p, q, m - 1);
    }
  }

  lemma {:induction false} EncryptedPrefix(c: Cipher, off: Block, n: nat, p: seq<bv8>, q: seq<bv8>, m: nat)
    requires 16 * m <= |p| && 16 * m <= |q| && p[..16 * m] == q[..16 * m]
    ensures Encrypted(c, off, n, p, m) == Encrypted(c, off, n, q, m)
  {
    hide BlockAt, CipherBlock, Offset;
    if m != 0 {
      SamePrefix(p, q, m);
      EncryptedPrefix(c, off, n, p, q, m - 1);
    }
  }

  lemma TakeBlocks(p: seq<bv8>, m: nat)
    requires 0 < m && 16 * m <= |p|
    ensures p[..16 * m] == p[..16 * (m - 1)] + BlockAt(p, m - 1)
  {
  }

  /** Whole blocks: each direction undoes the other. */
  lemma {:induction false} BlocksRoundTrip(c: Cipher, off: Block, n: nat, p: seq<bv8>, m: nat)
    requires Permutation(c) && 16 * m <= |p|
    ensures Decrypted(c, off, n, Encrypted(c, off, n, p, m), m) == p[..16 * m]
    ensures Encrypted(c, off, n, Decrypted(c, off, n, p, m), m) == p[..16 * m]
  {
    hide BlockAt, PlainBlock, CipherBlock, Offset, Permutation;
    if m != 0 {
      var o := Offset(c, off, n, m);
      var b := BlockAt(p, m - 1);
      var e := Encrypted(c, off, n, p, m - 1);
      var d := Decrypted(c, off, n, p, m - 1);
      BlocksRoundTrip(c, off, n, p, m - 1);
      TakeBlocks(p, m);
      BlockRoundTrip(c, o, b);
      LastBlock(e, CipherBlock(c, o, b), m - 1);
      DecryptedPrefix(c, off, n, e + CipherBlock(c, o, b), e, m - 1);
      LastBlock(d, PlainBlock(c, o, b), m - 1);
      EncryptedPrefix(c, off, n, d + PlainBlock(c, o, b), d, m - 1);
    }
  }

  lemma PrefixRoundTrip(t: seq<bv8>, pad: Block)
    requires |t| <= 16
    ensures XorPrefix(XorPrefix(t, pad), pad) == t
  {
    forall i | 0 <= i < |t| ensures XorPrefix(XorPrefix(t, pad), pad)[i] == t[i] {
      ByteXor(t[i], pad[i], 0);
    }
  }

  lemma SplitTail(w: seq<bv8>, t: seq<bv8>, m: nat)
    requires |w| == 16 * m && |t| < 16
    ensures |w + t| / 16 == m
    ensures Tail(w + t) == t
    ensures (w + t)[..16 * m] == w
  {
  }

  lemma WholeAndTail(p: seq<bv8>)
    ensures p[..16 * (|p| / 16)] + Tail(p) == p
  {
  }

  /** Any text is recovered from its ciphertext, a partial last block included, and back. */
  lemma TextRoundTrip(c: Cipher, off: Block, n: nat, p: seq<bv8>)
    requires Permutation(c)
    ensures PlainText(c, off, n, CipherText(c, off, n, p)) == p
    ensures CipherText(c, off, n, PlainText(c, off, n, p)) == p
  {
    hide Decrypted, Encrypted, Offset, Permutation, XorPrefix, Tail, Xor;
    var m := |p| / 16;
    var pad := c.encrypt(Xor(Offset(c, off, n, m), LStar(c)));
    var t := XorPrefix(Tail(p), pad);
    var e := Encrypted(c, off, n, p, m);
    var d := Decrypted(c, off, n, p, m);
    BlocksRoundTrip(c, off, n, p, m);
    PrefixRoundTrip(Tail(p), pad);
    WholeAndTail(p);
    SplitTail(e, t, m);
    DecryptedPrefix(c, off, n, e + t, e, m);
    SplitTail(d, t, m);
    EncryptedPrefix(c, off, n, d + t, d, m);
  }

  /**
   * Decryption of what encryption produced accepts the tag and returns the plaintext,
   * for every nonce, associated data and text.
   */
  lemma RoundTrip(c: Cipher, nonce: seq<bv8>, a: seq<bv8>, p: seq<bv8>)
    requires Permutation(c) && |nonce| == 12
    ensures Decrypt(c, nonce, a, Encrypt(c, nonce, a, p)) == Opened(p, true)
  {
    hide InitialOffset, CipherText, PlainText, Tag, Hash, Permutation;
    TextRoundTrip(c, InitialOffset(c, nonce), 0, p);
  }

  /** A sealed message is accepted exactly when it is the encryption of the text it opens to. */
  lemma AcceptsOnlySealed(c: Cipher, nonce: seq<bv8>, a: seq<bv8>, s: Sealed)
    requires Permutation(c) && |nonce| == 12
    ensures Decrypt(c, nonce, a, s).valid <==> Encrypt(c, nonce, a, Decrypt(c, nonce, a, s).text) == s
  {
    hide InitialOffset, CipherText, PlainText, Tag, Hash, Permutation;
    TextRoundTrip(c, InitialOffset(c, nonce), 0, s.text);
  }

  // ---------------------------------------------------------------- continuation

  lemma BlockAfter(p: seq<bv8>, q: seq<bv8>, m: nat, k: nat)
    requires |p| == 16 * m && 16 * k + 16 <= |q|
    ensures BlockAt(p + q, m + k) == BlockAt(q, k)
  {
    assert (p + q)[16 * (m + k)..16 * (m + k) + 16] == q[16 * k..16 * k + 16];
  }

  lemma {:induction false} OffsetContinues(c: Cipher, off: Block, n: nat, m: nat, k: nat)
    ensures Offset(c, off, n, m + k) == Offset(c, Offset(c, off, n, m), n + m, k)
  {
    hide Xor, L, Ntz;
    if k != 0 {
      OffsetContinues(c, off, n, m, k - 1);
      assert n + (m + k) == (n + m) + k;
    }
  }

  lemma {:induction false} EncryptedContinues(c: Cipher, off: Block, n: nat, p: seq<bv8>, m: nat, q: seq<bv8>, k: nat)
    requires |p| == 16 * m && 16 * k <= |q|
    ensures Encrypted(c, off, n, p + q, m + k)
         == Encrypted(c, off, n, p, m) + Encrypted(c, Offset(c, off, n, m), n + m, q, k)
  {
    hide BlockAt, CipherBlock, Offset;
    if k == 0 {
      assert (p + q)[..16 * m] == p[..16 * m];
      EncryptedPrefix(c, off, n, p + q, p, m);
    } else {
      EncryptedContinues(c, off, n, p, m, q, k - 1);
      BlockAfter(p, q, m, k - 1);
      OffsetContinues(c, off, n, m, k);
    }
  }

  lemma {:induction false} ChecksumContinues(sum: Block, p: seq<bv8>, m: nat, q: seq<bv8>, k: nat)
    requires |p| == 16 * m && 16 * k <= |q|
    ensures Checksum(sum, p + q, m + k) == Checksum(Checksum(sum, p, m), q, k)
  {
    hide BlockAt, Xor;
    if k == 0 {
      assert (p + q)[..16 * m] == p[..16 * m];
      ChecksumPrefix(sum, p + q, p, m);
    } else {
      ChecksumContinues(sum, p, m, q, k - 1);
      BlockAfter(p, q, m, k - 1);
    }
  }

  lemma {:induction false} ChecksumPrefix(sum: Block, p: seq<bv8>, q: seq<bv8>, m: nat)
    requires 16 * m <= |p| && 16 * m <= |q| && p[..16 * m] == q[..16 * m]
    ensures Checksum(sum, p, m) == Checksum(sum, q, m)
  {
    hide BlockAt, Xor;
    if m != 0 {
      SamePrefix(p, q, m);
      ChecksumPrefix(sum, p, q, m - 1);
    }
  }

  lemma {:induction false} HashPrefix(c: Cipher, off: Block, n: nat, sum: Block, p: seq<bv8>, q: seq<bv8>, m: nat)
    requires 16 * m <= |p| && 16 * m <= |q| && p[..16 * m] == q[..16 * m]
    ensures HashBlocks(c, off, n, sum, p, m) == HashBlocks(c, off, n, sum, q, m)
  {
    hide BlockAt, Xor, Offset;
    if m != 0 {
      SamePrefix(p, q, m);
      HashPrefix(c, off, n, sum, p, q, m - 1);
    }
  }

  lemma {:induction false} HashContinues(c: Cipher, off: Block, n: nat, sum: Block, p: seq<bv8>, m: nat,
                                         q: seq<bv8>, k: nat)
    requires |p| == 16 * m && 16 * k <= |q|
    ensures HashBlocks(c, off, n, sum, p + q, m + k)
         == HashBlocks(c, Offset(c, off, n, m), n + m, HashBlocks(c, off, n, sum, p, m), q, k)
  {
    hide BlockAt, Xor, Offset;
    if k == 0 {
      assert (p + q)[..16 * m] == p[..16 * m];
      HashPrefix(c, off, n, sum, p + q, p, m);
    } else {
      HashContinues(c, off, n, sum, p, m, q, k - 1);
      BlockAfter(p, q, m, k - 1);
      OffsetContinues(c, off, n, m, k);
    }
  }

  lemma TailContinues(p: seq<bv8>, m: nat, q: seq<bv8>)
    requires |p| == 16 * m
    ensures |p + q| / 16 == m + |q| / 16
    ensures Tail(p + q) == Tail(q)
  {
  }

  /** The rest of a message may be sealed from the running offset, checksum and block number. */
  lemma MessageContinues(c: Cipher, off: Block, n: nat, sum: Block, p: seq<bv8>, m: nat, q: seq<bv8>, hash: Block)
    requires |p| == 16 * m
    ensures CipherText(c, off, n, p + q)
         == Encrypted(c, off, n, p, m) + CipherText(c, Offset(c, off, n, m), n + m, q)
    ensures Tag(c, off, n, sum, p + q, hash)
         == Tag(c, Offset(c, off, n, m), n + m, Checksum(sum, p, m), q, hash)
  {
    hide Encrypted, Checksum, Offset, Xor, XorPrefix, Tail, Padded, LStar, LDollar;
    var k := |q| / 16;
    TailContinues(p, m, q);
    OffsetContinues(c, off, n, m, k);
    EncryptedContinues(c, off, n, p, m, q, k);
    ChecksumContinues(sum, p, m, q, k);
  }

  lemma HashRestContinues(c: Cipher, off: Block, n: nat, sum: Block, p: seq<bv8>, m: nat, q: seq<bv8>)
    requires |p| == 16 * m
    ensures HashRest(c, off, n, sum, p + q)
         == HashRest(c, Offset(c, off, n, m), n + m, HashBlocks(c, off, n, sum, p, m), q)
  {
    hide HashBlocks, Offset, Xor, Tail, Padded, LStar;
    var k := |q| / 16;
    TailContinues(p, m, q);
    OffsetContinues(c, off, n, m, k);
    HashContinues(c, off, n, sum, p, m, q, k);
  }

  lemma {:induction false} DecryptedContinues(c: Cipher, off: Block, n: nat, p: seq<bv8>, m: nat, q: seq<bv8>, k: nat)
    requires |p| == 16 * m && 16 * k <= |q|
    ensures Decrypted(c, off, n, p + q, m + k)
         == Decrypted(c, off, n, p, m) + Decrypted(c, Offset(c, off, n, m), n + m, q, k)
  {
    hide BlockAt, PlainBlock, Offset;
    if k == 0 {
      assert (p + q)[..16 * m] == p[..16 * m];
      DecryptedPrefix(c, off, n, p + q, p, m);
    } else {
      DecryptedContinues(c, off, n, p, m, q, k - 1);
      BlockAfter(p, q, m, k - 1);
      OffsetContinues(c, off, n, m, k);
    }
  }

  lemma PlainContinues(c: Cipher, off: Block, n: nat, p: seq<bv8>, m: nat, q: seq<bv8>)
    requires |p| == 16 * m
    ensures PlainText(c, off, n, p + q)
         == Decrypted(c, off, n, p, m) + PlainText(c, Offset(c, off, n, m), n + m, q)
  {
    hide Decrypted, Offset, Xor, XorPrefix, Tail, LStar;
    var k := |q| / 16;
    TailContinues(p, m, q);
    OffsetContinues(c, off, n, m, k);
    DecryptedContinues(c, off, n, p, m, q, k);
  }

  /** One call may process the first m blocks of its input in batches and then the rest. */
  lemma MessageSplits(c: Cipher, off: Block, n: nat, sum: Block, p: seq<bv8>, m: nat, hash: Block)
    requires 16 * m <= |p|
    ensures CipherText(c, off, n, p)
         == Encrypted(c, off, n, p, m) + CipherText(c, Offset(c, off, n, m), n + m, p[16 * m..])
    ensures Tag(c, off, n, sum, p, hash)
         == Tag(c, Offset(c, off, n, m), n + m, Checksum(sum, p, m), p[16 * m..], hash)
    ensures PlainText(c, off, n, p)
         == Decrypted(c, off, n, p, m) + PlainText(c, Offset(c, off, n, m), n + m, p[16 * m..])
  {
    hide Encrypted, Decrypted, Checksum, Offset, CipherText, PlainText, Tag;
    var q := p[..16 * m];
    assert p == q + p[16 * m..];
    assert q == q[..16 * m];
    MessageContinues(c, off, n, sum, q, m, p[16 * m..], hash);
    PlainContinues(c, off, n, q, m, p[16 * m..]);
    EncryptedPrefix(c, off, n, p, q, m);
    DecryptedPrefix(c, off, n, p, q, m);
    ChecksumPrefix(sum, p, q, m);
  }

  lemma HashSplits(c: Cipher, off: Block, n: nat, sum: Block, a: seq<bv8>, m: nat)
    requires 16 * m <= |a|
    ensures HashRest(c, off, n, sum, a)
         == HashRest(c, Offset(c, off, n, m), n + m, HashBlocks(c, off, n, sum, a, m), a[16 * m..])
  {
    hide HashRest, HashBlocks, Offset;
    var q := a[..16 * m];
    assert a == q + a[16 * m..];
    assert q == q[..16 * m];
    HashRestContinues(c, off, n, sum, q, m, a[16 * m..]);
    HashPrefix(c, off, n, sum, a, q, m);
  }
}
