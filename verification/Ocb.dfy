/**
 * The optimized OCB implementation (alfalfa/src/crypto/ocb.cc): four blocks per
 * batch, a precomputed table of L values, a cached stretched nonce and calls that
 * may deliver a message in pieces.
 */
module OcbContexts {
  import opened Outcomes
  import opened OcbBlocks
  import opened OcbSpec

  const L_TABLE_SIZE: nat := 16

  /** Texts and associated data must be shorter than this, so that the table of L values suffices. */
  const TEXT_LIMIT: nat := 0x10_0000

  ghost predicate TableOk(c: Cipher, lstar: Block, ldollar: Block, table: seq<Block>) {
    && lstar == LStar(c)
    && ldollar == LDollar(c)
    && |table| == L_TABLE_SIZE
    && forall i: nat | i < L_TABLE_SIZE :: table[i] == L(c, i)
  }

  /** A cached top block other than zero comes with its stretched encryption. */
  ghost predicate CacheOk(c: Cipher, top: Block, stretch: Stretch) {
    top != Zero() ==> stretch == MakeStretch(ToRegisters(c.encrypt(top)))
  }

  // ---------------------------------------------------------------- trailing zeros

  function Pow2(k: nat): nat {
    if k == 0 then 1 else 2 * Pow2(k - 1)
  }

  lemma {:induction false} NtzBound(n: nat, k: nat)
    requires 0 < n < Pow2(k)
    ensures Ntz(n) < k
  {
    if n % 2 == 0 {
      NtzBound(n / 2, k - 1);
    }
  }

  lemma TableSuffices(n: nat)
    requires 0 < n < TEXT_LIMIT / 16
    ensures Ntz(n) < L_TABLE_SIZE
  {
    assert Pow2(4) == 16;
    assert Pow2(8) == 256;
    assert Pow2(12) == 4096;
    assert Pow2(16) == 65536;
    NtzBound(n, 16);
  }

  lemma NtzInBatch(n: nat)
    requires n % 4 == 0
    ensures Ntz(n + 1) == 0 && Ntz(n + 2) == 1 && Ntz(n + 3) == 0
  {
    assert (n + 2) / 2 % 2 == 1;
  }

  lemma BatchOffsets(c: Cipher, off: Block, n: nat)
    requires n % 4 == 0
    ensures Offset(c, off, n, 1) == Xor(off, L(c, 0))
    ensures Offset(c, off, n, 2) == Xor(Offset(c, off, n, 1), L(c, 1))
    ensures Offset(c, off, n, 3) == Xor(Offset(c, off, n, 2), L(c, 0))
    ensures Offset(c, off, n, 4) == Xor(Offset(c, off, n, 3), L(c, Ntz(n + 4)))
  {
    hide Xor, L, Ntz;
    NtzInBatch(n);
  }

  /** The offsets of batch number i, computed from the last offset before it. */
  lemma BatchOffsetsAt(c: Cipher, off: Block, n: nat, m: nat)
    requires n % 4 == 0 && m % 4 == 0
    ensures Offset(c, off, n, m + 1) == Xor(Offset(c, off, n, m), L(c, 0))
    ensures Offset(c, off, n, m + 2) == Xor(Offset(c, off, n, m + 1), L(c, 1))
    ensures Offset(c, off, n, m + 3) == Xor(Offset(c, off, n, m + 2), L(c, 0))
    ensures Offset(c, off, n, m + 4) == Xor(Offset(c, off, n, m + 3), L(c, Ntz(n + m + 4)))
  {
    hide Xor, L, Ntz;
    NtzInBatch(n + m);
    assert n + (m + 4) == n + m + 4;
  }

  lemma FourEncrypted(c: Cipher, off: Block, n: nat, p: seq<bv8>, m: nat)
    requires 16 * (m + 4) <= |p|
    ensures Encrypted(c, off, n, p, m + 4)
         == Encrypted(c, off, n, p, m)
            + CipherBlock(c, Offset(c, off, n, m + 1), BlockAt(p, m))
            + CipherBlock(c, Offset(c, off, n, m + 2), BlockAt(p, m + 1))
            + CipherBlock(c, Offset(c, off, n, m + 3), BlockAt(p, m + 2))
            + CipherBlock(c, Offset(c, off, n, m + 4), BlockAt(p, m + 3))
  {
    hide CipherBlock, Offset, BlockAt;
    assert Encrypted(c, off, n, p, m + 1)
        == Encrypted(c, off, n, p, m) + CipherBlock(c, Offset(c, off, n, m + 1), BlockAt(p, m));
    assert Encrypted(c, off, n, p, m + 2)
        == Encrypted(c, off, n, p, m + 1) + CipherBlock(c, Offset(c, off, n, m + 2), BlockAt(p, m + 1));
    assert Encrypted(c, off, n, p, m + 3)
        == Encrypted(c, off, n, p, m + 2) + CipherBlock(c, Offset(c, off, n, m + 3), BlockAt(p, m + 2));
  }

  lemma FourSummed(sum: Block, p: seq<bv8>, m: nat)
    requires 16 * (m + 4) <= |p|
    ensures Checksum(sum, p, m + 4)
         == Xor(Xor(Xor(Xor(Checksum(sum, p, m), BlockAt(p, m)), BlockAt(p, m + 1)), BlockAt(p, m + 2)),
                BlockAt(p, m + 3))
  {
    hide Xor, BlockAt;
    assert Checksum(sum, p, m + 1) == Xor(Checksum(sum, p, m), BlockAt(p, m));
    assert Checksum(sum, p, m + 2) == Xor(Checksum(sum, p, m + 1), BlockAt(p, m + 1));
    assert Checksum(sum, p, m + 3) == Xor(Checksum(sum, p, m + 2), BlockAt(p, m + 2));
  }

  lemma FourDecrypted(c: Cipher, off: Block, n: nat, p: seq<bv8>, m: nat)
    requires 16 * (m + 4) <= |p|
    ensures Decrypted(c, off, n, p, m + 4)
         == Decrypted(c, off, n, p, m)
            + PlainBlock(c, Offset(c, off, n, m + 1), BlockAt(p, m))
            + PlainBlock(c, Offset(c, off, n, m + 2), BlockAt(p, m + 1))
            + PlainBlock(c, Offset(c, off, n, m + 3), BlockAt(p, m + 2))
            + PlainBlock(c, Offset(c, off, n, m + 4), BlockAt(p, m + 3))
  {
    hide PlainBlock, Offset, BlockAt;
    assert Decrypted(c, off, n, p, m + 1)
        == Decrypted(c, off, n, p, m) + PlainBlock(c, Offset(c, off, n, m + 1), BlockAt(p, m));
    assert Decrypted(c, off, n, p, m + 2)
        == Decrypted(c, off, n, p, m + 1) + PlainBlock(c, Offset(c, off, n, m + 2), BlockAt(p, m + 1));
    assert Decrypted(c, off, n, p, m + 3)
        == Decrypted(c, off, n, p, m + 2) + PlainBlock(c, Offset(c, off, n, m + 3), BlockAt(p, m + 2));
  }

  /** The checksum of a text that grows by four blocks. */
  lemma FourAppended(sum: Block, p: seq<bv8>, m: nat, b0: Block, b1: Block, b2: Block, b3: Block)
    requires |p| == 16 * m
    ensures Checksum(sum, p + b0 + b1 + b2 + b3, m + 4) == Xor(Xor(Xor(Xor(Checksum(sum, p, m), b0), b1), b2), b3)
  {
    hide Xor;
    OneAppended(sum, p, m, b0);
    OneAppended(sum, p + b0, m + 1, b1);
    OneAppended(sum, p + b0 + b1, m + 2, b2);
    OneAppended(sum, p + b0 + b1 + b2, m + 3, b3);
  }

  lemma OneAppended(sum: Block, p: seq<bv8>, m: nat, b: Block)
    requires |p| == 16 * m
    ensures Checksum(sum, p + b, m + 1) == Xor(Checksum(sum, p, m), b)
  {
    hide Xor, BlockAt;
    LastBlock(p, b, m);
    assert (p + b)[..16 * m] == p[..16 * m];
    ChecksumPrefix(sum, p + b, p, m);
  }

  lemma FourHashed(c: Cipher, off: Block, n: nat, sum: Block, a: seq<bv8>, m: nat)
    requires 16 * (m + 4) <= |a|
    ensures HashBlocks(c, off, n, sum, a, m + 4)
         == Xor(Xor(Xor(Xor(HashBlocks(c, off, n, sum, a, m),
              c.encrypt(Xor(BlockAt(a, m), Offset(c, off, n, m + 1)))),
              c.encrypt(Xor(BlockAt(a, m + 1), Offset(c, off, n, m + 2)))),
              c.encrypt(Xor(BlockAt(a, m + 2), Offset(c, off, n, m + 3)))),
              c.encrypt(Xor(BlockAt(a, m + 3), Offset(c, off, n, m + 4))))
  {
    hide Xor, Offset, BlockAt;
    OneHashed(c, off, n, sum, a, m + 1);
    OneHashed(c, off, n, sum, a, m + 2);
    OneHashed(c, off, n, sum, a, m + 3);
  }

  lemma OneHashed(c: Cipher, off: Block, n: nat, sum: Block, a: seq<bv8>, m: nat)
    requires 0 < m && 16 * m <= |a|
    ensures HashBlocks(c, off, n, sum, a, m)
         == Xor(HashBlocks(c, off, n, sum, a, m - 1), c.encrypt(Xor(BlockAt(a, m - 1), Offset(c, off, n, m))))
  {
  }

  /** The third offset of a batch of associated data skips the two L values that cancel. */
  lemma ShortCut(off: Block, l0: Block, l1: Block)
    ensures Xor(Xor(Xor(off, l0), l1), l0) == Xor(off, l1)
  {
    hide Xor;
    XorSwaps(off, l0, l1);
    XorCancels(Xor(off, l1), l0);
  }

  /** The first k blocks of p are masked in ta by their offsets in oa. */
  ghost predicate Masked(c: Cipher, off: Block, n: nat, p: seq<bv8>, k: nat, oa: seq<Block>, ta: seq<Block>)
    requires 16 * k <= |p| && k <= |oa| && k <= |ta|
  {
    forall j: nat | j < k :: oa[j] == Offset(c, off, n, j + 1) && ta[j] == Xor(oa[j], BlockAt(p, j))
  }

  lemma NothingMasked(c: Cipher, off: Block, n: nat, p: seq<bv8>, oa: seq<Block>, ta: seq<Block>)
    ensures Masked(c, off, n, p, 0, oa, ta)
  {
  }

  lemma OneMasked(c: Cipher, off: Block, n: nat, p: seq<bv8>, k: nat, oa: seq<Block>, ta: seq<Block>)
    requires 16 * (k + 1) <= |p| && k < |oa| && k < |ta|
    requires Masked(c, off, n, p, k, oa, ta)
    requires oa[k] == Offset(c, off, n, k + 1) && ta[k] == Xor(oa[k], BlockAt(p, k))
    ensures Masked(c, off, n, p, k + 1, oa, ta)
  {
    hide Xor, BlockAt, Offset;
  }

  lemma MaskedFrame(c: Cipher, off: Block, n: nat, p: seq<bv8>, k: nat, oa: seq<Block>, ta: seq<Block>,
                    oa1: seq<Block>, ta1: seq<Block>)
    requires 16 * k <= |p| && k <= |oa| && k <= |ta| && k <= |oa1| && k <= |ta1|
    requires oa[..k] == oa1[..k] && ta[..k] == ta1[..k]
    requires Masked(c, off, n, p, k, oa, ta)
    ensures Masked(c, off, n, p, k, oa1, ta1)
  {
    hide Xor, BlockAt, Offset;
    forall j: nat | j < k ensures oa1[j] == oa[j] && ta1[j] == ta[j] {
      assert oa1[j] == oa1[..k][j] && ta1[j] == ta1[..k][j];
      assert oa[j] == oa[..k][j] && ta[j] == ta[..k][j];
    }
  }

  lemma OneSummed(sum: Block, p: seq<bv8>, k: nat)
    requires 16 * (k + 1) <= |p|
    ensures Checksum(sum, p, k + 1) == Xor(Checksum(sum, p, k), BlockAt(p, k))
  {
  }

  /** The first k blocks of p are enciphered in ta and still masked by oa. */
  ghost predicate Enciphered(c: Cipher, off: Block, n: nat, p: seq<bv8>, k: nat, oa: seq<Block>, ta: seq<Block>)
    requires 16 * k <= |p| && k <= |oa| && k <= |ta|
  {
    forall j: nat | j < k :: Xor(ta[j], oa[j]) == CipherBlock(c, Offset(c, off, n, j + 1), BlockAt(p, j))
  }

  lemma AllEnciphered(c: Cipher, off: Block, n: nat, p: seq<bv8>, k: nat, oa: seq<Block>, ta0: seq<Block>,
                      ta: seq<Block>)
    requires 16 * k <= |p| && k <= |oa| && k <= |ta0| && |ta| == |ta0|
    requires Masked(c, off, n, p, k, oa, ta0)
    requires forall j: nat | j < k :: ta[j] == c.encrypt(ta0[j])
    ensures Enciphered(c, off, n, p, k, oa, ta)
  {
    hide Xor, BlockAt, Offset, CipherBlock;
    forall j: nat | j < k ensures Xor(ta[j], oa[j]) == CipherBlock(c, Offset(c, off, n, j + 1), BlockAt(p, j)) {
      UnmaskCipher(c, oa[j], BlockAt(p, j));
    }
  }

  lemma TagInput(last: Block, dollar: Block, total: Block)
    ensures Xor(Xor(last, dollar), total) == Xor(Xor(total, last), dollar)
  {
    hide Xor;
    XorSwaps(last, dollar, total);
    XorCommutes(last, total);
  }

  lemma PartialCipher(t: seq<bv8>, pad: Block)
    requires |t| < 16
    ensures Xor(Padded(t), pad)[..|t|] == XorPrefix(t, pad)
  {
  }

  lemma NoPartial(pad: Block)
    ensures XorPrefix([], pad) == []
  {
  }

  ghost predicate Deciphered(c: Cipher, off: Block, n: nat, p: seq<bv8>, k: nat, oa: seq<Block>, ta: seq<Block>)
    requires 16 * k <= |p| && k <= |oa| && k <= |ta|
  {
    forall j: nat | j < k :: Xor(ta[j], oa[j]) == PlainBlock(c, Offset(c, off, n, j + 1), BlockAt(p, j))
  }

  lemma AllDeciphered(c: Cipher, off: Block, n: nat, p: seq<bv8>, k: nat, oa: seq<Block>, ta0: seq<Block>,
                      ta: seq<Block>)
    requires 16 * k <= |p| && k <= |oa| && k <= |ta0| && |ta| == |ta0|
    requires Masked(c, off, n, p, k, oa, ta0)
    requires forall j: nat | j < k :: ta[j] == c.decrypt(ta0[j])
    ensures Deciphered(c, off, n, p, k, oa, ta)
  {
    hide Xor, BlockAt, Offset, PlainBlock;
    forall j: nat | j < k ensures Xor(ta[j], oa[j]) == PlainBlock(c, Offset(c, off, n, j + 1), BlockAt(p, j)) {
      UnmaskPlain(c, oa[j], BlockAt(p, j));
    }
  }

  ghost predicate Hashed(c: Cipher, off: Block, n: nat, a: seq<bv8>, k: nat, ta: seq<Block>)
    requires 16 * k <= |a| && k <= |ta|
  {
    forall j: nat | j < k :: ta[j] == c.encrypt(Xor(BlockAt(a, j), Offset(c, off, n, j + 1)))
  }

  lemma AllHashed(c: Cipher, off: Block, n: nat, a: seq<bv8>, k: nat, oa: seq<Block>, ta0: seq<Block>, ta: seq<Block>)
    requires 16 * k <= |a| && k <= |oa| && k <= |ta0| && |ta| == |ta0|
    requires Masked(c, off, n, a, k, oa, ta0)
    requires forall j: nat | j < k :: ta[j] == c.encrypt(ta0[j])
    ensures Hashed(c, off, n, a, k, ta)
  {
    hide Xor, BlockAt, Offset;
    forall j: nat | j < k ensures ta[j] == c.encrypt(Xor(BlockAt(a, j), Offset(c, off, n, j + 1))) {
      XorCommutes(oa[j], BlockAt(a, j));
    }
  }

  lemma BlockWithin(x: seq<bv8>, b: Block, y: seq<bv8>, j: nat)
    requires |x| == 16 * j
    ensures x + (b + y) == x + b + y
    ensures BlockAt(x + b + y, j) == b
  {
  }

  /** A term may enter a checksum first or last. */
  lemma {:induction false} ChecksumShift(sum: Block, t: Block, p: seq<bv8>, m: nat)
    requires 16 * m <= |p|
    ensures Checksum(Xor(sum, t), p, m) == Xor(Checksum(sum, p, m), t)
  {
    hide Xor, BlockAt;
    if m != 0 {
      ChecksumShift(sum, t, p, m - 1);
      XorSwaps(Checksum(sum, p, m - 1), t, BlockAt(p, m - 1));
    }
  }

  lemma {:induction false} HashShift(c: Cipher, off: Block, n: nat, sum: Block, t: Block, a: seq<bv8>, m: nat)
    requires 16 * m <= |a|
    ensures HashBlocks(c, off, n, Xor(sum, t), a, m) == Xor(HashBlocks(c, off, n, sum, a, m), t)
  {
    hide Xor, BlockAt, Offset;
    if m != 0 {
      HashShift(c, off, n, sum, t, a, m - 1);
      XorSwaps(HashBlocks(c, off, n, sum, a, m - 1), t, c.encrypt(Xor(BlockAt(a, m - 1), Offset(c, off, n, m))));
    }
  }

  /** The pad left behind the partial block cancels itself. */
  lemma PartialPlain(t: seq<bv8>, pad: Block)
    requires |t| < 16
    ensures Xor(t + pad[|t|..], pad)[|t| := 0x80] == Padded(XorPrefix(t, pad))
    ensures Xor(t + pad[|t|..], pad)[|t| := 0x80][..|t|] == XorPrefix(t, pad)
  {
    var x := Xor(t + pad[|t|..], pad)[|t| := 0x80];
    forall i | |t| < i < 16 ensures x[i] == 0 { ByteXor(pad[i], pad[i], 0); assert pad[i] ^ pad[i] == 0; }
  }

  /** The running values of a message whose plaintext and ciphertext so far are plain and coded. */
  ghost predicate MessageOk(c: Cipher, nonce: seq<bv8>, plain: seq<bv8>, coded: seq<bv8>,
                            blocks: nat, offset: Block, checksum: Block)
  {
    && |nonce| == 12
    && blocks % 4 == 0
    && |plain| == 16 * blocks
    && offset == Offset(c, InitialOffset(c, nonce), 0, blocks)
    && checksum == Checksum(Zero(), plain, blocks)
    && coded == Encrypted(c, InitialOffset(c, nonce), 0, plain, blocks)
  }

  ghost predicate AdOk(c: Cipher, ad: seq<bv8>, adOpen: bool, adBlocks: nat, adOffset: Block, adChecksum: Block) {
    && adChecksum == Hash(c, ad)
    && (adOpen ==>
          && adBlocks % 4 == 0
          && |ad| == 16 * adBlocks
          && adOffset == Offset(c, Zero(), 0, adBlocks))
  }

  lemma MessageStarts(c: Cipher, nonce: seq<bv8>)
    requires |nonce| == 12
    ensures MessageOk(c, nonce, [], [], 0, InitialOffset(c, nonce), Zero())
  {
    hide InitialOffset, Zero;
  }

  lemma AdStarts(c: Cipher)
    ensures AdOk(c, [], true, 0, Zero(), Zero())
  {
    hide Zero;
  }

  lemma MessageShape(c: Cipher, nonce: seq<bv8>, plain: seq<bv8>, coded: seq<bv8>,
                     blocks: nat, offset: Block, checksum: Block)
    requires MessageOk(c, nonce, plain, coded, blocks, offset, checksum)
    ensures |nonce| == 12 && blocks % 4 == 0 && |plain| == 16 * blocks
  {
  }

  lemma AdShape(c: Cipher, ad: seq<bv8>, adOpen: bool, adBlocks: nat, adOffset: Block, adChecksum: Block)
    requires AdOk(c, ad, adOpen, adBlocks, adOffset, adChecksum)
    ensures adChecksum == Hash(c, ad)
  {
  }

  lemma AdCloses(c: Cipher, ad: seq<bv8>, adOpen: bool, adBlocks: nat, adOffset: Block, adChecksum: Block)
    requires AdOk(c, ad, adOpen, adBlocks, adOffset, adChecksum)
    ensures AdOk(c, ad, false, 0, Zero(), adChecksum)
  {
  }

  /** Another piece of whole batches. */
  lemma MessageGrows(c: Cipher, nonce: seq<bv8>, plain: seq<bv8>, coded: seq<bv8>, blocks: nat, offset: Block,
                     checksum: Block,
                     p: seq<bv8>, m: nat)
    requires MessageOk(c, nonce, plain, coded, blocks, offset, checksum)
    requires |p| == 16 * m && m % 4 == 0
    ensures MessageOk(c, nonce, plain + p, coded + Encrypted(c, offset, blocks, p, m),
                      blocks + m, Offset(c, offset, blocks, m), Checksum(checksum, p, m))
  {
    hide InitialOffset, Zero, Offset, Encrypted, Checksum;
    var off := InitialOffset(c, nonce);
    OffsetContinues(c, off, 0, blocks, m);
    EncryptedContinues(c, off, 0, plain, blocks, p, m);
    ChecksumContinues(Zero(), plain, blocks, p, m);
  }

  /** The last piece. */
  lemma MessageEnds(c: Cipher, nonce: seq<bv8>, plain: seq<bv8>, coded: seq<bv8>, blocks: nat, offset: Block,
                    checksum: Block,
                    ad: seq<bv8>, p: seq<bv8>)
    requires MessageOk(c, nonce, plain, coded, blocks, offset, checksum)
    ensures |nonce| == 12
    ensures Encrypt(c, nonce, ad, plain + p)
         == Sealed(coded + CipherText(c, offset, blocks, p), Tag(c, offset, blocks, checksum, p, Hash(c, ad)))
  {
    hide InitialOffset, Zero, Offset, Encrypted, Checksum, CipherText, Tag, Hash;
    MessageContinues(c, InitialOffset(c, nonce), 0, Zero(), plain, blocks, p, Hash(c, ad));
  }

  lemma WholeBatches(size: nat)
    requires size % 64 == 0
    ensures size / 16 % 4 == 0 && 16 * (size / 16) == size
  {
  }

  /** Another piece of whole batches, decrypted. */
  lemma MessageOpensSoFar(c: Cipher, nonce: seq<bv8>, plain: seq<bv8>, coded: seq<bv8>, blocks: nat, offset: Block,
                          checksum: Block, ct: seq<bv8>, m: nat)
    requires Permutation(c)
    requires MessageOk(c, nonce, plain, coded, blocks, offset, checksum)
    requires |ct| == 16 * m && m % 4 == 0
    ensures var p := Decrypted(c, offset, blocks, ct, m);
      MessageOk(c, nonce, plain + p, coded + ct, blocks + m, Offset(c, offset, blocks, m), Checksum(checksum, p, m))
  {
    hide MessageOk, Offset, Encrypted, Decrypted, Checksum, Permutation;
    BlocksRoundTrip(c, offset, blocks, ct, m);
    assert ct[..16 * m] == ct;
    MessageGrows(c, nonce, plain, coded, blocks, offset, checksum, Decrypted(c, offset, blocks, ct, m), m);
  }

  /** The text decrypts to plain, and is accepted under this tag only. */
  ghost predicate OpensTo(c: Cipher, nonce: seq<bv8>, ad: seq<bv8>, text: seq<bv8>, plain: seq<bv8>, tag: Block)
    requires |nonce| == 12
  {
    forall proposed: Block ::
      OcbSpec.Decrypt(c, nonce, ad, Sealed(text, proposed)) == Opened(plain, proposed == tag)
  }

  /** The last piece, decrypted: the text opens to the plaintext, under its own tag only. */
  lemma MessageOpens(c: Cipher, nonce: seq<bv8>, plain: seq<bv8>, coded: seq<bv8>, blocks: nat, offset: Block,
                     checksum: Block,
                     ad: seq<bv8>, ct: seq<bv8>)
    requires Permutation(c)
    requires MessageOk(c, nonce, plain, coded, blocks, offset, checksum)
    ensures |nonce| == 12
    ensures var p := PlainText(c, offset, blocks, ct);
      OpensTo(c, nonce, ad, coded + ct, plain + p, Tag(c, offset, blocks, checksum, p, Hash(c, ad)))
  {
    hide InitialOffset, Zero, Offset, Encrypted, Checksum, CipherText, PlainText, Tag, Hash, Permutation;
    var off := InitialOffset(c, nonce);
    var p := PlainText(c, offset, blocks, ct);
    MessageContinues(c, off, 0, Zero(), plain, blocks, p, Hash(c, ad));
    TextRoundTrip(c, offset, blocks, ct);
    TextRoundTrip(c, off, 0, plain + p);
  }

  const AE_INVALID: int := -1

  /** The bytes of ct that are text; a last piece without a separate tag ends with its tag. */
  function TextSize(ct: seq<bv8>, tag: Option<Block>, final: bool): nat
    requires final && tag.None? ==> 16 <= |ct|
  {
    if final && tag.None? then |ct| - 16 else |ct|
  }

  lemma AdGrows(c: Cipher, ad: seq<bv8>, adBlocks: nat, adOffset: Block, adChecksum: Block, a: seq<bv8>)
    requires AdOk(c, ad, true, adBlocks, adOffset, adChecksum)
    ensures HashRest(c, adOffset, adBlocks, adChecksum, a) == Hash(c, ad + a)
    ensures Offset(c, adOffset, adBlocks, |a| / 16) == Offset(c, Zero(), 0, adBlocks + |a| / 16)
  {
    hide Zero, Offset, HashBlocks, HashRest;
    WholeHash(c, ad, adBlocks);
    HashRestContinues(c, Zero(), 0, Zero(), ad, adBlocks, a);
    OffsetContinues(c, Zero(), 0, adBlocks, |a| / 16);
  }

  lemma WholeHash(c: Cipher, a: seq<bv8>, m: nat)
    requires |a| == 16 * m
    ensures Hash(c, a) == HashBlocks(c, Zero(), 0, Zero(), a, m)
  {
    hide Zero, Offset, HashBlocks, Xor, Padded;
  }

  function BatchedBlocks(size: nat): (m: nat)
    ensures m % 4 == 0 && 16 * m <= size < 16 * m + 64
    ensures size % 64 == 0 ==> m == size / 16
  {
    size / 64 * 4
  }

  lemma HashOfNothing(c: Cipher, off: Block, n: nat, sum: Block)
    ensures HashRest(c, off, n, sum, []) == sum
  {
  }

  class Context {
    const cipher: Cipher
    var lstar: Block
    var ldollar: Block
    var table: seq<Block>
    var cachedTop: Block
    var ktopStr: Stretch
    var offset: Block
    var checksum: Block
    var blocks: nat
    var adOffset: Block
    var adChecksum: Block
    var adBlocks: nat

    // The message in progress: its nonce, and the plaintext and ciphertext so far.
    ghost var open: bool
    ghost var nonce: seq<bv8>
    ghost var plain: seq<bv8>
    ghost var coded: seq<bv8>

    // The associated data so far, and whether more may follow.
    ghost var adOpen: bool
    ghost var ad: seq<bv8>

    ghost predicate Valid()
      reads this
    {
      && Permutation(cipher)
      && KeyOk()
      && (open ==> MessageOk(cipher, nonce, plain, coded, blocks, offset, checksum))
      && AdOk(cipher, ad, adOpen, adBlocks, adOffset, adChecksum)
    }

    ghost predicate KeyOk()
      reads this`lstar, this`ldollar, this`table, this`cachedTop, this`ktopStr
    {
      TableOk(cipher, lstar, ldollar, table) && CacheOk(cipher, cachedTop, ktopStr)
    }

    constructor (c: Cipher)
      requires Permutation(c)
      ensures cipher == c && Valid() && !open && ad == []
    {
      hide L, Doubled, DoubleBlock, Zero, Permutation;
      open, adOpen, ad := false, false, [];
      HashOfNothing(c, Zero(), 0, Zero());
      cipher := c;
      cachedTop, adChecksum := Zero(), Zero();
      adBlocks := 0;
      ktopStr := Stretch(0, 0, 0);
      var star := c.encrypt(Zero());
      lstar := star;
      var dollar := DoubleBlock(star);
      DoubleBlockRefines(star);
      ldollar := dollar;
      var tmp := DoubleBlock(dollar);
      DoubleBlockRefines(dollar);
      var t: seq<Block> := [tmp];
      assert tmp == L(c, 0) by { FirstL(c); }
      while |t| < L_TABLE_SIZE
        invariant 1 <= |t| <= L_TABLE_SIZE
        invariant tmp == L(c, |t| - 1)
        invariant forall i: nat | i < |t| :: t[i] == L(c, i)
      {
        DoubleBlockRefines(tmp);
        NextL(c, |t|);
        tmp := DoubleBlock(tmp);
        t := t + [tmp];
      }
      table := t;
    }

    method GenOffsetFromNonce(nonce: seq<bv8>) returns (off: Block)
      requires KeyOk() && |nonce| == 12
      modifies this`cachedTop, this`ktopStr
      ensures KeyOk()
      ensures off == InitialOffset(cipher, nonce)
    {
      hide TableOk, MakeStretch, ToRegisters, ToMemory, GenOffset, OffsetBits;
      var tmp := [0, 0, 0, 1] + nonce;
      var idx := (tmp[15] & 0x3f) as bv6;
      tmp := tmp[15 := tmp[15] & 0xc0];
      assert tmp == Top(NonceBlock(nonce)) && idx == Bottom(NonceBlock(nonce));
      assert tmp[3] == 1;
      if tmp != cachedTop {
        cachedTop := tmp;
        ktopStr := MakeStretch(ToRegisters(cipher.encrypt(tmp)));
      }
      assert tmp != Zero();
      OffsetRefines(ToRegisters(cipher.encrypt(tmp)), idx);
      off := ToMemory(GenOffset(ktopStr, idx));
    }

    method EcbEncrypt(blks: array<Block>, n: nat)
      requires n <= blks.Length
      modifies blks
      ensures forall i | 0 <= i < n :: blks[i] == cipher.encrypt(old(blks[i]))
      ensures forall i | n <= i < blks.Length :: blks[i] == old(blks[i])
    {
      var k := n;
      while k != 0
        invariant 0 <= k <= n
        invariant forall i | k <= i < n :: blks[i] == cipher.encrypt(old(blks[i]))
        invariant forall i | 0 <= i < k || n <= i < blks.Length :: blks[i] == old(blks[i])
      {
        k := k - 1;
        blks[k] := cipher.encrypt(blks[k]);
      }
    }

    method EcbDecrypt(blks: array<Block>, n: nat)
      requires n <= blks.Length
      modifies blks
      ensures forall i | 0 <= i < n :: blks[i] == cipher.decrypt(old(blks[i]))
      ensures forall i | n <= i < blks.Length :: blks[i] == old(blks[i])
    {
      var k := n;
      while k != 0
        invariant 0 <= k <= n
        invariant forall i | k <= i < n :: blks[i] == cipher.decrypt(old(blks[i]))
        invariant forall i | 0 <= i < k || n <= i < blks.Length :: blks[i] == old(blks[i])
      {
        k := k - 1;
        blks[k] := cipher.decrypt(blks[k]);
      }
    }

    /** One batch: the offsets of its four blocks, and the blocks masked by them. */
    method MaskBatch(prev: Block, num: nat, p: seq<bv8>, m: nat) returns (oa: array<Block>, ta: array<Block>)
      requires TableOk(cipher, lstar, ldollar, table)
      requires 0 < num < TEXT_LIMIT / 16
      requires 16 * (m + 4) <= |p|
      ensures fresh(oa) && fresh(ta) && oa.Length == 4 && ta.Length == 4 && oa != ta
      ensures oa[0] == Xor(prev, L(cipher, 0))
      ensures oa[1] == Xor(oa[0], L(cipher, 1))
      ensures oa[2] == Xor(oa[1], L(cipher, 0))
      ensures oa[3] == Xor(oa[2], L(cipher, Ntz(num)))
      ensures forall i: nat | i < 4 :: ta[i] == Xor(oa[i], BlockAt(p, m + i))
    {
      hide Xor, L, Ntz, BlockAt;
      TableSuffices(num);
      var o0 := Xor(prev, table[0]);
      var o1 := Xor(o0, table[1]);
      var o2 := Xor(o1, table[0]);
      var o3 := Xor(o2, table[Ntz(num)]);
      oa := new Block[] [o0, o1, o2, o3];
      ta := new Block[] [Xor(o0, BlockAt(p, m)), Xor(o1, BlockAt(p, m + 1)),
                         Xor(o2, BlockAt(p, m + 2)), Xor(o3, BlockAt(p, m + 3))];
    }

    method EncryptBatches(pt: seq<bv8>) returns (ct: seq<bv8>)
      requires TableOk(cipher, lstar, ldollar, table)
      requires blocks % 4 == 0 && 16 * blocks + |pt| < TEXT_LIMIT
      modifies this`offset, this`checksum, this`blocks
      ensures var m := BatchedBlocks(|pt|);
        && blocks == old(blocks) + m
        && offset == Offset(cipher, old(offset), old(blocks), m)
        && checksum == Checksum(old(checksum), pt, m)
        && ct == Encrypted(cipher, old(offset), old(blocks), pt, m)
    {
      hide TableOk, Xor, L, Ntz, BlockAt, Offset, Encrypted, Checksum, CipherBlock;
      ct := [];
      var off, sum, num, m := offset, checksum, blocks, 0;
      ghost var off0, sum0, num0 := off, sum, num;
      NothingYet(cipher, off, num, sum, pt);
      while m < BatchedBlocks(|pt|)
        invariant m <= BatchedBlocks(|pt|) && m % 4 == 0
        invariant num == num0 + m
        invariant off == Offset(cipher, off0, num0, m)
        invariant sum == Checksum(sum0, pt, m)
        invariant ct == Encrypted(cipher, off0, num0, pt, m)
      {
        num := num + 4;
        var oa, ta := MaskBatch(off, num, pt, m);
        BatchOffsetsAt(cipher, off0, num0, m);
        sum := Xor(Xor(Xor(Xor(sum, BlockAt(pt, m)), BlockAt(pt, m + 1)), BlockAt(pt, m + 2)), BlockAt(pt, m + 3));
        FourSummed(sum0, pt, m);
        var out := EncryptMasked(oa, ta, pt, m);
        FourEncrypted(cipher, off0, num0, pt, m);
        ct := ct + out;
        off := oa[3];
        m := m + 4;
      }
      offset, blocks, checksum := off, num, sum;
    }

    method EncryptMasked(oa: array<Block>, ta: array<Block>, ghost p: seq<bv8>, ghost m: nat) returns (out: seq<bv8>)
      requires oa.Length == 4 && ta.Length == 4 && oa != ta
      requires 16 * (m + 4) <= |p|
      requires forall i: nat | i < 4 :: ta[i] == Xor(oa[i], BlockAt(p, m + i))
      modifies ta
      ensures out == CipherBlock(cipher, oa[0], BlockAt(p, m)) + CipherBlock(cipher, oa[1], BlockAt(p, m + 1))
                     + CipherBlock(cipher, oa[2], BlockAt(p, m + 2)) + CipherBlock(cipher, oa[3], BlockAt(p, m + 3))
    {
      hide Xor, BlockAt, CipherBlock;
      EcbEncrypt(ta, 4);
      forall i: nat | i < 4 ensures Xor(ta[i], oa[i]) == CipherBlock(cipher, oa[i], BlockAt(p, m + i)) {
        UnmaskCipher(cipher, oa[i], BlockAt(p, m + i));
      }
      out := Xor(ta[0], oa[0]) + Xor(ta[1], oa[1]) + Xor(ta[2], oa[2]) + Xor(ta[3], oa[3]);
    }

    method DecryptBatches(ct: seq<bv8>) returns (pt: seq<bv8>)
      requires TableOk(cipher, lstar, ldollar, table)
      requires blocks % 4 == 0 && 16 * blocks + |ct| < TEXT_LIMIT
      modifies this`offset, this`checksum, this`blocks
      ensures var m := BatchedBlocks(|ct|);
        && blocks == old(blocks) + m
        && offset == Offset(cipher, old(offset), old(blocks), m)
        && pt == Decrypted(cipher, old(offset), old(blocks), ct, m)
        && checksum == Checksum(old(checksum), pt, m)
    {
      hide TableOk, Xor, L, Ntz, BlockAt, Offset, Decrypted, Checksum, PlainBlock;
      pt := [];
      var off, sum, num, m := offset, checksum, blocks, 0;
      ghost var off0, sum0, num0 := off, sum, num;
      NothingYet(cipher, off, num, sum, ct);
      NothingYet(cipher, off, num, sum, pt);
      while m < BatchedBlocks(|ct|)
        invariant m <= BatchedBlocks(|ct|) && m % 4 == 0
        invariant num == num0 + m
        invariant off == Offset(cipher, off0, num0, m)
        invariant pt == Decrypted(cipher, off0, num0, ct, m)
        invariant sum == Checksum(sum0, pt, m)
      {
        num := num + 4;
        var oa, ta := MaskBatch(off, num, ct, m);
        BatchOffsetsAt(cipher, off0, num0, m);
        var b0, b1, b2, b3 := DecryptMasked(oa, ta, ct, m);
        FourDecrypted(cipher, off0, num0, ct, m);
        FourAppended(sum0, pt, m, b0, b1, b2, b3);
        pt := pt + b0 + b1 + b2 + b3;
        sum := Xor(Xor(Xor(Xor(sum, b0), b1), b2), b3);
        off := oa[3];
        m := m + 4;
      }
      offset, blocks, checksum := off, num, sum;
    }

    method DecryptMasked(oa: array<Block>, ta: array<Block>, ghost p: seq<bv8>, ghost m: nat)
      returns (b0: Block, b1: Block, b2: Block, b3: Block)
      requires oa.Length == 4 && ta.Length == 4 && oa != ta
      requires 16 * (m + 4) <= |p|
      requires forall i: nat | i < 4 :: ta[i] == Xor(oa[i], BlockAt(p, m + i))
      modifies ta
      ensures b0 == PlainBlock(cipher, oa[0], BlockAt(p, m))
      ensures b1 == PlainBlock(cipher, oa[1], BlockAt(p, m + 1))
      ensures b2 == PlainBlock(cipher, oa[2], BlockAt(p, m + 2))
      ensures b3 == PlainBlock(cipher, oa[3], BlockAt(p, m + 3))
    {
      hide Xor, BlockAt, PlainBlock;
      EcbDecrypt(ta, 4);
      forall i: nat | i < 4 ensures Xor(ta[i], oa[i]) == PlainBlock(cipher, oa[i], BlockAt(p, m + i)) {
        UnmaskPlain(cipher, oa[i], BlockAt(p, m + i));
      }
      b0, b1, b2, b3 := Xor(ta[0], oa[0]), Xor(ta[1], oa[1]), Xor(ta[2], oa[2]), Xor(ta[3], oa[3]);
    }

    /** One batch of associated data, masked and enciphered. */
    method HashBatch(prev: Block, num: nat, a: seq<bv8>, m: nat) returns (last: Block, ta: array<Block>)
      requires TableOk(cipher, lstar, ldollar, table)
      requires 0 < num < TEXT_LIMIT / 16
      requires 16 * (m + 4) <= |a|
      ensures fresh(ta) && ta.Length == 4
      ensures var o0 := Xor(prev, L(cipher, 0));
        var o1 := Xor(o0, L(cipher, 1));
        var o2 := Xor(o1, L(cipher, 0));
        && last == Xor(o2, L(cipher, Ntz(num)))
        && ta[0] == cipher.encrypt(Xor(BlockAt(a, m), o0))
        && ta[1] == cipher.encrypt(Xor(BlockAt(a, m + 1), o1))
        && ta[2] == cipher.encrypt(Xor(BlockAt(a, m + 2), o2))
        && ta[3] == cipher.encrypt(Xor(BlockAt(a, m + 3), last))
    {
      hide Xor, L, Ntz, BlockAt;
      TableSuffices(num);
      var o0 := Xor(prev, table[0]);
      var o1 := Xor(o0, table[1]);
      var o2 := Xor(prev, table[1]);
      ShortCut(prev, table[0], table[1]);
      last := Xor(o2, table[Ntz(num)]);
      ta := new Block[] [Xor(o0, BlockAt(a, m)), Xor(o1, BlockAt(a, m + 1)),
                         Xor(o2, BlockAt(a, m + 2)), Xor(last, BlockAt(a, m + 3))];
      XorCommutes(o0, BlockAt(a, m));
      XorCommutes(o1, BlockAt(a, m + 1));
      XorCommutes(o2, BlockAt(a, m + 2));
      XorCommutes(last, BlockAt(a, m + 3));
      EcbEncrypt(ta, 4);
    }

    method HashBatches(a: seq<bv8>)
      requires TableOk(cipher, lstar, ldollar, table)
      requires adBlocks % 4 == 0 && 16 * adBlocks + |a| < TEXT_LIMIT
      modifies this`adOffset, this`adChecksum, this`adBlocks
      ensures var m := BatchedBlocks(|a|);
        && adBlocks == old(adBlocks) + m
        && adOffset == Offset(cipher, old(adOffset), old(adBlocks), m)
        && adChecksum == HashBlocks(cipher, old(adOffset), old(adBlocks), old(adChecksum), a, m)
    {
      hide TableOk, Xor, L, Ntz, BlockAt, Offset, HashBlocks;
      var off, sum, num, m := adOffset, adChecksum, adBlocks, 0;
      ghost var off0, sum0, num0 := off, sum, num;
      NothingYet(cipher, off, num, sum, a);
      while m < BatchedBlocks(|a|)
        invariant m <= BatchedBlocks(|a|) && m % 4 == 0
        invariant num == num0 + m
        invariant off == Offset(cipher, off0, num0, m)
        invariant sum == HashBlocks(cipher, off0, num0, sum0, a, m)
      {
        num := num + 4;
        var last, ta := HashBatch(off, num, a, m);
        BatchOffsetsAt(cipher, off0, num0, m);
        sum := Xor(Xor(Xor(Xor(sum, ta[0]), ta[1]), ta[2]), ta[3]);
        FourHashed(cipher, off0, num0, sum0, a, m);
        off := last;
        m := m + 4;
      }
      adOffset, adBlocks, adChecksum := off, num, sum;
    }

    /**
     * The whole blocks among the last fewer than 64 bytes: their offsets, the blocks masked
     * by them, the offset reached and the checksum with these blocks added.
     */
    method FillTail(p: seq<bv8>, off: Block, sum: Block, ghost n: nat)
      returns (k: nat, last: Block, total: Block, oa: array<Block>, ta: array<Block>)
      requires TableOk(cipher, lstar, ldollar, table)
      requires n % 4 == 0 && |p| < 64
      ensures fresh(oa) && fresh(ta) && oa != ta && oa.Length == 4 && ta.Length == 5
      ensures k == |p| / 16 && k < 4
      ensures last == Offset(cipher, off, n, k)
      ensures total == Checksum(sum, p, k)
      ensures Masked(cipher, off, n, p, k, oa[..], ta[..])
    {
      hide Xor, L, Ntz, BlockAt, Offset, Checksum, Masked;
      oa := new Block[4](_ => Zero());
      ta := new Block[5](_ => Zero());
      k, last, total := 0, off, sum;
      BatchOffsets(cipher, off, n);
      NothingYet(cipher, off, n, sum, p);
      NothingMasked(cipher, off, n, p, oa[..], ta[..]);
      var remaining := |p|;
      if remaining >= 32 {
        last := Xor(last, table[0]);
        total := MaskOne(p, 0, last, total, oa, ta, off, n, sum);
        last := Xor(last, table[1]);
        total := MaskOne(p, 1, last, total, oa, ta, off, n, sum);
        remaining := remaining - 32;
        k := 2;
      }
      if remaining >= 16 {
        last := Xor(last, table[0]);
        total := MaskOne(p, k, last, total, oa, ta, off, n, sum);
        k := k + 1;
      }
    }

    method MaskOne(p: seq<bv8>, k: nat, o: Block, total: Block, oa: array<Block>, ta: array<Block>,
                   ghost off: Block, ghost n: nat, ghost sum: Block)
      returns (more: Block)
      requires oa != ta && oa.Length == 4 && ta.Length == 5
      requires 16 * (k + 1) <= |p| && k < 4
      requires Masked(cipher, off, n, p, k, oa[..], ta[..])
      requires o == Offset(cipher, off, n, k + 1) && total == Checksum(sum, p, k)
      modifies oa, ta
      ensures Masked(cipher, off, n, p, k + 1, oa[..], ta[..])
      ensures more == Checksum(sum, p, k + 1)
    {
      hide Xor, BlockAt, Offset, Checksum, Masked;
      ghost var oa0, ta0 := oa[..], ta[..];
      oa[k] := o;
      ta[k] := Xor(o, BlockAt(p, k));
      more := Xor(total, BlockAt(p, k));
      OneSummed(sum, p, k);
      MaskedFrame(cipher, off, n, p, k, oa0, ta0, oa[..], ta[..]);
      OneMasked(cipher, off, n, p, k, oa[..], ta[..]);
    }

    /** The masked and enciphered blocks, unmasked and written from the last to the first. */
    method WriteCipher(k: nat, oa: array<Block>, ta: array<Block>, ghost off: Block, ghost n: nat, ghost p: seq<bv8>)
      returns (out: seq<bv8>)
      requires k <= oa.Length && k <= ta.Length && 16 * k <= |p|
      requires Enciphered(cipher, off, n, p, k, oa[..], ta[..])
      ensures out == Encrypted(cipher, off, n, p, k)
    {
      hide Xor, BlockAt, Offset, CipherBlock;
      out := [];
      var j := k;
      while j != 0
        invariant 0 <= j <= k
        invariant Encrypted(cipher, off, n, p, j) + out == Encrypted(cipher, off, n, p, k)
      {
        j := j - 1;
        assert Xor(ta[..][j], oa[..][j]) == CipherBlock(cipher, Offset(cipher, off, n, j + 1), BlockAt(p, j));
        out := Xor(ta[j], oa[j]) + out;
      }
    }

    method EncryptTail(p: seq<bv8>, off: Block, sum: Block, ghost n: nat) returns (ct: seq<bv8>, tag: Block)
      requires TableOk(cipher, lstar, ldollar, table)
      requires n % 4 == 0 && |p| < 64
      ensures ct == CipherText(cipher, off, n, p)
      ensures tag == Tag(cipher, off, n, sum, p, adChecksum)
    {
      hide Xor, L, BlockAt, Offset, Checksum, Encrypted, CipherBlock, Padded, XorPrefix, Masked, Enciphered, Tail,
        LStar, LDollar;
      var k, last, total, oa, ta := FillTail(p, off, sum, n);
      ghost var ta0 := ta[..];
      var partial := Tail(p);
      var whole := k;
      var tmp := Padded(partial);
      if |partial| > 0 {
        total := Xor(total, tmp);
        last := Xor(last, lstar);
        ta[k] := last;
        k := k + 1;
      }
      ghost var ending := last;
      last := Xor(last, ldollar);
      ta[k] := Xor(last, total);
      TagInput(ending, ldollar, total);
      ghost var ta1 := ta[..];
      EcbEncrypt(ta, k + 1);
      tag := Xor(ta[k], adChecksum);
      if |partial| > 0 {
        k := k - 1;
        PartialCipher(partial, ta[k]);
        partial := Xor(tmp, ta[k])[..|partial|];
      } else {
        NoPartial(cipher.encrypt(Xor(ending, lstar)));
      }
      AllEnciphered(cipher, off, n, p, whole, oa[..], ta0, ta[..]);
      var out := WriteCipher(k, oa, ta, off, n, p);
      ct := out + partial;
    }

    /** As WriteCipher for decryption; the plaintext blocks also enter the checksum, last first. */
    method WritePlain(k: nat, oa: array<Block>, ta: array<Block>, sum: Block,
                      ghost off: Block, ghost n: nat, ghost p: seq<bv8>)
      returns (out: seq<bv8>, total: Block)
      requires k <= oa.Length && k <= ta.Length && 16 * k <= |p|
      requires Deciphered(cipher, off, n, p, k, oa[..], ta[..])
      ensures out == Decrypted(cipher, off, n, p, k)
      ensures total == Checksum(sum, out, k)
    {
      hide Xor, BlockAt, Offset, PlainBlock;
      out, total := [], sum;
      ghost var text := Decrypted(cipher, off, n, p, k);
      var j := k;
      while j != 0
        invariant 0 <= j <= k
        invariant Decrypted(cipher, off, n, p, j) + out == text
        invariant Checksum(total, text, j) == Checksum(sum, text, k)
      {
        j := j - 1;
        assert Xor(ta[..][j], oa[..][j]) == PlainBlock(cipher, Offset(cipher, off, n, j + 1), BlockAt(p, j));
        var b := Xor(ta[j], oa[j]);
        BlockWithin(Decrypted(cipher, off, n, p, j), b, out, j);
        ChecksumShift(total, b, text, j);
        out := b + out;
        total := Xor(total, b);
      }
    }

    /** The text is recovered and the tag it should carry is computed. */
    method DecryptTail(p: seq<bv8>, off: Block, sum: Block, ghost n: nat) returns (pt: seq<bv8>, tag: Block)
      requires TableOk(cipher, lstar, ldollar, table)
      requires n % 4 == 0 && |p| < 64
      ensures pt == PlainText(cipher, off, n, p)
      ensures tag == Tag(cipher, off, n, sum, pt, adChecksum)
    {
      hide Xor, L, BlockAt, Offset, Checksum, Decrypted, PlainBlock, Padded, XorPrefix, Masked, Deciphered, Tail,
        LStar, LDollar;
      var k, last, unused, oa, ta := FillTail(p, off, sum, n);
      ghost var ta0 := ta[..];
      var partial := Tail(p);
      var rem := |partial|;
      var total := sum;
      if rem > 0 {
        last := Xor(last, lstar);
        var pad := cipher.encrypt(last);
        var tmp := Xor(partial + pad[rem..], pad);
        PartialPlain(partial, pad);
        tmp := tmp[rem := 0x80];
        partial := tmp[..rem];
        total := Xor(total, tmp);
      } else {
        NoPartial(cipher.encrypt(Xor(last, lstar)));
      }
      EcbDecrypt(ta, k);
      AllDeciphered(cipher, off, n, p, k, oa[..], ta0, ta[..]);
      ghost var before := total;
      var out;
      out, total := WritePlain(k, oa, ta, total, off, n, p);
      pt := out + partial;
      SplitTail(out, partial, k);
      assert out[..16 * k] == out;
      ChecksumPrefix(before, pt, out, k);
      if rem > 0 {
        ChecksumShift(sum, Padded(partial), pt, k);
      }
      TagInput(last, ldollar, total);
      last := Xor(last, ldollar);
      tag := Xor(cipher.encrypt(Xor(last, total)), adChecksum);
    }

    method HashTail(a: seq<bv8>, off: Block, ghost n: nat)
      requires TableOk(cipher, lstar, ldollar, table)
      requires n % 4 == 0 && |a| < 64
      modifies this`adChecksum
      ensures adChecksum == HashRest(cipher, off, n, old(adChecksum), a)
    {
      hide Xor, L, BlockAt, Offset, Checksum, HashBlocks, Padded, Masked, Tail, LStar;
      var k, last, unused, oa, ta := FillTail(a, off, adChecksum, n);
      ghost var ta0 := ta[..];
      var whole := k;
      var partial := Tail(a);
      if |partial| > 0 {
        last := Xor(last, lstar);
        ta[k] := Xor(last, Padded(partial));
        XorCommutes(last, Padded(partial));
        k := k + 1;
      }
      EcbEncrypt(ta, k);
      var sum := adChecksum;
      if |partial| > 0 {
        HashShift(cipher, off, n, sum, ta[whole], a, whole);
        sum := Xor(sum, ta[whole]);
      }
      AllHashed(cipher, off, n, a, whole, oa[..], ta0, ta[..]);
      sum := AddHashes(whole, ta, sum, off, n, a);
      adChecksum := sum;
    }

    method AddHashes(k: nat, ta: array<Block>, sum: Block, ghost off: Block, ghost n: nat, ghost a: seq<bv8>)
      returns (total: Block)
      requires k <= ta.Length && 16 * k <= |a|
      requires Hashed(cipher, off, n, a, k, ta[..])
      ensures total == HashBlocks(cipher, off, n, sum, a, k)
    {
      hide Xor, BlockAt, Offset;
      total := sum;
      var j := k;
      while j != 0
        invariant 0 <= j <= k
        invariant HashBlocks(cipher, off, n, total, a, j) == HashBlocks(cipher, off, n, sum, a, k)
      {
        j := j - 1;
        assert ta[..][j] == cipher.encrypt(Xor(BlockAt(a, j), Offset(cipher, off, n, j + 1)));
        HashShift(cipher, off, n, total, ta[j], a, j);
        total := Xor(total, ta[j]);
      }
    }

    /** A piece of plaintext: whole batches, and the rest of the message when it is the last piece. */
    method EncryptText(pt: seq<bv8>, final: bool) returns (ct: seq<bv8>, tag: Block)
      requires TableOk(cipher, lstar, ldollar, table)
      requires blocks % 4 == 0 && 16 * blocks + |pt| < TEXT_LIMIT
      requires !final ==> |pt| % 64 == 0
      modifies this`offset, this`checksum, this`blocks
      ensures !final ==>
        && blocks == old(blocks) + |pt| / 16
        && offset == Offset(cipher, old(offset), old(blocks), |pt| / 16)
        && checksum == Checksum(old(checksum), pt, |pt| / 16)
        && ct == Encrypted(cipher, old(offset), old(blocks), pt, |pt| / 16)
      ensures final ==>
        && ct == CipherText(cipher, old(offset), old(blocks), pt)
        && tag == Tag(cipher, old(offset), old(blocks), old(checksum), pt, adChecksum)
    {
      hide TableOk, Offset, Checksum, Encrypted, CipherText, Tag, Zero, BatchedBlocks;
      ct := EncryptBatches(pt);
      tag := Zero();
      if final {
        var m := BatchedBlocks(|pt|);
        var rest;
        rest, tag := EncryptTail(pt[16 * m..], offset, checksum, blocks);
        ct := ct + rest;
        MessageSplits(cipher, old(offset), old(blocks), old(checksum), pt, m, adChecksum);
      }
    }

    method DecryptText(ct: seq<bv8>, final: bool) returns (pt: seq<bv8>, tag: Block)
      requires TableOk(cipher, lstar, ldollar, table)
      requires blocks % 4 == 0 && 16 * blocks + |ct| < TEXT_LIMIT
      requires !final ==> |ct| % 64 == 0
      modifies this`offset, this`checksum, this`blocks
      ensures !final ==>
        && blocks == old(blocks) + |ct| / 16
        && offset == Offset(cipher, old(offset), old(blocks), |ct| / 16)
        && pt == Decrypted(cipher, old(offset), old(blocks), ct, |ct| / 16)
        && checksum == Checksum(old(checksum), pt, |ct| / 16)
      ensures final ==>
        && pt == PlainText(cipher, old(offset), old(blocks), ct)
        && tag == Tag(cipher, old(offset), old(blocks), old(checksum), pt, adChecksum)
    {
      hide TableOk, Offset, Checksum, Decrypted, PlainText, Tag, Zero, BatchedBlocks;
      ghost var off, n, sum := offset, blocks, checksum;
      var m := BatchedBlocks(|ct|);
      var first := DecryptBatches(ct);
      pt, tag := first, Zero();
      if final {
        var rest;
        rest, tag := DecryptTail(ct[16 * m..], offset, checksum, blocks);
        MessageSplits(cipher, off, n, sum, ct, m, adChecksum);
        MessageContinues(cipher, off, n, sum, first, m, rest, adChecksum);
        pt := first + rest;
      }
    }

    method ProcessAd(a: seq<bv8>, final: bool)
      requires TableOk(cipher, lstar, ldollar, table)
      requires adBlocks % 4 == 0 && 16 * adBlocks + |a| < TEXT_LIMIT
      requires !final ==> |a| % 64 == 0
      modifies this`adOffset, this`adChecksum, this`adBlocks
      ensures !final ==>
        && adBlocks == old(adBlocks) + |a| / 16
        && adOffset == Offset(cipher, old(adOffset), old(adBlocks), |a| / 16)
      ensures adChecksum == HashRest(cipher, old(adOffset), old(adBlocks), old(adChecksum), a)
    {
      hide TableOk, Offset, HashBlocks, HashRest;
      var m := BatchedBlocks(|a|);
      HashSplits(cipher, adOffset, adBlocks, adChecksum, a, m);
      HashBatches(a);
      if final {
        HashTail(a[16 * m..], adOffset, adBlocks);
      } else {
        assert a[16 * m..] == [];
        HashOfNothing(cipher, adOffset, adBlocks, adChecksum);
      }
    }

    /** What both directions do before the text: start a message, and take in associated data. */
    method Prepare(start: Option<seq<bv8>>, a: Option<seq<bv8>>, final: bool)
      requires Valid()
      requires match start case Some(n) => |n| == 12 case None => open
      requires a.Some? && a.value != [] && start.None? ==> adOpen
      requires a.Some? && !final ==> |a.value| % 64 == 0
      requires |AdAfter(start, a)| < TEXT_LIMIT
      modifies this
      ensures Valid() && open
      ensures ad == old(AdAfter(start, a)) && adOpen == old(AdOpenAfter(start, a, final))
      ensures match start
        case Some(n) => nonce == n && plain == [] && coded == [] && blocks == 0
        case None => nonce == old(nonce) && plain == old(plain) && coded == old(coded) && blocks == old(blocks)
    {
      hide MessageOk, AdOk, TableOk, CacheOk, Permutation;
      if start.Some? {
        StartMessage(start.value, a.Some?);
      }
      if a.Some? && |a.value| > 0 {
        TakeAd(a.value, final);
      }
    }

    method StartMessage(n: seq<bv8>, freshAd: bool)
      requires Valid() && |n| == 12
      modifies this
      ensures Valid() && open
      ensures nonce == n && plain == [] && coded == [] && blocks == 0
      ensures adOpen == freshAd && ad == if freshAd then [] else old(ad)
    {
      hide MessageOk, AdOk, TableOk, CacheOk, Permutation;
      ResetText(n);
      ResetAd(freshAd);
    }

    method ResetText(n: seq<bv8>)
      requires KeyOk() && |n| == 12
      modifies this`cachedTop, this`ktopStr, this`offset, this`checksum, this`blocks,
               this`open, this`nonce, this`plain, this`coded
      ensures KeyOk()
      ensures open && nonce == n && plain == [] && coded == [] && blocks == 0
      ensures MessageOk(cipher, nonce, plain, coded, blocks, offset, checksum)
    {
      hide InitialOffset, MessageOk, TableOk, CacheOk, Zero;
      MessageStarts(cipher, n);
      offset := GenOffsetFromNonce(n);
      checksum := Zero();
      blocks := 0;
      open, nonce, plain, coded := true, n, [], [];
    }

    method ResetAd(freshAd: bool)
      requires AdOk(cipher, ad, adOpen, adBlocks, adOffset, adChecksum)
      modifies this`adOffset, this`adChecksum, this`adBlocks, this`ad, this`adOpen
      ensures AdOk(cipher, ad, adOpen, adBlocks, adOffset, adChecksum)
      ensures adOpen == freshAd && ad == if freshAd then [] else old(ad)
    {
      hide AdOk, Zero;
      AdCloses(cipher, ad, adOpen, adBlocks, adOffset, adChecksum);
      AdStarts(cipher);
      adOffset := Zero();
      adBlocks := 0;
      if freshAd {
        adChecksum := Zero();
        ad := [];
      }
      adOpen := freshAd;
    }

    method TakeAd(a: seq<bv8>, final: bool)
      requires TableOk(cipher, lstar, ldollar, table)
      requires adOpen && AdOk(cipher, ad, adOpen, adBlocks, adOffset, adChecksum)
      requires !final ==> |a| % 64 == 0
      requires |ad + a| < TEXT_LIMIT
      modifies this`adOffset, this`adChecksum, this`adBlocks, this`ad, this`adOpen
      ensures AdOk(cipher, ad, adOpen, adBlocks, adOffset, adChecksum)
      ensures ad == old(ad) + a && adOpen == !final
    {
      hide TableOk, Zero, HashRest, Hash, Offset;
      AdGrows(cipher, ad, adBlocks, adOffset, adChecksum, a);
      ProcessAd(a, final);
      ad, adOpen := ad + a, !final;
    }

    /** The associated data once a call has started a message or not and brought a. */
    ghost function AdAfter(start: Option<seq<bv8>>, a: Option<seq<bv8>>): seq<bv8>
      reads this
    {
      match a
      case None => ad
      case Some(more) => if start.Some? then more else ad + more
    }

    ghost predicate AdOpenAfter(start: Option<seq<bv8>>, a: Option<seq<bv8>>, final: bool)
      reads this
    {
      if a.Some? && a.value != [] then !final else if start.Some? then a.Some? else adOpen
    }

    ghost predicate CallOk(start: Option<seq<bv8>>, size: nat, a: Option<seq<bv8>>, final: bool)
      reads this
    {
      && Valid()
      && (match start case Some(n) => |n| == 12 case None => open)
      && (a.Some? && a.value != [] && start.None? ==> adOpen)
      && (!final ==> size % 64 == 0 && (a.Some? ==> |a.value| % 64 == 0))
      && |AdAfter(start, a)| < TEXT_LIMIT
      && (if start.Some? then 0 else |plain|) + size < TEXT_LIMIT
    }

    /**
     * One call of ae_encrypt. However a message is cut into calls, the ciphertexts they
     * return and the tag are those of the whole message.
     */
    method Encrypt(start: Option<seq<bv8>>, pt: seq<bv8>, a: Option<seq<bv8>>, bundle: bool, final: bool)
      returns (ct: seq<bv8>, tag: Option<Block>)
      requires CallOk(start, |pt|, a, final)
      modifies this
      ensures Valid() && open == !final
      ensures nonce == if start.Some? then start.value else old(nonce)
      ensures ad == old(AdAfter(start, a)) && adOpen == old(AdOpenAfter(start, a, final))
      ensures plain == (if start.Some? then [] else old(plain)) + pt
      ensures |ct| == |pt| + if final && bundle then 16 else 0
      ensures coded == (if start.Some? then [] else old(coded)) + ct[..|pt|]
      ensures tag.Some? <==> final && !bundle
      ensures |nonce| == 12
      ensures final ==> OcbSpec.Encrypt(cipher, nonce, ad, plain) == Sealed(coded,
          if bundle then ct[|pt|..] else tag.value)
    {
      hide Valid, AdAfter, AdOpenAfter, OcbSpec.Encrypt;
      Prepare(start, a, final);
      var t;
      ct, t := EncryptPiece(pt, final);
      tag := None;
      assert ct == ct[..|pt|];
      if final {
        if bundle {
          ct := ct + t;
        } else {
          tag := Some(t);
        }
      }
    }

    method EncryptPiece(pt: seq<bv8>, final: bool) returns (ct: seq<bv8>, tag: Block)
      requires Valid() && open
      requires !final ==> |pt| % 64 == 0
      requires |plain| + |pt| < TEXT_LIMIT
      modifies this`offset, this`checksum, this`blocks, this`open, this`plain, this`coded
      ensures Valid() && open == !final && |nonce| == 12
      ensures |ct| == |pt| && plain == old(plain) + pt && coded == old(coded) + ct
      ensures final ==> OcbSpec.Encrypt(cipher, nonce, ad, plain) == Sealed(coded, tag)
    {
      hide MessageOk, AdOk, TableOk, CacheOk, Permutation, Offset, Checksum, Encrypted, CipherText, Tag, Hash,
        OcbSpec.Encrypt;
      ghost var offset0, checksum0, blocks0 := offset, checksum, blocks;
      MessageShape(cipher, nonce, plain, coded, blocks, offset, checksum);
      AdShape(cipher, ad, adOpen, adBlocks, adOffset, adChecksum);
      ct, tag := EncryptText(pt, final);
      if final {
        MessageEnds(cipher, nonce, plain, coded, blocks0, offset0, checksum0, ad, pt);
      } else {
        WholeBatches(|pt|);
        MessageGrows(cipher, nonce, plain, coded, blocks0, offset0, checksum0, pt, |pt| / 16);
      }
      plain, coded, open := plain + pt, coded + ct, !final;
    }

    /**
     * One call of ae_decrypt. However a message is cut into calls, the plaintexts they
     * return are that of the whole message, and the last call accepts exactly its tag.
     */
    method Decrypt(start: Option<seq<bv8>>, ct: seq<bv8>, a: Option<seq<bv8>>, tag: Option<Block>, final: bool)
      returns (pt: seq<bv8>, status: int)
      requires final && tag.None? ==> 16 <= |ct|
      requires CallOk(start, TextSize(ct, tag, final), a, final)
      modifies this
      ensures Valid() && open == !final
      ensures nonce == if start.Some? then start.value else old(nonce)
      ensures ad == old(AdAfter(start, a)) && adOpen == old(AdOpenAfter(start, a, final))
      ensures |pt| == TextSize(ct, tag, final)
      ensures plain == (if start.Some? then [] else old(plain)) + pt
      ensures coded == (if start.Some? then [] else old(coded)) + ct[..|pt|]
      ensures |nonce| == 12
      ensures status == |pt| || (final && status == AE_INVALID)
      ensures final ==>
        var proposed: Block := if tag.Some? then tag.value else ct[|pt|..];
        OcbSpec.Decrypt(cipher, nonce, ad, Sealed(coded, proposed)) == Opened(plain, status == |pt|)
    {
      hide Valid, AdAfter, AdOpenAfter, OcbSpec.Decrypt;
      var size := TextSize(ct, tag, final);
      Prepare(start, a, final);
      var t;
      pt, t := DecryptPiece(ct[..size], final);
      status := size;
      if final {
        var proposed: Block := if tag.Some? then tag.value else ct[size..];
        if t != proposed {
          status := AE_INVALID;
        }
      }
    }

    method DecryptPiece(ct: seq<bv8>, final: bool) returns (pt: seq<bv8>, tag: Block)
      requires Valid() && open
      requires !final ==> |ct| % 64 == 0
      requires |plain| + |ct| < TEXT_LIMIT
      modifies this`offset, this`checksum, this`blocks, this`open, this`plain, this`coded
      ensures Valid() && open == !final && |nonce| == 12
      ensures |pt| == |ct| && plain == old(plain) + pt && coded == old(coded) + ct
      ensures final ==> OpensTo(cipher, nonce, ad, coded, plain, tag)
    {
      hide MessageOk, AdOk, TableOk, CacheOk, Permutation, Offset, Checksum, Encrypted, Decrypted, PlainText, Tag,
        Hash, OpensTo;
      ghost var offset0, checksum0, blocks0 := offset, checksum, blocks;
      MessageShape(cipher, nonce, plain, coded, blocks, offset, checksum);
      AdShape(cipher, ad, adOpen, adBlocks, adOffset, adChecksum);
      pt, tag := DecryptText(ct, final);
      if final {
        MessageOpens(cipher, nonce, plain, coded, blocks0, offset0, checksum0, ad, ct);
      } else {
        WholeBatches(|ct|);
        MessageOpensSoFar(cipher, nonce, plain, coded, blocks0, offset0, checksum0, ct, |ct| / 16);
      }
      plain, coded, open := plain + pt, coded + ct, !final;
    }
  }

  lemma FirstL(c: Cipher)
    ensures L(c, 0) == Doubled(LDollar(c))
  {
  }

  lemma NextL(c: Cipher, i: nat)
    requires 0 < i
    ensures L(c, i) == Doubled(L(c, i - 1))
  {
  }

  lemma NothingYet(c: Cipher, off: Block, n: nat, sum: Block, p: seq<bv8>)
    ensures Offset(c, off, n, 0) == off
    ensures Encrypted(c, off, n, p, 0) == []
    ensures Decrypted(c, off, n, p, 0) == []
    ensures Checksum(sum, p, 0) == sum
    ensures HashBlocks(c, off, n, sum, p, 0) == sum
  {
  }

  lemma UnmaskCipher(c: Cipher, o: Block, b: Block)
    ensures Xor(c.encrypt(Xor(o, b)), o) == CipherBlock(c, o, b)
  {
    hide Xor;
    XorCommutes(o, b);
    XorCommutes(o, c.encrypt(Xor(o, b)));
  }

  lemma UnmaskPlain(c: Cipher, o: Block, b: Block)
    ensures Xor(c.decrypt(Xor(o, b)), o) == PlainBlock(c, o, b)
  {
    hide Xor;
    XorCommutes(o, b);
    XorCommutes(o, c.decrypt(Xor(o, b)));
  }

  function Join(pieces: seq<seq<bv8>>): seq<bv8> {
    if pieces == [] then [] else Join(pieces[..|pieces| - 1]) + pieces[|pieces| - 1]
  }

  lemma JoinNext(pieces: seq<seq<bv8>>, i: nat)
    requires i < |pieces|
    ensures Join(pieces[..i + 1]) == Join(pieces[..i]) + pieces[i]
  {
    assert pieces[..i + 1][..i] == pieces[..i];
  }

  lemma {:induction false} JoinGrows(pieces: seq<seq<bv8>>, i: nat)
    requires i <= |pieces|
    ensures |Join(pieces[..i])| <= |Join(pieces)|
    decreases |pieces| - i
  {
    if i == |pieces| {
      assert pieces[..i] == pieces;
    } else {
      JoinNext(pieces, i);
      JoinGrows(pieces, i + 1);
    }
  }

  /** Any number of pieces of whole batches and a last piece of any length give one sealed message. */
  method EncryptInPieces(ctx: Context, nonce: seq<bv8>, a: seq<bv8>, pieces: seq<seq<bv8>>, last: seq<bv8>)
    returns (ct: seq<bv8>, tag: Block)
    requires ctx.Valid() && |nonce| == 12 && |a| < TEXT_LIMIT
    requires forall i: nat | i < |pieces| :: |pieces[i]| % 64 == 0
    requires |Join(pieces)| + |last| < TEXT_LIMIT
    modifies ctx
    ensures ctx.Valid()
    ensures OcbSpec.Encrypt(ctx.cipher, nonce, a, Join(pieces) + last) == Sealed(ct, tag)
  {
    hide Join, OcbSpec.Encrypt, MessageOk, AdOk, TableOk, CacheOk, Permutation;
    var none;
    ct, none := ctx.Encrypt(Some(nonce), [], Some([]), false, false);
    assert Join(pieces[..0]) == [] by { JoinNothing(pieces[..0]); }
    var i := 0;
    while i < |pieces|
      invariant i <= |pieces|
      invariant ctx.Valid() && ctx.open && ctx.adOpen && ctx.ad == [] && ctx.nonce == nonce
      invariant ctx.plain == Join(pieces[..i]) && ctx.coded == ct
    {
      JoinNext(pieces, i);
      JoinGrows(pieces, i + 1);
      var out;
      out, none := ctx.Encrypt(None, pieces[i], None, false, false);
      assert out[..|pieces[i]|] == out;
      ct := ct + out;
      i := i + 1;
    }
    assert pieces[..i] == pieces;
    var end, t := ctx.Encrypt(None, last, Some(a), false, true);
    assert end[..|last|] == end;
    assert [] + a == a;
    ct, tag := ct + end, t.value;
  }

  lemma JoinNothing(pieces: seq<seq<bv8>>)
    requires pieces == []
    ensures Join(pieces) == []
  {
  }

  /** What one context seals, another context with the same key opens. */
  method SealAndOpen(sender: Context, receiver: Context, nonce: seq<bv8>, a: seq<bv8>, pt: seq<bv8>)
    returns (back: seq<bv8>, status: int)
    requires sender.Valid() && receiver.Valid() && sender != receiver && sender.cipher == receiver.cipher
    requires |nonce| == 12 && |a| < TEXT_LIMIT && |pt| < TEXT_LIMIT
    modifies sender, receiver
    ensures back == pt && status == |pt|
  {
    hide OcbSpec.Encrypt, OcbSpec.Decrypt, MessageOk, AdOk, TableOk, CacheOk, Permutation;
    var ct, none := sender.Encrypt(Some(nonce), pt, Some(a), true, true);
    assert sender.plain == pt && sender.coded == ct[..|pt|];
    RoundTrip(sender.cipher, nonce, a, pt);
    back, status := receiver.Decrypt(Some(nonce), ct, Some(a), None, true);
    assert receiver.plain == back && receiver.coded == ct[..|pt|];
  }
}
