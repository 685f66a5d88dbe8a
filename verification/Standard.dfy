/** What sections 4.2 and 4.3 of RFC 7253 ask of a sealed text, in terms of the enciphered zero block
    and its doublings alone. */
module Standard {
  import opened Basics
  import opened Ocb

  lemma {:induction false} XorBits(a: Block, b: Block, j: nat)
    requires j < 128
    ensures Bit(Xor(a, b), j) == (Bit(a, j) != Bit(b, j))
  {
    hide Bit8;
    XorBit(a[j / 8], b[j / 8], j % 8);
  }

  // --------------------------------------------------------------------- initial offset

  function Weight(on: bool, n: nat): nat { if on then n else 0 }

  lemma {:induction false} BottomBits(nonce: seq<bv8>)
    ensures var s := NonceBlock(nonce);
      Bottom(nonce) == Weight(Bit(s, 122), 32) + Weight(Bit(s, 123), 16) + Weight(Bit(s, 124), 8)
                     + Weight(Bit(s, 125), 4) + Weight(Bit(s, 126), 2) + Weight(Bit(s, 127), 1)
  {
    hide NonceBlock;
    LowSix(NonceBlock(nonce)[15]);
  }

  lemma {:induction false} LowSix(x: bv8)
    ensures (x & 0x3f) as nat == Weight(Bit8(x, 2), 32) + Weight(Bit8(x, 3), 16) + Weight(Bit8(x, 4), 8)
                               + Weight(Bit8(x, 5), 4) + Weight(Bit8(x, 6), 2) + Weight(Bit8(x, 7), 1)
  {}

  /** The initial offset: 128 bits, from bit `bottom` on, of the enciphered top of the nonce block
      followed by its first 64 bits added to the next. */
  lemma {:induction false} InitOffsetBits(k: Cipher, nonce: seq<bv8>, j: nat)
    requires j < 128
    ensures var ktop, i := k.enc(Top(nonce)), Bottom(nonce) + j;
      i < 192 && Bit(InitOffset(k, nonce), j) == if i < 128 then Bit(ktop, i) else Bit(ktop, i - 128) != Bit(ktop, i - 120)
  {
    hide Bit, Stretch, Window, Top;
    LowBits(NonceBlock(nonce)[15]);
    WindowBits(Stretch(k.enc(Top(nonce))), Bottom(nonce), j);
    StretchBits(k.enc(Top(nonce)), Bottom(nonce) + j);
  }

  // ---------------------------------------------------------------------------- offsets

  function Doubled(b: Block, n: nat): Block { if n == 0 then b else Double(Doubled(b, n - 1)) }

  lemma {:induction false} MaskIs(k: Cipher, i: nat)
    ensures L(k, i) == Doubled(k.enc(ZERO), i + 2)
  {
    hide Double;
    if i > 0 {
      MaskIs(k, i - 1);
    } else {
      assert Doubled(k.enc(ZERO), 0) == k.enc(ZERO);
      assert Doubled(k.enc(ZERO), 1) == Double(k.enc(ZERO));
    }
  }

  /** Each offset is the one before plus the enciphered zero block, doubled twice and once more for
      every factor of two in the number of the block. */
  predicate Offsets(k: Cipher, nonce: seq<bv8>, offsets: seq<Block>) {
    && offsets != [] && offsets[0] == InitOffset(k, nonce)
    && forall i :: 1 <= i < |offsets| ==> offsets[i] == Xor(offsets[i - 1], Doubled(k.enc(ZERO), Ntz(i) + 2))
  }

  /** Each checksum is the one before plus the next block of the plaintext. */
  predicate Checksums(p: seq<bv8>, sums: seq<Block>) {
    && sums != [] && 16 * (|sums| - 1) <= |p| && sums[0] == ZERO
    && forall i :: 1 <= i < |sums| ==> sums[i] == Xor(sums[i - 1], BlockAt(p, i - 1))
  }

  lemma {:induction false} OffsetsAre(k: Cipher, nonce: seq<bv8>, m: nat) returns (offsets: seq<Block>)
    ensures |offsets| == m + 1 && Offsets(k, nonce, offsets)
    ensures forall i :: 0 <= i <= m ==> offsets[i] == OffsetAt(k, InitOffset(k, nonce), i)
  {
    hide Xor, Double, InitOffset, L;
    if m == 0 {
      offsets := [InitOffset(k, nonce)];
    } else {
      var before := OffsetsAre(k, nonce, m - 1);
      MaskIs(k, Ntz(m));
      offsets := before + [OffsetAt(k, InitOffset(k, nonce), m)];
    }
  }

  lemma {:induction false} ChecksumsAre(p: seq<bv8>, m: nat) returns (sums: seq<Block>)
    requires 16 * m <= |p|
    ensures |sums| == m + 1 && Checksums(p, sums) && forall i :: 0 <= i <= m ==> sums[i] == Checksum(p, i)
  {
    hide Xor;
    if m == 0 {
      sums := [ZERO];
    } else {
      var before := ChecksumsAre(p, m - 1);
      sums := before + [Checksum(p, m)];
    }
  }

  // ------------------------------------------------------------------------ sealed texts

  /** The octets after the last whole block, a one bit, and zeros. */
  predicate PaddedRest(p: seq<bv8>, b: Block) {
    var start := 16 * (|p| / 16);
    forall j :: 0 <= j < 16 ==> b[j] == if j < |p| - start then p[start + j] else if j == |p| - start then 0x80 else 0
  }

  /** OCB-ENCRYPT with empty associated data: `offsets` and `sums` for every whole block, `last` and
      `sum` for what follows them. */
  ghost predicate Sealing(k: Cipher, nonce: seq<bv8>, p: seq<bv8>, c: seq<bv8>, offsets: seq<Block>, sums: seq<Block>, last: Block, sum: Block) {
    var m, zero := |p| / 16, k.enc(ZERO);
    && |c| == |p| + 16 && |offsets| == |sums| == m + 1 && Offsets(k, nonce, offsets) && Checksums(p, sums)
    && (forall i :: 1 <= i <= m ==> BlockAt(c, i - 1) == Xor(k.enc(Xor(BlockAt(p, i - 1), offsets[i])), offsets[i]))
    && last == (if |p| % 16 > 0 then Xor(offsets[m], zero) else offsets[m])
    && (forall j :: 16 * m <= j < |p| ==> c[j] == XorByte(p[j], k.enc(last)[j - 16 * m]))
    && (if |p| % 16 > 0 then exists b: Block :: PaddedRest(p, b) && sum == Xor(sums[m], b) else sum == sums[m])
    && c[|p|..] == k.enc(Xor(Xor(sum, last), Double(zero)))
  }

  lemma {:induction false} BlockSealed(k: Cipher, o: Block, p: seq<bv8>, n: nat, i: nat)
    requires 16 * n <= |p| && i < n
    ensures BlockAt(EncryptBlocks(k, o, p, n), i) == Xor(k.enc(Xor(BlockAt(p, i), OffsetAt(k, o, i + 1))), OffsetAt(k, o, i + 1))
  {
    hide Xor, OffsetAt, BlockAt;
    var before, block := EncryptBlocks(k, o, p, n - 1), EncryptBlock(k, OffsetAt(k, o, n), BlockAt(p, n - 1));
    if i < n - 1 {
      BlockSealed(k, o, p, n - 1, i);
      BlockBefore(before, block, i);
    } else {
      BlockAfter(before, block, i);
    }
  }

  lemma {:induction false} BlockBefore(a: seq<bv8>, b: seq<bv8>, i: nat)
    requires 16 * i + 16 <= |a|
    ensures BlockAt(a + b, i) == BlockAt(a, i)
  {}

  lemma {:induction false} BlockAfter(a: seq<bv8>, b: Block, i: nat)
    requires 16 * i == |a|
    ensures BlockAt(a + b, i) == b
  {}

  lemma {:induction false} RestPadded(p: seq<bv8>)
    ensures |p| % 16 > 0 ==> PaddedRest(p, Padded(Rest(p)))
  {}

  /** What is sealed is sealed as the standard says. */
  lemma {:induction false} SealsAsStandard(k: Cipher, nonce: seq<bv8>, p: seq<bv8>)
    returns (offsets: seq<Block>, sums: seq<Block>, last: Block, sum: Block)
    ensures Sealing(k, nonce, p, Seal(k, nonce, p), offsets, sums, last, sum)
  {
    hide Xor, Double, InitOffset, OffsetAt, Checksum, EncryptBlocks, Padded, Rest, BlockAt, PaddedRest, Offsets, Checksums;
    var m, o, c := |p| / 16, InitOffset(k, nonce), Seal(k, nonce, p);
    offsets := OffsetsAre(k, nonce, m);
    sums := ChecksumsAre(p, m);
    last, sum := LastOffset(k, o, |p|), FullChecksum(p);
    RestPadded(p);
    var blocks := EncryptBlocks(k, o, p, m);
    var rest := XorShort(Rest(p), k.enc(last)) + Tag(k, o, p);
    assert c == blocks + rest;
    forall i | 1 <= i <= m
      ensures BlockAt(c, i - 1) == Xor(k.enc(Xor(BlockAt(p, i - 1), offsets[i])), offsets[i])
    {
      BlockSealed(k, o, p, m, i - 1);
      BlockBefore(blocks, rest, i - 1);
    }
    RestSealed(p, c, blocks, k.enc(last), Tag(k, o, p));
  }

  lemma {:induction false} RestSealed(p: seq<bv8>, c: seq<bv8>, blocks: seq<bv8>, pad: Block, tag: Block)
    requires |blocks| == 16 * (|p| / 16) && c == blocks + (XorShort(Rest(p), pad) + tag)
    ensures |c| == |p| + 16 && c[|p|..] == tag
    ensures forall j :: |blocks| <= j < |p| ==> c[j] == XorByte(p[j], pad[j - |blocks|])
  {}

  /** And what is opened was sealed so. */
  lemma {:induction false} OpensAsStandard(k: Cipher, nonce: seq<bv8>, c: seq<bv8>, p: seq<bv8>)
    returns (offsets: seq<Block>, sums: seq<Block>, last: Block, sum: Block)
    requires Permutation(k) && Open(k, nonce, c) == Some(p)
    ensures Sealing(k, nonce, p, c, offsets, sums, last, sum)
  {
    hide Permutation, Sealing, Open, Seal;
    OpensWhatSeals(k, nonce, p, c);
    offsets, sums, last, sum := SealsAsStandard(k, nonce, p);
  }

  // --------------------------------------------------------------------------- datagrams

  /** A datagram starts with its number, most significant octet first, and the nonce is four zero
      octets and the same eight. */
  lemma {:induction false} DatagramHeader(k: Cipher, dirSeq: bv64, p: seq<bv8>)
    ensures var d := SealDatagram(k, dirSeq, p);
      && |d| == 8 + |p| + 16
      && dirSeq == (d[0] as bv64 << 56) | (d[1] as bv64 << 48) | (d[2] as bv64 << 40) | (d[3] as bv64 << 32)
                   | (d[4] as bv64 << 24) | (d[5] as bv64 << 16) | (d[6] as bv64 << 8) | d[7] as bv64
      && d[8..] == Seal(k, [0, 0, 0, 0] + d[..8], p)
  {
    hide Seal, OctetAt;
    SealLength(k, NonceFor(BigEndian(dirSeq)), p);
    JoinsOctets(dirSeq);
    assert SealDatagram(k, dirSeq, p)[..8] == BigEndian(dirSeq);
    assert SealDatagram(k, dirSeq, p)[8..] == Seal(k, NonceFor(BigEndian(dirSeq)), p);
  }
}
