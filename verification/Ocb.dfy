/** OCB3 with empty associated data and a 128-bit tag, over any block permutation. */
module Ocb {
  import opened Basics

  type Block = b: seq<bv8> | |b| == 16 witness [0, 0, 0, 0, 0, 0, 0, 0, 0, 0, 0, 0, 0, 0, 0, 0]

  const ZERO: Block := [0, 0, 0, 0, 0, 0, 0, 0, 0, 0, 0, 0, 0, 0, 0, 0]

  /** The block cipher under one key. */
  datatype Cipher = Cipher(enc: Block -> Block, dec: Block -> Block)

  ghost predicate Permutation(k: Cipher) {
    && (forall b: Block :: k.dec(k.enc(b)) == b)
    && (forall b: Block :: k.enc(k.dec(b)) == b)
  }

  function XorByte(x: bv8, y: bv8): bv8 { x ^ y }

  function Xor(a: Block, b: Block): Block {
    seq(16, i requires 0 <= i < 16 => XorByte(a[i], b[i]))
  }

  lemma {:induction false} XorTwice(a: Block, b: Block)
    ensures Xor(Xor(a, b), b) == a
  {
    assert forall i :: 0 <= i < 16 ==> Xor(Xor(a, b), b)[i] == XorByte(XorByte(a[i], b[i]), b[i]);
  }

  // ---------------------------------------------------------------------- bits of bytes

  /** Bit `j` of a string of octets, counted from the most significant bit of the first. */
  function Bit8(x: bv8, r: nat): bool
    requires r < 8
  {
    match r
    case 0 => x & 0x80 != 0
    case 1 => x & 0x40 != 0
    case 2 => x & 0x20 != 0
    case 3 => x & 0x10 != 0
    case 4 => x & 0x08 != 0
    case 5 => x & 0x04 != 0
    case 6 => x & 0x02 != 0
    case 7 => x & 0x01 != 0
  }

  function Bit(s: seq<bv8>, j: nat): bool
    requires j < 8 * |s|
  {
    Bit8(s[j / 8], j % 8)
  }

  // --------------------------------------------------------------------------- doubling

  function CarryInto(b: Block, i: nat): bv8
    requires i < 16
  {
    if i < 15 then b[i + 1] >> 7 else 0
  }

  function ShiftedAt(b: Block, i: nat): bv8
    requires i < 16
  {
    (b[i] << 1) | CarryInto(b, i)
  }

  /** Multiplication by x in GF(2^128). */
  function Double(b: Block): Block {
    var shifted := seq(16, i requires 0 <= i < 16 => ShiftedAt(b, i));
    if b[0] >> 7 != 0 then shifted[15 := shifted[15] ^ 0x87] else shifted
  }

  method GfDouble(block: array<bv8>) returns (out: array<bv8>)
    requires block.Length == 16
    ensures fresh(out) && out.Length == 16 && out[..] == Double(block[..])
  {
    out := new bv8[16];
    var carry: bv8 := 0;
    var i := 16;
    while i > 0
      invariant 0 <= i <= 16
      invariant carry == if i < 16 then block[i] >> 7 else 0
      invariant forall j :: i <= j < 16 ==> out[j] == ShiftedAt(block[..], j)
    {
      i := i - 1;
      out[i] := (block[i] << 1) | carry;
      carry := block[i] >> 7;
    }
    if carry != 0 {
      out[15] := out[15] ^ 0x87;
    }
  }

  lemma {:induction false} ShiftedByte(a: bv8, b: bv8, r: nat)
    requires r < 8
    ensures Bit8((a << 1) | (b >> 7), r) == if r < 7 then Bit8(a, r + 1) else Bit8(b, 0)
  {}

  lemma {:induction false} ShiftedLast(a: bv8, r: nat)
    requires r < 8
    ensures Bit8((a << 1) | 0, r) == (r < 7 && Bit8(a, r + 1))
    ensures Bit8(((a << 1) | 0) ^ 0x87, r) == ((r < 7 && Bit8(a, r + 1)) != (r == 0 || r >= 5))
    ensures (a >> 7 != 0) == Bit8(a, 0)
  {}

  /** Shifted left by one bit, and the reduction polynomial added if a bit fell out. */
  lemma {:induction false} DoubleBits(b: Block, j: nat)
    requires j < 128
    ensures Bit(Double(b), j) == ((j < 127 && Bit(b, j + 1)) != (Bit(b, 0) && j in {120, 125, 126, 127}))
  {
    hide Bit8;
    var i, r := j / 8, j % 8;
    ShiftedLast(b[0], 0);
    if i < 15 {
      ShiftedByte(b[i], b[i + 1], r);
      assert Double(b)[i] == (b[i] << 1) | (b[i + 1] >> 7);
    } else {
      ShiftedLast(b[15], r);
    }
  }

  // ------------------------------------------------------------------------------ masks

  function LStar(k: Cipher): Block { k.enc(ZERO) }

  function LDollar(k: Cipher): Block { Double(LStar(k)) }

  function L(k: Cipher, i: nat): Block {
    if i == 0 then Double(LDollar(k)) else Double(L(k, i - 1))
  }

  /** Number of trailing zero bits. */
  function Ntz(n: nat): nat
    requires n > 0
  {
    if n % 2 == 1 then 0 else 1 + Ntz(n / 2)
  }

  function Pow2(i: nat): nat {
    if i == 0 then 1 else 2 * Pow2(i - 1)
  }

  lemma {:induction false} NtzDivides(n: nat)
    requires n > 0
    ensures exists q :: q % 2 == 1 && n == q * Pow2(Ntz(n))
  {
    if n % 2 == 1 {
      assert n == n * Pow2(0);
    } else {
      NtzDivides(n / 2);
      var q :| q % 2 == 1 && n / 2 == q * Pow2(Ntz(n / 2));
      assert n == q * Pow2(Ntz(n));
    }
  }

  lemma {:induction false} NtzBelow(n: nat, bits: nat)
    requires 0 < n < Pow2(bits)
    ensures Ntz(n) < bits
  {
    if n % 2 == 0 {
      NtzBelow(n / 2, bits - 1);
    }
  }

  /** The table of 32 masks is never overrun by a message of fewer than 2^32 blocks. */
  lemma {:induction false} MaskInRange(i: nat)
    requires 0 < i < U32_SIZE
    ensures Ntz(i) < 32
  {
    assert Pow2(8) == 0x100;
    assert Pow2(16) == 0x1_0000;
    assert Pow2(24) == 0x100_0000;
    assert Pow2(32) == U32_SIZE;
    NtzBelow(i, 32);
  }

  // --------------------------------------------------------------------- initial offset

  function Zeros(n: nat): (s: seq<bv8>)
    ensures |s| == n && forall i :: 0 <= i < n ==> s[i] == 0
  {
    if n == 0 then [] else [0] + Zeros(n - 1)
  }

  /** At most 15 octets of the nonce, preceded by a one bit and zeros. */
  function NonceBlock(nonce: seq<bv8>): Block {
    var n := if |nonce| < 15 then |nonce| else 15;
    Zeros(15 - n) + [1] + nonce[..n]
  }

  function Bottom(nonce: seq<bv8>): nat {
    (NonceBlock(nonce)[15] & 0x3f) as nat
  }

  function Top(nonce: seq<bv8>): Block {
    NonceBlock(nonce)[15 := NonceBlock(nonce)[15] & 0xc0]
  }

  function Stretch(ktop: Block): (s: seq<bv8>)
    ensures |s| == 24
  {
    ktop + seq(8, i requires 0 <= i < 8 => XorByte(ktop[i], ktop[i + 1]))
  }

  function WindowByte(s: seq<bv8>, bottom: nat, i: nat): bv8
    requires |s| == 24 && bottom < 64 && i < 16
  {
    var idx := bottom / 8 + i;
    if bottom % 8 == 0 then s[idx] else (s[idx] << (bottom % 8)) | (s[idx + 1] >> (8 - bottom % 8))
  }

  /** 128 bits of the stretched block from bit `bottom` on, by byte and bit shifts. */
  function Window(s: seq<bv8>, bottom: nat): Block
    requires |s| == 24 && bottom < 64
  {
    seq(16, i requires 0 <= i < 16 => WindowByte(s, bottom, i))
  }

  function InitOffset(k: Cipher, nonce: seq<bv8>): Block {
    LowBits(NonceBlock(nonce)[15]);
    Window(Stretch(k.enc(Top(nonce))), Bottom(nonce))
  }

  lemma {:induction false} LowBits(x: bv8)
    ensures (x & 0x3f) as nat < 64
  {
    assert x & 0x3f < 64;
  }

  lemma {:induction false} JoinedBytes(a: bv8, b: bv8, s: nat, r: nat)
    requires 0 < s < 8 && r < 8
    ensures Bit8((a << s) | (b >> (8 - s)), r) == if r + s < 8 then Bit8(a, r + s) else Bit8(b, r + s - 8)
  {
    if s == 1 {
    } else if s == 2 {
    } else if s == 3 {
    } else if s == 4 {
    } else if s == 5 {
    } else if s == 6 {
    } else {
    }
  }

  lemma {:induction false} WholeBytes(s: seq<bv8>, bottom: nat, j: nat)
    requires |s| == 24 && bottom < 64 && j < 128 && bottom % 8 == 0
    ensures Bit(Window(s, bottom), j) == Bit(s, bottom + j)
  {
    hide Bit8;
    assert Window(s, bottom)[j / 8] == s[bottom / 8 + j / 8];
    assert (bottom + j) / 8 == bottom / 8 + j / 8 && (bottom + j) % 8 == j % 8;
  }

  lemma {:induction false} ShiftedIndex(bottom: nat, j: nat)
    ensures var r, shift := j % 8, bottom % 8;
      if r + shift < 8 then (bottom + j) / 8 == bottom / 8 + j / 8 && (bottom + j) % 8 == r + shift
      else (bottom + j) / 8 == bottom / 8 + j / 8 + 1 && (bottom + j) % 8 == r + shift - 8
  {}

  /** The byte and bit shifts cut exactly the window at `bottom` out of the stretch. */
  lemma {:induction false} WindowBits(s: seq<bv8>, bottom: nat, j: nat)
    requires |s| == 24 && bottom < 64 && j < 128
    ensures Bit(Window(s, bottom), j) == Bit(s, bottom + j)
  {
    hide Bit8;
    var i, r, shift := j / 8, j % 8, bottom % 8;
    var idx := bottom / 8 + i;
    if shift == 0 {
      WholeBytes(s, bottom, j);
    } else {
      assert Window(s, bottom)[i] == WindowByte(s, bottom, i);
      JoinedBytes(s[idx], s[idx + 1], shift, r);
      ShiftedIndex(bottom, j);
    }
  }

  /** The nonce block: zeros, a one bit, and the nonce at the end. */
  lemma {:induction false} NonceBits(nonce: seq<bv8>, j: nat)
    requires |nonce| <= 15 && j < 128
    ensures var start := 128 - 8 * |nonce|;
      Bit(NonceBlock(nonce), j) == (j == start - 1 || (j >= start && Bit(nonce, j - start)))
  {
    var n := |nonce|;
    assert nonce[..n] == nonce;
    if j >= 128 - 8 * n {
      assert (j - (128 - 8 * n)) / 8 == j / 8 - (16 - n) && (j - (128 - 8 * n)) % 8 == j % 8;
    }
  }

  lemma {:induction false} HighBits(x: bv8, r: nat)
    requires r < 8
    ensures Bit8(x & 0xc0, r) == (r < 2 && Bit8(x, r))
  {}

  /** All but the last six bits of the nonce block are enciphered. */
  lemma {:induction false} TopBits(nonce: seq<bv8>, j: nat)
    requires j < 128
    ensures Bit(Top(nonce), j) == (j < 122 && Bit(NonceBlock(nonce), j))
  {
    hide Bit8, NonceBlock;
    if j >= 120 {
      HighBits(NonceBlock(nonce)[15], j % 8);
    }
  }

  lemma {:induction false} XorMask(a: bv8, b: bv8, m: bv8)
    requires m & (m - 1) == 0
    ensures ((a ^ b) & m != 0) == ((a & m != 0) != (b & m != 0))
  {}

  function Mask(r: nat): (m: bv8)
    requires r < 8
    ensures m & (m - 1) == 0
  {
    [0x80, 0x40, 0x20, 0x10, 0x08, 0x04, 0x02, 0x01][r]
  }

  lemma {:induction false} BitMask(x: bv8, r: nat)
    requires r < 8
    ensures Bit8(x, r) == (x & Mask(r) != 0)
  {}

  lemma {:induction false} XorBit(a: bv8, b: bv8, r: nat)
    requires r < 8
    ensures Bit8(XorByte(a, b), r) == (Bit8(a, r) != Bit8(b, r))
  {
    hide Bit8, Mask;
    BitMask(a, r);
    BitMask(b, r);
    BitMask(XorByte(a, b), r);
    XorMask(a, b, Mask(r));
  }

  /** The stretch: the block, and its first 64 bits added to bits 9 to 72. */
  lemma {:induction false} StretchBits(ktop: Block, j: nat)
    requires j < 192
    ensures Bit(Stretch(ktop), j) == if j < 128 then Bit(ktop, j) else Bit(ktop, j - 128) != Bit(ktop, j - 120)
  {
    hide Bit8;
    if j >= 128 {
      var i := j / 8 - 16;
      assert (j - 128) / 8 == i && (j - 128) % 8 == j % 8 && (j - 120) / 8 == i + 1 && (j - 120) % 8 == j % 8;
      XorBit(ktop[i], ktop[i + 1], j % 8);
    }
  }

  // --------------------------------------------------------------- sealing and opening

  function OffsetAt(k: Cipher, o: Block, i: nat): Block {
    if i == 0 then o else Xor(OffsetAt(k, o, i - 1), L(k, Ntz(i)))
  }

  function BlockAt(s: seq<bv8>, i: nat): Block
    requires 16 * i + 16 <= |s|
  {
    s[16 * i..16 * i + 16]
  }

  function EncryptBlock(k: Cipher, offset: Block, b: Block): Block {
    Xor(k.enc(Xor(b, offset)), offset)
  }

  function DecryptBlock(k: Cipher, offset: Block, b: Block): Block {
    Xor(k.dec(Xor(b, offset)), offset)
  }

  function EncryptBlocks(k: Cipher, o: Block, p: seq<bv8>, n: nat): (c: seq<bv8>)
    requires 16 * n <= |p|
    ensures |c| == 16 * n
  {
    if n == 0 then [] else EncryptBlocks(k, o, p, n - 1) + EncryptBlock(k, OffsetAt(k, o, n), BlockAt(p, n - 1))
  }

  function DecryptBlocks(k: Cipher, o: Block, c: seq<bv8>, n: nat): (p: seq<bv8>)
    requires 16 * n <= |c|
    ensures |p| == 16 * n
  {
    if n == 0 then [] else DecryptBlocks(k, o, c, n - 1) + DecryptBlock(k, OffsetAt(k, o, n), BlockAt(c, n - 1))
  }

  function Checksum(p: seq<bv8>, n: nat): Block
    requires 16 * n <= |p|
  {
    if n == 0 then ZERO else Xor(Checksum(p, n - 1), BlockAt(p, n - 1))
  }

  /** A short last block xor-ed with the first bytes of a pad. */
  function XorShort(s: seq<bv8>, pad: Block): (r: seq<bv8>)
    requires |s| < 16
    ensures |r| == |s|
  {
    seq(|s|, i requires 0 <= i < |s| => XorByte(s[i], pad[i]))
  }

  function Padded(s: seq<bv8>): Block
    requires |s| < 16
  {
    s + [0x80] + Zeros(15 - |s|)
  }

  function Rest(s: seq<bv8>): (r: seq<bv8>)
    ensures |r| == |s| % 16 && |s| == 16 * (|s| / 16) + |r|
  {
    s[16 * (|s| / 16)..]
  }

  function LastOffset(k: Cipher, o: Block, length: nat): Block {
    var offset := OffsetAt(k, o, length / 16);
    if length % 16 > 0 then Xor(offset, LStar(k)) else offset
  }

  function Body(k: Cipher, o: Block, p: seq<bv8>): (c: seq<bv8>)
    ensures |c| == |p|
  {
    EncryptBlocks(k, o, p, |p| / 16) + XorShort(Rest(p), k.enc(LastOffset(k, o, |p|)))
  }

  function Unbody(k: Cipher, o: Block, c: seq<bv8>): (p: seq<bv8>)
    ensures |p| == |c|
  {
    DecryptBlocks(k, o, c, |c| / 16) + XorShort(Rest(c), k.enc(LastOffset(k, o, |c|)))
  }

  function FullChecksum(p: seq<bv8>): Block {
    var sum := Checksum(p, |p| / 16);
    if |p| % 16 > 0 then Xor(sum, Padded(Rest(p))) else sum
  }

  function Tag(k: Cipher, o: Block, p: seq<bv8>): Block {
    k.enc(Xor(Xor(FullChecksum(p), LastOffset(k, o, |p|)), LDollar(k)))
  }

  /** OCB-ENCRYPT of section 4.2 of RFC 7253 without associated data. */
  function Seal(k: Cipher, nonce: seq<bv8>, p: seq<bv8>): seq<bv8> {
    Body(k, InitOffset(k, nonce), p) + Tag(k, InitOffset(k, nonce), p)
  }

  /** OCB-DECRYPT of section 4.3. */
  function Open(k: Cipher, nonce: seq<bv8>, c: seq<bv8>): Option<seq<bv8>> {
    if |c| < 16 then None
    else
      var p := Unbody(k, InitOffset(k, nonce), c[..|c| - 16]);
      if c[|c| - 16..] == Tag(k, InitOffset(k, nonce), p) then Some(p) else None
  }

  // --------------------------------------------------------------------- the round trip

  lemma {:induction false} BlockRoundTrip(k: Cipher, offset: Block, b: Block)
    requires Permutation(k)
    ensures DecryptBlock(k, offset, EncryptBlock(k, offset, b)) == b
    ensures EncryptBlock(k, offset, DecryptBlock(k, offset, b)) == b
  {
    hide Xor;
    XorTwice(k.enc(Xor(b, offset)), offset);
    XorTwice(k.dec(Xor(b, offset)), offset);
    XorTwice(b, offset);
  }

  lemma {:induction false} EncryptedAt(k: Cipher, o: Block, p: seq<bv8>, n: nat, rest: seq<bv8>, i: nat)
    requires 16 * n <= |p| && i < n
    ensures BlockAt(EncryptBlocks(k, o, p, n) + rest, i) == EncryptBlock(k, OffsetAt(k, o, i + 1), BlockAt(p, i))
  {
    hide EncryptBlock, OffsetAt, Xor;
    if i < n - 1 {
      var last := EncryptBlock(k, OffsetAt(k, o, n), BlockAt(p, n - 1));
      EncryptedAt(k, o, p, n - 1, last + rest, i);
      assert EncryptBlocks(k, o, p, n) + rest == EncryptBlocks(k, o, p, n - 1) + (last + rest);
    }
  }

  lemma {:induction false} DecryptedAt(k: Cipher, o: Block, c: seq<bv8>, n: nat, rest: seq<bv8>, i: nat)
    requires 16 * n <= |c| && i < n
    ensures BlockAt(DecryptBlocks(k, o, c, n) + rest, i) == DecryptBlock(k, OffsetAt(k, o, i + 1), BlockAt(c, i))
  {
    hide DecryptBlock, OffsetAt, Xor;
    if i < n - 1 {
      var last := DecryptBlock(k, OffsetAt(k, o, n), BlockAt(c, n - 1));
      DecryptedAt(k, o, c, n - 1, last + rest, i);
      assert DecryptBlocks(k, o, c, n) + rest == DecryptBlocks(k, o, c, n - 1) + (last + rest);
    }
  }

  lemma {:induction false} PrefixBlocks(s: seq<bv8>, n: nat)
    requires n > 0 && 16 * n <= |s|
    ensures s[..16 * (n - 1)] + BlockAt(s, n - 1) == s[..16 * n]
  {}

  lemma {:induction false} DecryptsBlocks(k: Cipher, o: Block, p: seq<bv8>, m: nat, rest: seq<bv8>, n: nat)
    requires Permutation(k) && 16 * m <= |p| && n <= m
    ensures DecryptBlocks(k, o, EncryptBlocks(k, o, p, m) + rest, n) == p[..16 * n]
  {
    hide EncryptBlocks, EncryptBlock, DecryptBlock, OffsetAt, Permutation, Xor;
    if n > 0 {
      DecryptsBlocks(k, o, p, m, rest, n - 1);
      EncryptedAt(k, o, p, m, rest, n - 1);
      BlockRoundTrip(k, OffsetAt(k, o, n), BlockAt(p, n - 1));
      PrefixBlocks(p, n);
    }
  }

  lemma {:induction false} EncryptsBlocks(k: Cipher, o: Block, c: seq<bv8>, m: nat, rest: seq<bv8>, n: nat)
    requires Permutation(k) && 16 * m <= |c| && n <= m
    ensures EncryptBlocks(k, o, DecryptBlocks(k, o, c, m) + rest, n) == c[..16 * n]
  {
    hide DecryptBlocks, EncryptBlock, DecryptBlock, OffsetAt, Permutation, Xor;
    if n > 0 {
      EncryptsBlocks(k, o, c, m, rest, n - 1);
      DecryptedAt(k, o, c, m, rest, n - 1);
      BlockRoundTrip(k, OffsetAt(k, o, n), BlockAt(c, n - 1));
      PrefixBlocks(c, n);
    }
  }

  lemma {:induction false} XorShortTwice(s: seq<bv8>, pad: Block)
    requires |s| < 16
    ensures XorShort(XorShort(s, pad), pad) == s
  {
    assert forall i :: 0 <= i < |s| ==> XorShort(XorShort(s, pad), pad)[i] == XorByte(XorByte(s[i], pad[i]), pad[i]);
  }

  lemma {:induction false} RestOf(a: seq<bv8>, b: seq<bv8>)
    requires |a| % 16 == 0 && |b| < 16
    ensures |a + b| / 16 == |a| / 16 && Rest(a + b) == b
  {}

  lemma {:induction false} BodyRoundTrip(k: Cipher, o: Block, s: seq<bv8>)
    requires Permutation(k)
    ensures Unbody(k, o, Body(k, o, s)) == s
    ensures Body(k, o, Unbody(k, o, s)) == s
  {
    hide EncryptBlocks, DecryptBlocks, XorShort, Rest, LastOffset, Permutation;
    var m := |s| / 16;
    var pad := k.enc(LastOffset(k, o, |s|));
    var rest := XorShort(Rest(s), pad);
    DecryptsBlocks(k, o, s, m, rest, m);
    EncryptsBlocks(k, o, s, m, rest, m);
    RestOf(EncryptBlocks(k, o, s, m), rest);
    RestOf(DecryptBlocks(k, o, s, m), rest);
    XorShortTwice(Rest(s), pad);
    SplitRest(s);
  }

  lemma {:induction false} SplitRest(s: seq<bv8>)
    ensures s[..16 * (|s| / 16)] + Rest(s) == s
  {}

  /** Decryption accepts exactly what encryption under the same nonce produces, and then
      returns the plaintext. */
  lemma {:induction false} OpensWhatSeals(k: Cipher, nonce: seq<bv8>, p: seq<bv8>, c: seq<bv8>)
    requires Permutation(k)
    ensures Open(k, nonce, c) == Some(p) <==> c == Seal(k, nonce, p)
  {
    hide Body, Unbody, Tag, InitOffset, Permutation;
    var o := InitOffset(k, nonce);
    BodyRoundTrip(k, o, p);
    if |c| >= 16 {
      BodyRoundTrip(k, o, c[..|c| - 16]);
      assert c == c[..|c| - 16] + c[|c| - 16..];
    }
    assert Seal(k, nonce, p)[..|p|] == Body(k, o, p);
  }

  // ------------------------------------------------------------------------- datagrams

  function Low(v: bv64): bv8 { (v & 0xff) as bv8 }

  function Join8(a: bv8, b: bv8, c: bv8, d: bv8, e: bv8, f: bv8, g: bv8, h: bv8): bv64 {
    (a as bv64 << 56) | (b as bv64 << 48) | (c as bv64 << 40) | (d as bv64 << 32)
    | (e as bv64 << 24) | (f as bv64 << 16) | (g as bv64 << 8) | h as bv64
  }

  function OctetAt(v: bv64, i: nat): bv8
    requires i < 8
  {
    match i
    case 0 => Low(v >> 56)
    case 1 => Low(v >> 48)
    case 2 => Low(v >> 40)
    case 3 => Low(v >> 32)
    case 4 => Low(v >> 24)
    case 5 => Low(v >> 16)
    case 6 => Low(v >> 8)
    case 7 => Low(v)
  }

  /** The eight octets of a 64-bit number, most significant first. */
  function BigEndian(v: bv64): (s: seq<bv8>)
    ensures |s| == 8
  {
    seq(8, i requires 0 <= i < 8 => OctetAt(v, i))
  }

  function FromBigEndian(s: seq<bv8>): bv64
    requires |s| == 8
  {
    Join8(s[0], s[1], s[2], s[3], s[4], s[5], s[6], s[7])
  }

  lemma {:induction false} JoinsOctets(v: bv64)
    ensures Join8(OctetAt(v, 0), OctetAt(v, 1), OctetAt(v, 2), OctetAt(v, 3),
                  OctetAt(v, 4), OctetAt(v, 5), OctetAt(v, 6), OctetAt(v, 7)) == v
  {}

  lemma {:induction false} OctetsJoin(a: bv8, b: bv8, c: bv8, d: bv8, e: bv8, f: bv8, g: bv8, h: bv8)
    ensures var v := Join8(a, b, c, d, e, f, g, h);
      && OctetAt(v, 0) == a && OctetAt(v, 1) == b && OctetAt(v, 2) == c && OctetAt(v, 3) == d
      && OctetAt(v, 4) == e && OctetAt(v, 5) == f && OctetAt(v, 6) == g && OctetAt(v, 7) == h
  {}

  lemma {:induction false} BigEndianReads(v: bv64)
    ensures FromBigEndian(BigEndian(v)) == v
  {
    hide OctetAt, Join8;
    JoinsOctets(v);
  }

  lemma {:induction false} BigEndianWrites(s: seq<bv8>)
    requires |s| == 8
    ensures BigEndian(FromBigEndian(s)) == s
  {
    hide OctetAt, Join8;
    OctetsJoin(s[0], s[1], s[2], s[3], s[4], s[5], s[6], s[7]);
  }

  function NonceFor(header: seq<bv8>): seq<bv8> { [0, 0, 0, 0] + header }

  function SealDatagram(k: Cipher, dirSeq: bv64, p: seq<bv8>): seq<bv8> {
    BigEndian(dirSeq) + Seal(k, NonceFor(BigEndian(dirSeq)), p)
  }

  function OpenDatagram(k: Cipher, packet: seq<bv8>): Option<(bv64, seq<bv8>)> {
    if |packet| < 24 then None
    else
      var p := Open(k, NonceFor(packet[..8]), packet[8..]);
      if p.None? then None else Some((FromBigEndian(packet[..8]), p.value))
  }

  /** A datagram opens to a sequence number and a plaintext exactly if it is the one sealed
      from them. */
  lemma {:induction false} DatagramRoundTrip(k: Cipher, dirSeq: bv64, p: seq<bv8>, packet: seq<bv8>)
    requires Permutation(k)
    ensures OpenDatagram(k, packet) == Some((dirSeq, p)) <==> packet == SealDatagram(k, dirSeq, p)
  {
    hide Open, Seal, Permutation, FromBigEndian, BigEndian;
    var header := BigEndian(dirSeq);
    BigEndianReads(dirSeq);
    SealLength(k, NonceFor(header), p);
    assert SealDatagram(k, dirSeq, p)[..8] == header;
    assert SealDatagram(k, dirSeq, p)[8..] == Seal(k, NonceFor(header), p);
    if |packet| >= 24 {
      BigEndianWrites(packet[..8]);
      OpensWhatSeals(k, NonceFor(packet[..8]), p, packet[8..]);
      assert packet == packet[..8] + packet[8..];
    }
  }

  lemma {:induction false} SealLength(k: Cipher, nonce: seq<bv8>, p: seq<bv8>)
    ensures |Seal(k, nonce, p)| == |p| + 16
  {}

  // ---------------------------------------------------------------------- the key object

  /** The table of the first masks, each the double of the one before. */
  function Masks(c: Cipher, n: nat): (s: seq<Block>)
    ensures |s| == n
  {
    if n == 0 then []
    else
      var before := Masks(c, n - 1);
      before + [Double(if n == 1 then LDollar(c) else before[n - 2])]
  }

  lemma {:induction false} MasksAre(c: Cipher, n: nat)
    ensures forall i :: 0 <= i < n ==> Masks(c, n)[i] == L(c, i)
  {
    hide Double, LDollar;
    if n > 0 {
      MasksAre(c, n - 1);
    }
  }

  class Key {
    ghost const k: Cipher
    const enc: Block -> Block
    const dec: Block -> Block
    const lStar: Block
    const lDollar: Block
    const l: seq<Block>

    ghost predicate Valid() {
      && k == Cipher(enc, dec)
      && lStar == LStar(k) && lDollar == LDollar(k)
      && |l| == 32 && forall i :: 0 <= i < 32 ==> l[i] == L(k, i)
    }

    constructor (c: Cipher)
      ensures Valid() && k == c
    {
      var masks := Masks(c, 32);
      MasksAre(c, 32);
      k, enc, dec, lStar, lDollar, l := c, c.enc, c.dec, LStar(c), LDollar(c), masks;
    }

    method XorInto(dst: array<bv8>, src: Block)
      requires dst.Length == 16
      modifies dst
      ensures dst[..] == Xor(old(dst[..]), src)
    {
      ghost var was: Block := dst[..];
      for i := 0 to 16
        invariant forall j :: 0 <= j < i ==> dst[j] == XorByte(was[j], src[j])
        invariant forall j :: i <= j < 16 ==> dst[j] == was[j]
      {
        dst[i] := XorByte(dst[i], src[i]);
      }
    }

    method CopyInto(dst: array<bv8>, at: nat, src: seq<bv8>)
      requires at + |src| <= dst.Length
      modifies dst
      ensures dst[..] == old(dst[..at]) + src + old(dst[at + |src|..])
    {
      ghost var was := dst[..];
      for i := 0 to |src|
        invariant dst[..] == was[..at] + src[..i] + was[at + i..]
      {
        dst[at + i] := src[i];
        assert src[..i + 1] == src[..i] + [src[i]];
      }
      assert src[..|src|] == src;
    }

    method BlockMask(i: nat) returns (mask: Block)
      requires Valid() && i + 1 < U32_SIZE
      ensures mask == L(k, Ntz(i + 1))
    {
      MaskInRange(i + 1);
      mask := l[Ntz(i + 1)];
    }

    method NextOffset(offset: array<bv8>, i: nat, ghost o: Block)
      requires Valid() && offset.Length == 16 && i + 1 < U32_SIZE && offset[..] == OffsetAt(k, o, i)
      modifies offset
      ensures offset[..] == OffsetAt(k, o, i + 1)
    {
      hide Xor, L;
      var mask := BlockMask(i);
      XorInto(offset, mask);
    }

    /** Adds the mask of a short last block. */
    method LastMask(offset: array<bv8>, length: nat, ghost o: Block)
      requires Valid() && offset.Length == 16 && offset[..] == OffsetAt(k, o, length / 16)
      modifies offset
      ensures offset[..] == LastOffset(k, o, length)
    {
      hide Xor, OffsetAt;
      if length % 16 > 0 {
        XorInto(offset, lStar);
      }
    }

    method MakeTag(offset: array<bv8>, checksum: array<bv8>, p: seq<bv8>, ghost o: Block) returns (tag: Block)
      requires Valid() && offset.Length == 16 && checksum.Length == 16 && offset != checksum
      requires offset[..] == LastOffset(k, o, |p|) && checksum[..] == Checksum(p, |p| / 16)
      modifies checksum
      ensures tag == Tag(k, o, p)
    {
      hide Xor, LastOffset, Checksum, Rest, Padded;
      if |p| % 16 > 0 {
        XorInto(checksum, Padded(Rest(p)));
      }
      ghost var sum := FullChecksum(p);
      assert checksum[..] == sum;
      XorInto(checksum, offset[..]);
      XorInto(checksum, lDollar);
      tag := enc(checksum[..]);
    }

    method Encrypt(nonce: seq<bv8>, plaintext: seq<bv8>) returns (out: seq<bv8>)
      requires Valid() && |plaintext| / 16 < U32_SIZE
      ensures out == Seal(k, nonce, plaintext)
    {
      hide Xor, L, InitOffset, EncryptBlock, XorShort, Tag, OffsetAt, LastOffset, Checksum;
      ghost var o := InitOffset(k, nonce);
      var offset, checksum := new bv8[16], new bv8[16];
      CopyInto(offset, 0, InitOffset(Cipher(enc, dec), nonce));
      CopyInto(checksum, 0, ZERO);
      StartOffset(k, o, plaintext);
      assert offset[..] == o;
      assert checksum[..] == ZERO;
      var body: seq<bv8> := [];
      for i := 0 to |plaintext| / 16
        invariant offset[..] == OffsetAt(k, o, i) && checksum[..] == Checksum(plaintext, i)
        invariant body == EncryptBlocks(k, o, plaintext, i)
      {
        NextOffset(offset, i, o);
        var block := BlockAt(plaintext, i);
        ChecksumStep(plaintext, i);
        XorInto(checksum, block);
        body := body + EncryptBlock(Cipher(enc, dec), offset[..], block);
      }
      LastMask(offset, |plaintext|, o);
      body := body + XorShort(Rest(plaintext), enc(offset[..]));
      assert body == Body(k, o, plaintext);
      var tag := MakeTag(offset, checksum, plaintext, o);
      out := body + tag;
    }

    method ConstantTimeEq(a: seq<bv8>, b: seq<bv8>) returns (same: bool)
      ensures same == (a == b)
    {
      if |a| != |b| {
        return false;
      }
      var diff: bv8 := 0;
      for i := 0 to |a|
        invariant diff == 0 <==> a[..i] == b[..i]
      {
        DiffStep(diff, a[i], b[i]);
        diff := diff | XorByte(a[i], b[i]);
        assert a[..i + 1] == a[..i] + [a[i]] && b[..i + 1] == b[..i] + [b[i]];
      }
      assert a[..|a|] == a && b[..|b|] == b;
      same := diff == 0;
    }

    method Decrypt(nonce: seq<bv8>, sealed: seq<bv8>) returns (out: Option<seq<bv8>>)
      requires Valid() && (|sealed| >= 16 ==> (|sealed| - 16) / 16 < U32_SIZE)
      ensures out == Open(k, nonce, sealed)
    {
      hide Xor, L, InitOffset, DecryptBlock, XorShort, Tag, OffsetAt, LastOffset, Checksum;
      if |sealed| < 16 {
        return None;
      }
      var c := sealed[..|sealed| - 16];
      ghost var o := InitOffset(k, nonce);
      var offset, checksum := new bv8[16], new bv8[16];
      CopyInto(offset, 0, InitOffset(Cipher(enc, dec), nonce));
      CopyInto(checksum, 0, ZERO);
      StartOffset(k, o, c);
      assert offset[..] == o;
      assert checksum[..] == ZERO;
      var p: seq<bv8> := [];
      for i := 0 to |c| / 16
        invariant offset[..] == OffsetAt(k, o, i)
        invariant p == DecryptBlocks(k, o, c, i)
        invariant checksum[..] == Checksum(p, i)
      {
        NextOffset(offset, i, o);
        var block := DecryptBlock(Cipher(enc, dec), offset[..], BlockAt(c, i));
        ChecksumGrows(p, i, block);
        XorInto(checksum, block);
        p := p + block;
      }
      LastMask(offset, |c|, o);
      var rest := XorShort(Rest(c), enc(offset[..]));
      ChecksumMore(p, |c| / 16, rest);
      p := p + rest;
      assert p == Unbody(k, o, c);
      var expected := MakeTag(offset, checksum, p, o);
      var same := ConstantTimeEq(sealed[|sealed| - 16..], expected);
      out := if same then Some(p) else None;
    }
  }

  lemma {:induction false} DiffStep(diff: bv8, x: bv8, y: bv8)
    ensures diff | XorByte(x, y) == 0 <==> diff == 0 && x == y
  {}

  lemma {:induction false} StartOffset(k: Cipher, o: Block, s: seq<bv8>)
    ensures OffsetAt(k, o, 0) == o && Checksum(s, 0) == ZERO && Checksum([], 0) == ZERO
  {}

  lemma {:induction false} ChecksumStep(p: seq<bv8>, i: nat)
    requires 16 * i + 16 <= |p|
    ensures Checksum(p, i + 1) == Xor(Checksum(p, i), BlockAt(p, i))
  {}

  /** The checksum of the first blocks does not depend on what follows. */
  lemma {:induction false} ChecksumMore(p: seq<bv8>, n: nat, more: seq<bv8>)
    requires 16 * n <= |p|
    ensures Checksum(p + more, n) == Checksum(p, n)
  {
    if n > 0 {
      ChecksumMore(p, n - 1, more);
      assert BlockAt(p + more, n - 1) == BlockAt(p, n - 1);
    }
  }

  lemma {:induction false} ChecksumGrows(p: seq<bv8>, n: nat, block: Block)
    requires 16 * n == |p|
    ensures Checksum(p + block, n + 1) == Xor(Checksum(p, n), block)
  {
    ChecksumMore(p, n, block);
    ChecksumStep(p + block, n);
    assert BlockAt(p + block, n) == block;
  }
}
