/** The octets of a packet: sequence number with its direction, and under the seal the timestamps, the
    fragment's header and its payload. */
module Headers {
  import opened Basics
  import opened Fragments
  import opened Wire
  import Ocb
  import Standard

  // ---------------------------------------------------------------------------- fragments

  /** Two octets as a number, the first the more significant. */
  function Two(s: seq<byte>, i: nat): nat
    requires i + 1 < |s|
  {
    s[i] as nat * 256 + s[i + 1] as nat
  }

  lemma {:induction false} TwoMore(s: seq<byte>)
    requires |s| >= 2
    ensures Number(s) == Number(s[..|s| - 2]) * 65536 + Two(s, |s| - 2)
  {
    var init := s[..|s| - 1];
    assert init[..|init| - 1] == s[..|s| - 2];
    assert Number(init) == Number(s[..|s| - 2]) * 256 + init[|init| - 1] as nat;
  }

  lemma {:induction false} EightOctets(s: seq<byte>)
    requires |s| == 8
    ensures Number(s) == ((Two(s, 0) * 65536 + Two(s, 2)) * 65536 + Two(s, 4)) * 65536 + Two(s, 6)
  {
    TwoMore(s);
    TwoMore(s[..6]);
    TwoMore(s[..4]);
    TwoMore(s[..2]);
    assert s[..6][..4] == s[..4] && s[..4][..2] == s[..2] && s[..2][..0] == [];
  }

  lemma {:induction false} NothingNumbers()
    ensures Number([]) == 0
  {}

  /** Eight octets for the message, two for the place in it with the top bit set on the last one, and the
      payload. */
  lemma {:induction false} FragmentOctets(f: Fragment)
    requires f.id <= 0xFFFF_FFFF_FFFF_FFFF && f.num < 0x8000
    ensures var d := EncodeFragment(f);
      && |d| == 10 + |f.payload|
      && f.id == ((Two(d, 0) * 65536 + Two(d, 2)) * 65536 + Two(d, 4)) * 65536 + Two(d, 6)
      && Two(d, 8) == f.num + (if f.final then 0x8000 else 0)
      && d[10..] == f.payload
  {
    hide BigEndian, Number;
    var d := EncodeFragment(f);
    var place := f.num + if f.final then 0x8000 else 0;
    var id, num := BigEndian(f.id, 8), BigEndian(place, 2);
    HeaderSizes();
    BigEndianReads(f.id, 8);
    BigEndianReads(place, 2);
    EightOctets(id);
    TwoMore(num);
    assert num[..0] == [];
    NothingNumbers();
    assert d == id + num + f.payload;
    forall i | 0 <= i < 8 ensures d[i] == id[i] {}
    assert d[8] == num[0] && d[9] == num[1];
  }

  // ----------------------------------------------------------------------------- octets

  /** An octet and the number it stands for, bit by bit. */
  predicate SameBits(v: bv8, b: byte) {
    var n := b as nat;
    && (v & 0x80 != 0 <==> n / 128 % 2 == 1) && (v & 0x40 != 0 <==> n / 64 % 2 == 1)
    && (v & 0x20 != 0 <==> n / 32 % 2 == 1) && (v & 0x10 != 0 <==> n / 16 % 2 == 1)
    && (v & 0x08 != 0 <==> n / 8 % 2 == 1) && (v & 0x04 != 0 <==> n / 4 % 2 == 1)
    && (v & 0x02 != 0 <==> n / 2 % 2 == 1) && (v & 0x01 != 0 <==> n % 2 == 1)
  }

  lemma {:induction false} OctetBits(b: byte)
    ensures SameBits(ToOctet(b), b)
  {
    hide Pack;
    PackedBits(Digit(b, 128), Digit(b, 64), Digit(b, 32), Digit(b, 16), Digit(b, 8), Digit(b, 4), Digit(b, 2), Digit(b, 1));
  }

  // ---------------------------------------------------------------------------- packets

  /** The top bit tells the direction and the others are the sequence number. */
  predicate Numbers(v: bv64, dir: bv64, n: bv64) {
    v & 0x8000_0000_0000_0000 == dir && v & 0x7fff_ffff_ffff_ffff == n & 0x7fff_ffff_ffff_ffff
  }

  lemma {:induction false} NumberBits(dir: bv64, n: bv64)
    requires dir == 0 || dir == DIRECTION
    ensures Numbers(DirSeq(dir, n), dir, n)
  {}

  predicate Plaintext(plain: seq<bv8>, stamps: seq<byte>, fragment: seq<byte>) {
    && |plain| == |stamps| + |fragment|
    && forall i :: 0 <= i < |plain| ==> SameBits(plain[i], if i < |stamps| then stamps[i] else fragment[i - |stamps|])
  }

  function Header(d: seq<bv8>): bv64
    requires |d| >= 8
  {
    (d[0] as bv64 << 56) | (d[1] as bv64 << 48) | (d[2] as bv64 << 40) | (d[3] as bv64 << 32)
    | (d[4] as bv64 << 24) | (d[5] as bv64 << 16) | (d[6] as bv64 << 8) | d[7] as bv64
  }

  lemma {:induction false} PlaintextIs(stamps: seq<byte>, fragment: seq<byte>)
    ensures Plaintext(ToOctets(stamps + fragment), stamps, fragment)
  {
    hide ToOctet, SameBits;
    var plain := ToOctets(stamps + fragment);
    forall i | 0 <= i < |plain|
      ensures SameBits(plain[i], if i < |stamps| then stamps[i] else fragment[i - |stamps|])
    {
      OctetBits((stamps + fragment)[i]);
    }
  }

  lemma {:induction false} HeaderIs(k: Ocb.Cipher, dirSeq: bv64, p: seq<bv8>)
    ensures var d := Ocb.SealDatagram(k, dirSeq, p);
      |d| == 8 + |p| + 16 && Header(d) == dirSeq && d[8..] == Ocb.Seal(k, [0, 0, 0, 0] + d[..8], p)
  {
    hide Ocb.SealDatagram, Ocb.Seal;
    Standard.DatagramHeader(k, dirSeq, p);
  }

  /** A packet: direction and sequence number in the clear, the rest sealed under them. */
  lemma {:induction false} PacketOctets(k: Ocb.Cipher, dir: bv64, n: bv64, stamps: seq<byte>, f: Fragment) returns (plain: seq<bv8>)
    requires dir == 0 || dir == DIRECTION
    ensures Plaintext(plain, stamps, EncodeFragment(f))
    ensures var d := SealFragment(k, DirSeq(dir, n), stamps, f);
      && |d| == 8 + |plain| + 16
      && Numbers(Header(d), dir, n)
      && d[8..] == Ocb.Seal(k, [0, 0, 0, 0] + d[..8], plain)
  {
    hide Ocb.SealDatagram, Ocb.Seal, EncodeFragment, ToOctets, Plaintext, DirSeq, Header, Numbers;
    plain := ToOctets(stamps + EncodeFragment(f));
    PlaintextIs(stamps, EncodeFragment(f));
    NumberBits(dir, n);
    HeaderIs(k, DirSeq(dir, n), plain);
  }

  // ------------------------------------------------------------------------- what is taken

  lemma {:induction false} OctetRead(v: bv8)
    ensures SameBits(v, FromOctet(v))
  {
    WeighedBits(Lit(v, 0x80), Lit(v, 0x40), Lit(v, 0x20), Lit(v, 0x10), Lit(v, 0x08), Lit(v, 0x04), Lit(v, 0x02), Lit(v, 0x01));
  }

  lemma {:induction false} WeighedBits(b7: bool, b6: bool, b5: bool, b4: bool, b3: bool, b2: bool, b1: bool, b0: bool)
    ensures var n := Weigh(b7, b6, b5, b4, b3, b2, b1, b0) as nat;
      && (n / 128 % 2 == 1 <==> b7) && (n / 64 % 2 == 1 <==> b6) && (n / 32 % 2 == 1 <==> b5) && (n / 16 % 2 == 1 <==> b4)
      && (n / 8 % 2 == 1 <==> b3) && (n / 4 % 2 == 1 <==> b2) && (n / 2 % 2 == 1 <==> b1) && (n % 2 == 1 <==> b0)
  {
    var q7 := Weight(b7, 1);
    var q6 := 2 * q7 + Weight(b6, 1);
    var q5 := 2 * q6 + Weight(b5, 1);
    var q4 := 2 * q5 + Weight(b4, 1);
    var q3 := 2 * q4 + Weight(b3, 1);
    var q2 := 2 * q3 + Weight(b2, 1);
    var q1 := 2 * q2 + Weight(b1, 1);
    var n := 2 * q1 + Weight(b0, 1);
    Summed(b7, b6, b5, b4, b3, b2, b1, b0, n, q1, q2, q3, q4, q5, q6, q7);
    hide Weigh;
    assert n / 2 == q1 && n / 4 == q2 && n / 8 == q3 && n / 16 == q4 && n / 32 == q5 && n / 64 == q6 && n / 128 == q7 by {
      Halves(n, q1);
      Halves(q1, q2);
      Halves(q2, q3);
      Halves(q3, q4);
      Halves(q4, q5);
      Halves(q5, q6);
      Halves(q6, q7);
      assert n / 4 == n / 2 / 2 && n / 8 == n / 4 / 2 && n / 16 == n / 8 / 2;
      assert n / 32 == n / 16 / 2 && n / 64 == n / 32 / 2 && n / 128 == n / 64 / 2;
    }
  }

  lemma {:induction false} Halves(n: nat, q: nat)
    requires 2 * q <= n <= 2 * q + 1
    ensures n / 2 == q
  {}

  /** Sealed under its own number, with this plaintext. */
  predicate Sealed(k: Ocb.Cipher, packet: seq<bv8>, plain: seq<bv8>) {
    |packet| >= 24 && packet == Ocb.SealDatagram(k, Header(packet), plain)
  }

  /** From the other end, and not seen before. */
  predicate NewHere(r: Inbox, dir: bv64, packet: seq<bv8>) {
    |packet| >= 24 && SameDirection(Header(packet), dir) && LowBits(Header(packet)) !in r.seen
  }

  predicate SameDirection(a: bv64, b: bv64) { a & 0x8000_0000_0000_0000 == b & 0x8000_0000_0000_0000 }

  function LowBits(a: bv64): bv64 { a & 0x7fff_ffff_ffff_ffff }

  lemma {:induction false} NumberSplit(v: bv64, dir: bv64)
    ensures SequenceOf(v) == LowBits(v) && (DirectionOf(v) == DirectionOf(dir) <==> SameDirection(v, dir))
  {}

  lemma {:induction false} HeaderRead(packet: seq<bv8>)
    requires |packet| >= 8
    ensures Ocb.FromBigEndian(packet[..8]) == Header(packet)
  {}

  lemma {:induction false} SealedOpens(k: Ocb.Cipher, packet: seq<bv8>, plain: seq<bv8>)
    requires Ocb.Permutation(k) && |packet| >= 24
    ensures Sealed(k, packet, plain) <==> Ocb.OpenDatagram(k, packet) == Some((Header(packet), plain))
  {
    hide Ocb.Permutation, Ocb.SealDatagram, Ocb.OpenDatagram, Header;
    Ocb.DatagramRoundTrip(k, Header(packet), plain, packet);
  }

  lemma {:induction false} OpenedNumber(k: Ocb.Cipher, packet: seq<bv8>)
    requires |packet| >= 24
    ensures var o := Ocb.OpenDatagram(k, packet); o.Some? ==> o.value.0 == Header(packet)
  {
    hide Ocb.Open, Header, Ocb.FromBigEndian;
    HeaderRead(packet);
  }

  /** A packet too short, from this end, seen before, not sealed with the key, or with less than its four
      octets of timestamps under the seal changes nothing. */
  lemma {:induction false} PacketDropped(k: Ocb.Cipher, dir: bv64, r: Inbox, packet: seq<bv8>)
    requires Ocb.Permutation(k)
    requires !NewHere(r, dir, packet) || forall plain: seq<bv8> :: Sealed(k, packet, plain) ==> |plain| < 4
    ensures TakeDatagram(k, dir, r, packet) == (r, None)
  {
    hide Ocb.Permutation, Ocb.OpenDatagram, Header, Ocb.FromBigEndian, DecodeFragment, Add, Remember, Sealed, Numbers;
    if |packet| >= 24 {
      HeaderRead(packet);
      OpenedNumber(k, packet);
      var o := Ocb.OpenDatagram(k, packet);
      if o.Some? {
        SealedOpens(k, packet, o.value.1);
      }
    }
  }

  /** Any other is remembered, and if the rest of the plaintext is a fragment, it is added. */
  lemma {:induction false} PacketTaken(k: Ocb.Cipher, dir: bv64, r: Inbox, packet: seq<bv8>, plain: seq<bv8>)
    requires Ocb.Permutation(k) && NewHere(r, dir, packet) && Sealed(k, packet, plain) && |plain| >= 4
    ensures var after := r.(seen := Remember(r.seen, LowBits(Header(packet))));
      if |plain| < 14 then TakeDatagram(k, dir, r, packet) == (after, None)
      else
        exists f: Fragment ::
          && f.id <= 0xFFFF_FFFF_FFFF_FFFF && f.num < 0x8000 && EncodeFragment(f) == FromOctets(plain[4..])
          && TakeDatagram(k, dir, r, packet) == (after.(assembly := Add(r.assembly, f).0), Add(r.assembly, f).1)
  {
    hide Ocb.Permutation, Ocb.OpenDatagram, Header, Ocb.FromBigEndian, DecodeFragment, EncodeFragment, Add, Remember, Sealed, FromOctets;
    hide SequenceOf, LowBits, DirectionOf, SameDirection;
    HeaderRead(packet);
    NumberSplit(Header(packet), dir);
    SealedOpens(k, packet, plain);
    FragmentRead(FromOctets(plain[4..]));
  }

  lemma {:induction false} FragmentRead(data: seq<byte>)
    ensures var f := DecodeFragment(data);
      if |data| < 10 then f.Err?
      else f.Ok? && f.value.id <= 0xFFFF_FFFF_FFFF_FFFF && f.value.num < 0x8000 && EncodeFragment(f.value) == data
  {
    hide Number, BigEndian;
    if |data| >= 10 {
      HeaderSizes();
      BigEndianWrites(data[..8]);
      BigEndianWrites(data[8..10]);
      var f := DecodeFragment(data).value;
      FragmentRoundTrip(f, data);
    }
  }

  // ---------------------------------------------------------------------------- the window

  function RememberAll(seen: seq<bv64>, ns: seq<bv64>): seq<bv64> {
    if ns == [] then seen else Remember(RememberAll(seen, ns[..|ns| - 1]), ns[|ns| - 1])
  }

  predicate AllNew(seen: seq<bv64>, ns: seq<bv64>) {
    && (forall i :: 0 <= i < |ns| ==> ns[i] !in seen)
    && (forall i, j :: 0 <= i < j < |ns| ==> ns[i] != ns[j])
  }

  lemma {:induction false} WindowMore(all: seq<bv64>, n: bv64)
    requires n !in all
    ensures var last, more := if |all| > 512 then all[|all| - 512..] else all, all + [n];
      Remember(last, n) == if |more| > 512 then more[|more| - 512..] else more
  {}

  /** The window after new numbers: the last 512 of all. */
  lemma {:induction false} WindowIs(seen: seq<bv64>, ns: seq<bv64>)
    requires |seen| <= 512 && AllNew(seen, ns)
    ensures var all := seen + ns; RememberAll(seen, ns) == if |all| > 512 then all[|all| - 512..] else all
    decreases |ns|
  {
    hide Remember;
    if ns == [] {
      assert seen + ns == seen;
    } else {
      var k := |ns| - 1;
      var before := seen + ns[..k];
      assert seen + ns == before + [ns[k]];
      WindowIs(seen, ns[..k]);
      assert forall i :: 0 <= i < k ==> ns[i] != ns[k];
      WindowMore(before, ns[k]);
    }
  }

  /** A number is remembered until 512 new ones have come after it. */
  lemma {:induction false} RememberedFor(seen: seq<bv64>, n: bv64, ns: seq<bv64>)
    requires |seen| <= 511 && n !in seen && AllNew(seen + [n], ns)
    ensures n in RememberAll(seen + [n], ns) <==> |ns| < 512
  {
    hide AllNew, Remember, RememberAll;
    WindowIs(seen + [n], ns);
    OnlyThere(seen, n, ns);
    var all := seen + [n] + ns;
    assert all == (seen + [n]) + ns;
    if |all| > 512 {
      LastPart(all, |seen|, |all| - 512);
    } else {
      assert all[|seen|] == n;
    }
  }

  lemma {:induction false} OnlyThere(seen: seq<bv64>, n: bv64, ns: seq<bv64>)
    requires n !in seen && AllNew(seen + [n], ns)
    ensures forall i :: 0 <= i < |seen + [n] + ns| ==> ((seen + [n] + ns)[i] == n <==> i == |seen|)
  {
    assert (seen + [n])[|seen|] == n;
    forall j | 0 <= j < |ns| ensures ns[j] != n {
      assert ns[j] !in seen + [n];
    }
  }

  lemma {:induction false} LastPart(all: seq<bv64>, k: nat, from: nat)
    requires k < |all| && from <= |all| && forall i :: 0 <= i < |all| ==> (all[i] == all[k] <==> i == k)
    ensures all[k] in all[from..] <==> from <= k
  {
    if from <= k {
      assert all[from..][k - from] == all[k];
    }
  }

  /** Numbers seen before change nothing in a window that is not too long. */
  lemma {:induction false} SeenAgain(seen: seq<bv64>, n: bv64)
    requires |seen| <= 512 && n in seen
    ensures Remember(seen, n) == seen
  {}
}
