/** The wire as a whole: an instruction is cut up, stamped, numbered and sealed, and what the
    other end makes of its datagrams in any order, with repetitions and with foreign packets. */
module Wire {
  import opened Basics
  import opened Pb
  import opened Fragments
  import Ocb

  // ------------------------------------------------------------------- bytes and octets

  function Above(b: byte, weight: nat): nat
    requires weight > 0
  {
    b as int / weight
  }

  predicate Digit(b: byte, weight: nat)
    requires weight > 0
  {
    Above(b, weight) % 2 == 1
  }

  function Flag(on: bool, v: bv8): bv8 { if on then v else 0 }

  function Pack(b7: bool, b6: bool, b5: bool, b4: bool, b3: bool, b2: bool, b1: bool, b0: bool): bv8 {
    Flag(b7, 0x80) | Flag(b6, 0x40) | Flag(b5, 0x20) | Flag(b4, 0x10)
    | Flag(b3, 0x08) | Flag(b2, 0x04) | Flag(b1, 0x02) | Flag(b0, 0x01)
  }

  predicate Lit(v: bv8, mask: bv8) { v & mask != 0 }

  function Weight(on: bool, n: nat): nat { if on then n else 0 }

  function Weigh(b7: bool, b6: bool, b5: bool, b4: bool, b3: bool, b2: bool, b1: bool, b0: bool): byte {
    (Weight(b7, 128) + Weight(b6, 64) + Weight(b5, 32) + Weight(b4, 16)
     + Weight(b3, 8) + Weight(b2, 4) + Weight(b1, 2) + Weight(b0, 1)) as byte
  }

  function ToOctet(b: byte): bv8 {
    Pack(Digit(b, 128), Digit(b, 64), Digit(b, 32), Digit(b, 16), Digit(b, 8), Digit(b, 4), Digit(b, 2), Digit(b, 1))
  }

  function FromOctet(v: bv8): byte {
    Weigh(Lit(v, 0x80), Lit(v, 0x40), Lit(v, 0x20), Lit(v, 0x10), Lit(v, 0x08), Lit(v, 0x04), Lit(v, 0x02), Lit(v, 0x01))
  }

  lemma {:induction false} PackedBits(b7: bool, b6: bool, b5: bool, b4: bool, b3: bool, b2: bool, b1: bool, b0: bool)
    ensures var v := Pack(b7, b6, b5, b4, b3, b2, b1, b0);
      && Lit(v, 0x80) == b7 && Lit(v, 0x40) == b6 && Lit(v, 0x20) == b5 && Lit(v, 0x10) == b4
      && Lit(v, 0x08) == b3 && Lit(v, 0x04) == b2 && Lit(v, 0x02) == b1 && Lit(v, 0x01) == b0
  {}

  lemma {:induction false} Halved(b: byte, weight: nat)
    requires weight in {1, 2, 4, 8, 16, 32, 64}
    ensures Above(b, weight) == 2 * Above(b, 2 * weight) + Weight(Digit(b, weight), 1)
  {
    var n := b as int;
    assert n / 1 == n && n / 2 / 2 == n / 4 && n / 4 / 2 == n / 8 && n / 8 / 2 == n / 16;
    assert n / 16 / 2 == n / 32 && n / 32 / 2 == n / 64 && n / 64 / 2 == n / 128;
  }

  lemma {:induction false} Ends(b: byte)
    ensures Above(b, 1) == b as int && Above(b, 128) == Weight(Digit(b, 128), 1)
  {}

  lemma {:induction false} Scaled(on: bool, n: nat)
    ensures Weight(on, n) == n * Weight(on, 1)
  {}

  /** Horner's rule over eight binary digits. */
  lemma {:induction false} Summed(b7: bool, b6: bool, b5: bool, b4: bool, b3: bool, b2: bool, b1: bool, b0: bool,
                                  n: nat, q1: nat, q2: nat, q3: nat, q4: nat, q5: nat, q6: nat, q7: nat)
    requires n == 2 * q1 + Weight(b0, 1) && q1 == 2 * q2 + Weight(b1, 1) && q2 == 2 * q3 + Weight(b2, 1)
    requires q3 == 2 * q4 + Weight(b3, 1) && q4 == 2 * q5 + Weight(b4, 1) && q5 == 2 * q6 + Weight(b5, 1)
    requires q6 == 2 * q7 + Weight(b6, 1) && q7 == Weight(b7, 1)
    ensures Weigh(b7, b6, b5, b4, b3, b2, b1, b0) as int == n
  {
    Scaled(b7, 128);
    Scaled(b6, 64);
    Scaled(b5, 32);
    Scaled(b4, 16);
    Scaled(b3, 8);
    Scaled(b2, 4);
    Scaled(b1, 2);
    hide Weight;
  }

  lemma {:induction false} DigitsWeigh(b: byte)
    ensures Weigh(Digit(b, 128), Digit(b, 64), Digit(b, 32), Digit(b, 16),
                  Digit(b, 8), Digit(b, 4), Digit(b, 2), Digit(b, 1)) == b
  {
    hide Digit, Weigh, Weight, Above;
    Ends(b);
    Halved(b, 1);
    Halved(b, 2);
    Halved(b, 4);
    Halved(b, 8);
    Halved(b, 16);
    Halved(b, 32);
    Halved(b, 64);
    Summed(Digit(b, 128), Digit(b, 64), Digit(b, 32), Digit(b, 16), Digit(b, 8), Digit(b, 4), Digit(b, 2), Digit(b, 1),
           Above(b, 1), Above(b, 2), Above(b, 4), Above(b, 8), Above(b, 16), Above(b, 32), Above(b, 64), Above(b, 128));
  }

  lemma {:induction false} OctetReads(b: byte)
    ensures FromOctet(ToOctet(b)) == b
  {
    hide Pack, Weigh, Digit, Lit;
    PackedBits(Digit(b, 128), Digit(b, 64), Digit(b, 32), Digit(b, 16), Digit(b, 8), Digit(b, 4), Digit(b, 2), Digit(b, 1));
    DigitsWeigh(b);
  }

  function ToOctets(s: seq<byte>): (r: seq<bv8>)
    ensures |r| == |s|
  {
    seq(|s|, i requires 0 <= i < |s| => ToOctet(s[i]))
  }

  function FromOctets(s: seq<bv8>): (r: seq<byte>)
    ensures |r| == |s|
  {
    seq(|s|, i requires 0 <= i < |s| => FromOctet(s[i]))
  }

  lemma {:induction false} OctetsRead(s: seq<byte>, n: nat)
    requires n <= |s|
    ensures FromOctets(ToOctets(s)[n..]) == s[n..]
  {
    hide ToOctet, FromOctet;
    forall i | 0 <= i < |s| - n
      ensures FromOctets(ToOctets(s)[n..])[i] == s[n..][i]
    {
      OctetReads(s[n + i]);
    }
  }

  // ------------------------------------------------------------------------- one datagram

  const MIN_DATAGRAM: nat := 24
  const SEEN_SEQ_CAP: nat := 512
  const DIRECTION: bv64 := 0x8000_0000_0000_0000
  const SEQUENCE: bv64 := 0x7fff_ffff_ffff_ffff

  function DirSeq(dir: bv64, n: bv64): bv64 { dir | (n & SEQUENCE) }

  function SequenceOf(dirSeq: bv64): bv64 { dirSeq & SEQUENCE }

  function DirectionOf(dirSeq: bv64): bv64 { dirSeq & DIRECTION }

  lemma {:induction false} DirSeqParts(dir: bv64, n: bv64)
    requires dir == 0 || dir == DIRECTION
    ensures DirectionOf(DirSeq(dir, n)) == dir && DirectionOf(dir) == dir
    ensures SequenceOf(DirSeq(dir, n)) == SequenceOf(n)
  {}

  /** What arrives: the numbers of datagrams opened, oldest first, and the fragments so far. */
  datatype Inbox = Inbox(seen: seq<bv64>, assembly: Assembly)

  const NEW_INBOX := Inbox([], NEW_ASSEMBLY)

  /** Of the numbers seen the newest are remembered. */
  function Remember(seen: seq<bv64>, n: bv64): seq<bv64> {
    var all := if n in seen then seen else seen + [n];
    if |all| > SEEN_SEQ_CAP then all[|all| - SEEN_SEQ_CAP..] else all
  }

  /** Timestamps, fragment, seal. */
  function SealFragment(k: Ocb.Cipher, dirSeq: bv64, stamps: seq<byte>, f: Fragment): seq<bv8> {
    Ocb.SealDatagram(k, dirSeq, ToOctets(stamps + EncodeFragment(f)))
  }

  /** The part of `recv` up to the assembler: length, direction, replay, seal, timestamps,
      header. */
  function TakeDatagram(k: Ocb.Cipher, dir: bv64, r: Inbox, packet: seq<bv8>): (Inbox, Option<seq<byte>>) {
    if |packet| < MIN_DATAGRAM then (r, None)
    else
      var dirSeq := Ocb.FromBigEndian(packet[..8]);
      if DirectionOf(dirSeq) != DirectionOf(dir) || SequenceOf(dirSeq) in r.seen then (r, None)
      else
        var open := Ocb.OpenDatagram(k, packet);
        if open.None? || |open.value.1| < 4 then (r, None)
        else
          var r' := r.(seen := Remember(r.seen, SequenceOf(dirSeq)));
          var f := DecodeFragment(FromOctets(open.value.1[4..]));
          if f.Err? then (r', None)
          else
            var a := Add(r.assembly, f.value);
            (r'.(assembly := a.0), a.1)
  }

  /** The receiving end of one direction. */
  class Mailbox {
    const key: Ocb.Key
    const dir: bv64
    const assembler: Assembler
    var seen: seq<bv64>

    ghost function Value(): Inbox
      reads this, assembler
    {
      Inbox(seen, assembler.Value())
    }

    constructor (key: Ocb.Key, dir: bv64)
      ensures this.key == key && this.dir == dir && fresh(assembler) && Value() == NEW_INBOX
    {
      this.key, this.dir := key, dir;
      assembler := new Assembler();
      seen := [];
    }

    method RememberSeq(n: bv64)
      requires |seen| <= SEEN_SEQ_CAP
      modifies this`seen
      ensures seen == Remember(old(seen), n) && |seen| <= SEEN_SEQ_CAP
    {
      if n !in seen {
        seen := seen + [n];
        while |seen| > SEEN_SEQ_CAP
          invariant |seen| <= SEEN_SEQ_CAP + 1
          invariant |old(seen) + [n]| > SEEN_SEQ_CAP ==>
            seen == if |seen| > SEEN_SEQ_CAP then old(seen) + [n] else (old(seen) + [n])[1..]
          invariant |old(seen) + [n]| <= SEEN_SEQ_CAP ==> seen == old(seen) + [n]
        {
          seen := seen[1..];
        }
      }
    }

    method RecvDatagram(packet: seq<bv8>) returns (msg: Option<seq<byte>>)
      requires key.Valid() && |seen| <= SEEN_SEQ_CAP
      requires |packet| >= MIN_DATAGRAM ==> (|packet| - MIN_DATAGRAM) / 16 < U32_SIZE
      modifies this`seen, assembler
      ensures (Value(), msg) == TakeDatagram(key.k, dir, old(Value()), packet) && |seen| <= SEEN_SEQ_CAP
    {
      hide Ocb.Open, Ocb.FromBigEndian, DirectionOf, SequenceOf, Remember, DecodeFragment, FromOctets, Add;
      if |packet| < MIN_DATAGRAM {
        return None;
      }
      var dirSeq := Ocb.FromBigEndian(packet[..8]);
      if DirectionOf(dirSeq) != DirectionOf(dir) || SequenceOf(dirSeq) in seen {
        return None;
      }
      var plain := key.Decrypt(Ocb.NonceFor(packet[..8]), packet[8..]);
      if plain.None? || |plain.value| < 4 {
        return None;
      }
      RememberSeq(SequenceOf(dirSeq));
      var f := DecodeFragment(FromOctets(plain.value[4..]));
      if f.Err? {
        return None;
      }
      msg := assembler.AddFragment(f.value);
    }
  }

  lemma {:induction false} SealedSize(k: Ocb.Cipher, dirSeq: bv64, p: seq<bv8>)
    ensures |Ocb.SealDatagram(k, dirSeq, p)| == |p| + MIN_DATAGRAM
    ensures Ocb.FromBigEndian(Ocb.SealDatagram(k, dirSeq, p)[..8]) == dirSeq
  {
    hide Ocb.Seal, Ocb.BigEndian, Ocb.FromBigEndian;
    Ocb.SealLength(k, Ocb.NonceFor(Ocb.BigEndian(dirSeq)), p);
    Ocb.BigEndianReads(dirSeq);
    assert Ocb.SealDatagram(k, dirSeq, p)[..8] == Ocb.BigEndian(dirSeq);
  }

  /** A sealed fragment reaches the assembler, unless its number was seen before. */
  lemma {:induction false} SealedArrives(k: Ocb.Cipher, dir: bv64, n: bv64, stamps: seq<byte>, f: Fragment, r: Inbox)
    requires Ocb.Permutation(k) && (dir == 0 || dir == DIRECTION) && |stamps| == 4
    requires f.id <= U64_MAX && f.num < MAX_FRAGMENTS
    ensures TakeDatagram(k, dir, r, SealFragment(k, DirSeq(dir, n), stamps, f)) ==
      if SequenceOf(n) in r.seen then (r, None)
      else (Inbox(Remember(r.seen, SequenceOf(n)), Add(r.assembly, f).0), Add(r.assembly, f).1)
  {
    hide Ocb.SealDatagram, Ocb.OpenDatagram, Ocb.FromBigEndian, Ocb.Permutation, EncodeFragment, DecodeFragment, Add, ToOctets, FromOctets;
    hide DirectionOf, SequenceOf, DirSeq, Remember;
    var plain := stamps + EncodeFragment(f);
    DirSeqParts(dir, n);
    SealedSize(k, DirSeq(dir, n), ToOctets(plain));
    Ocb.DatagramRoundTrip(k, DirSeq(dir, n), ToOctets(plain), SealFragment(k, DirSeq(dir, n), stamps, f));
    OctetsRead(plain, 4);
    assert plain[4..] == EncodeFragment(f);
    FragmentRoundTrip(f, EncodeFragment(f));
  }

  /** Not for this end: nobody sealed it with the key, or it goes the other way. */
  predicate Foreign(k: Ocb.Cipher, dir: bv64, packet: seq<bv8>) {
    var open := Ocb.OpenDatagram(k, packet);
    open.None? || DirectionOf(open.value.0) != DirectionOf(dir)
  }

  lemma {:induction false} ForeignDropped(k: Ocb.Cipher, dir: bv64, r: Inbox, packet: seq<bv8>)
    requires Foreign(k, dir, packet)
    ensures TakeDatagram(k, dir, r, packet) == (r, None)
  {
    hide DirectionOf, SequenceOf, Add, DecodeFragment, Ocb.Open, Ocb.FromBigEndian;
  }

  /** The datagrams of the opposite direction are foreign. */
  lemma {:induction false} OtherWayForeign(k: Ocb.Cipher, dir: bv64, n: bv64, plain: seq<bv8>)
    requires Ocb.Permutation(k) && (dir == 0 || dir == DIRECTION)
    ensures Foreign(k, dir, Ocb.SealDatagram(k, DirSeq(dir ^ DIRECTION, n), plain))
  {
    hide Ocb.SealDatagram, Ocb.OpenDatagram, Ocb.Permutation;
    var other := DirSeq(dir ^ DIRECTION, n);
    Ocb.DatagramRoundTrip(k, other, plain, Ocb.SealDatagram(k, other, plain));
  }

  // ------------------------------------------------------------------------ whole messages

  /** A message under way: the sequence numbers and timestamps its datagrams are given. */
  datatype Parcel = Parcel(message: Message, numbers: seq<bv64>, stamps: seq<seq<byte>>)

  /** Everything sent in one direction, by the number of the message. */
  datatype Mail = Mail(dir: bv64, parcels: map<nat, Parcel>)

  function Size(p: Parcel): nat { Count(p.message.data, p.message.max) }

  predicate ParcelOk(p: Parcel) {
    Sendable(p.message) && |p.numbers| == |p.stamps| == Size(p) && forall i :: 0 <= i < |p.stamps| ==> |p.stamps[i]| == 4
  }

  /** Piece `piece` of message `id` is one of the datagrams. */
  predicate InMail(m: Mail, a: Arrival) { a.id in m.parcels && a.piece < |m.parcels[a.id].numbers| }

  function NumberOf(m: Mail, a: Arrival): bv64
    requires InMail(m, a)
  {
    SequenceOf(m.parcels[a.id].numbers[a.piece])
  }

  /** No sequence number is ever given twice. */
  ghost predicate MailOk(m: Mail) {
    && (m.dir == 0 || m.dir == DIRECTION)
    && (forall id :: id in m.parcels ==> id <= U64_MAX && ParcelOk(m.parcels[id]))
    && forall a, b :: InMail(m, a) && InMail(m, b) && NumberOf(m, a) == NumberOf(m, b) ==> a == b
  }

  function Messages(m: Mail): map<nat, Message> { map id | id in m.parcels :: m.parcels[id].message }

  lemma {:induction false} InMailGenuine(m: Mail, a: Arrival)
    requires MailOk(m)
    ensures InMail(m, a) <==> Genuine(Messages(m), a)
  {
    hide Sendable, Count, NumberOf;
  }

  function Datagram(k: Ocb.Cipher, m: Mail, a: Arrival): seq<bv8>
    requires MailOk(m) && InMail(m, a)
  {
    var p := m.parcels[a.id];
    SealFragment(k, DirSeq(m.dir, p.numbers[a.piece]), p.stamps[a.piece], Fragmentize(a.id, p.message.data, p.message.max)[a.piece])
  }

  /** What the network delivers: one of the datagrams, or a foreign packet. */
  datatype Packet = Sent(arrival: Arrival) | Stray(bytes: seq<bv8>)

  predicate PacketsOk(k: Ocb.Cipher, m: Mail, packets: seq<Packet>) {
    forall i :: 0 <= i < |packets| ==>
      match packets[i]
      case Sent(a) => InMail(m, a)
      case Stray(bytes) => Foreign(k, m.dir, bytes)
  }

  datatype Delivered = Delivered(inbox: Inbox, out: seq<seq<byte>>)

  function Bytes(k: Ocb.Cipher, m: Mail, packet: Packet): seq<bv8>
    requires MailOk(m) && (packet.Sent? ==> InMail(m, packet.arrival))
  {
    match packet
    case Sent(a) => Datagram(k, m, a)
    case Stray(bytes) => bytes
  }

  /** Everything that comes out of a new inbox while the packets arrive. */
  function Deliver(k: Ocb.Cipher, m: Mail, packets: seq<Packet>): Delivered
    requires MailOk(m) && PacketsOk(k, m, packets)
  {
    if packets == [] then Delivered(NEW_INBOX, [])
    else
      var before := Deliver(k, m, packets[..|packets| - 1]);
      var r := TakeDatagram(k, m.dir, before.inbox, Bytes(k, m, packets[|packets| - 1]));
      Delivered(r.0, if r.1.Some? then before.out + [r.1.value] else before.out)
  }

  predicate SeenIn(m: Mail, ds: seq<Arrival>, n: bv64) {
    exists i :: 0 <= i < |ds| && InMail(m, ds[i]) && NumberOf(m, ds[i]) == n
  }

  /** The arrivals `ds` stand for what was delivered: those that reached the assembler. */
  ghost predicate StandFor(m: Mail, packets: seq<Packet>, d: Delivered, ds: seq<Arrival>)
    requires MailOk(m)
  {
    && AllGenuine(Messages(m), ds)
    && (forall a :: a in ds <==> Sent(a) in packets)
    && (forall n :: n in d.inbox.seen ==> SeenIn(m, ds, n))
    && Assembled(d.inbox.assembly, d.out) == Assemble(Messages(m), ds)
  }

  lemma {:induction false} DatagramIs(k: Ocb.Cipher, m: Mail, a: Arrival, r: Inbox)
    requires Ocb.Permutation(k) && MailOk(m) && InMail(m, a)
    ensures TakeDatagram(k, m.dir, r, Datagram(k, m, a)) ==
      if NumberOf(m, a) in r.seen then (r, None)
      else
        var msg := m.parcels[a.id].message;
        var s := Add(r.assembly, FragmentAt(a.id, msg.data, msg.max, a.piece));
        (Inbox(Remember(r.seen, NumberOf(m, a)), s.0), s.1)
  {
    hide Ocb.Permutation, TakeDatagram, SealFragment, Add, SequenceOf, Remember, Piece, Count, DirSeq;
    var p := m.parcels[a.id];
    SealedArrives(k, m.dir, p.numbers[a.piece], p.stamps[a.piece], FragmentAt(a.id, p.message.data, p.message.max, a.piece), r);
  }

  lemma {:induction false} NothingDelivered(k: Ocb.Cipher, m: Mail)
    requires MailOk(m)
    ensures StandFor(m, [], Deliver(k, m, []), [])
  {
    hide MailOk;
  }

  /** A repeated datagram, or a foreign one, changes nothing. */
  lemma {:induction false} Ignored(m: Mail, packets: seq<Packet>, last: Packet, d: Delivered, ds: seq<Arrival>)
    requires MailOk(m) && StandFor(m, packets, d, ds) && (last.Sent? ==> last.arrival in ds)
    ensures StandFor(m, packets + [last], d, ds)
  {
    hide MailOk, AllGenuine, Assemble, SeenIn;
  }

  lemma {:induction false} Remembered(seen: seq<bv64>, n: bv64)
    ensures forall i :: i in Remember(seen, n) ==> i in seen || i == n
  {}

  lemma {:induction false} SeenMore(m: Mail, ds: seq<Arrival>, a: Arrival, n: bv64)
    requires SeenIn(m, ds, n) || (InMail(m, a) && NumberOf(m, a) == n)
    ensures SeenIn(m, ds + [a], n)
  {
    hide NumberOf, InMail;
    if SeenIn(m, ds, n) {
      var i :| 0 <= i < |ds| && InMail(m, ds[i]) && NumberOf(m, ds[i]) == n;
      assert (ds + [a])[i] == ds[i];
    } else {
      assert (ds + [a])[|ds|] == a;
    }
  }

  lemma {:induction false} AssembleMore(sent: map<nat, Message>, ds: seq<Arrival>, a: Arrival)
    requires AllGenuine(sent, ds) && Genuine(sent, a)
    ensures AllGenuine(sent, ds + [a])
    ensures Assemble(sent, ds + [a]) == Take(Assemble(sent, ds), FragmentAt(a.id, sent[a.id].data, sent[a.id].max, a.piece))
  {
    hide Take, FragmentAt, Count;
    assert (ds + [a])[..|ds + [a]| - 1] == ds;
  }

  lemma {:induction false} Arrived(m: Mail, packets: seq<Packet>, a: Arrival, d: Delivered, ds: seq<Arrival>)
    requires MailOk(m) && StandFor(m, packets, d, ds) && InMail(m, a)
    ensures var msg := m.parcels[a.id].message;
            var s := Add(d.inbox.assembly, FragmentAt(a.id, msg.data, msg.max, a.piece));
            var d' := Delivered(Inbox(Remember(d.inbox.seen, NumberOf(m, a)), s.0),
                                if s.1.Some? then d.out + [s.1.value] else d.out);
      StandFor(m, packets + [Sent(a)], d', ds + [a])
  {
    hide AllGenuine, Assemble, Add, FragmentAt, Remember, NumberOf, SeenIn, MailOk;
    InMailGenuine(m, a);
    AssembleMore(Messages(m), ds, a);
    Remembered(d.inbox.seen, NumberOf(m, a));
    forall n | n in Remember(d.inbox.seen, NumberOf(m, a))
      ensures SeenIn(m, ds + [a], n)
    {
      SeenMore(m, ds, a, n);
    }
  }

  /** Replay is recognised: a datagram whose number was seen is one that has arrived. */
  lemma {:induction false} SeenArrived(m: Mail, packets: seq<Packet>, a: Arrival, d: Delivered, ds: seq<Arrival>)
    requires MailOk(m) && StandFor(m, packets, d, ds) && InMail(m, a) && NumberOf(m, a) in d.inbox.seen
    ensures a in ds
  {
    hide AllGenuine, Assemble, NumberOf, ParcelOk, InMail;
    assert SeenIn(m, ds, NumberOf(m, a));
  }

  /** Whatever arrives of the mail, in whatever order, repeated, replayed and among foreign
      packets: the assembler is where it would be after some genuine fragments, those and only
      those that were delivered. */
  lemma {:induction false} DeliverStands(k: Ocb.Cipher, m: Mail, packets: seq<Packet>) returns (ds: seq<Arrival>)
    requires Ocb.Permutation(k) && MailOk(m) && PacketsOk(k, m, packets)
    ensures StandFor(m, packets, Deliver(k, m, packets), ds)
    decreases |packets|
  {
    hide StandFor, MailOk, TakeDatagram, Datagram, Ocb.Permutation, Foreign, Add, NumberOf, Remember, InMail;
    if packets == [] {
      ds := [];
      NothingDelivered(k, m);
    } else {
      var init, last := packets[..|packets| - 1], packets[|packets| - 1];
      assert packets == init + [last];
      ds := DeliverStands(k, m, init);
      var d := Deliver(k, m, init);
      match last {
        case Stray(bytes) =>
          ForeignDropped(k, m.dir, d.inbox, bytes);
          Ignored(m, init, last, d, ds);
        case Sent(a) =>
          DatagramIs(k, m, a, d.inbox);
          if NumberOf(m, a) in d.inbox.seen {
            SeenArrived(m, init, a, d, ds);
            Ignored(m, init, last, d, ds);
          } else {
            Arrived(m, init, a, d, ds);
            ds := ds + [a];
          }
      }
    }
  }

  // ------------------------------------------------------------------- whole instructions

  /** Every message of the mail is a compressed instruction. */
  ghost predicate Carries(z: Codec, m: Mail, tis: map<nat, TransportInstruction>) {
    tis.Keys == m.parcels.Keys && forall id :: id in m.parcels ==>
      InRange(tis[id]) && |Encode(tis[id])| <= MAX_INSTRUCTION_BYTES
      && m.parcels[id].message.data == z.deflate(Encode(tis[id]))
  }

  /** The message `s` is one of the instructions, and is read as it. */
  predicate IsWhole(z: Codec, tis: map<nat, TransportInstruction>, s: seq<byte>) {
    exists id :: id in tis && Received(z, s) == Ok(tis[id])
  }

  lemma {:induction false} MessageIsWhole(z: Codec, m: Mail, tis: map<nat, TransportInstruction>, id: nat)
    requires Inverse(z) && Carries(z, m, tis) && id in m.parcels
    ensures IsWhole(z, tis, m.parcels[id].message.data)
  {
    hide Encode, Decode, InRange;
    InstructionRoundTrip(tis[id]);
    assert Received(z, m.parcels[id].message.data) == Ok(tis[id]);
  }

  lemma {:induction false} OutIsMessage(sent: map<nat, Message>, ds: seq<Arrival>, i: nat) returns (id: nat)
    requires AllGenuine(sent, ds) && i < |Assemble(sent, ds).out|
    ensures id in sent && Assemble(sent, ds).out[i] == sent[id].data
  {
    hide InMessage;
    OnlyWholeMessages(sent, ds);
    id :| id in sent && Assemble(sent, ds).out[i] == sent[id].data;
  }

  /** Whatever arrives, and however it is mixed up: all that comes out are whole instructions
      that were sent. */
  lemma {:induction false} OnlyWholeInstructions(z: Codec, k: Ocb.Cipher, m: Mail, tis: map<nat, TransportInstruction>, packets: seq<Packet>)
    requires Ocb.Permutation(k) && Inverse(z) && MailOk(m) && PacketsOk(k, m, packets) && Carries(z, m, tis)
    ensures var out := Deliver(k, m, packets).out;
      forall i :: 0 <= i < |out| ==> IsWhole(z, tis, out[i])
  {
    hide MailOk, PacketsOk, Deliver, StandFor, Ocb.Permutation, Inverse, Carries, IsWhole, Assemble, AllGenuine, InMessage;
    var ds := DeliverStands(k, m, packets);
    StandForOut(m, packets, Deliver(k, m, packets), ds);
    var out := Deliver(k, m, packets).out;
    forall i | 0 <= i < |out|
      ensures IsWhole(z, tis, out[i])
    {
      var id := OutIsMessage(Messages(m), ds, i);
      MessageIsWhole(z, m, tis, id);
    }
  }

  // ---------------------------------------------------------------------- one instruction

  function OneMail(dir: bv64, id: nat, p: Parcel): Mail { Mail(dir, map[id := p]) }

  /** Every datagram of the message is among the packets. */
  predicate AllSent(id: nat, p: Parcel, packets: seq<Packet>) {
    forall n :: 0 <= n < Size(p) ==> Sent(Arrival(id, n)) in packets
  }

  lemma {:induction false} OnlyArrivals(dir: bv64, id: nat, p: Parcel, ds: seq<Arrival>) returns (ks: seq<nat>)
    requires AllGenuine(Messages(OneMail(dir, id, p)), ds)
    ensures ds == Arrivals(id, ks) && forall i :: 0 <= i < |ks| ==> ks[i] < Size(p)
    ensures Messages(OneMail(dir, id, p)) == map[id := p.message]
  {
    hide Count;
    ks := seq(|ds|, i requires 0 <= i < |ds| => ds[i].piece);
    forall i | 0 <= i < |ds|
      ensures ds[i] == Arrivals(id, ks)[i] && ks[i] < Size(p)
    {
      assert Genuine(Messages(OneMail(dir, id, p)), ds[i]);
    }
  }

  /** The last missing datagram is new and goes to the assembler. */
  lemma {:induction false} LastArrives(k: Ocb.Cipher, m: Mail, packets: seq<Packet>, a: Arrival) returns (ds: seq<Arrival>)
    requires Ocb.Permutation(k) && MailOk(m) && InMail(m, a) && Sent(a) !in packets
    requires PacketsOk(k, m, packets) && PacketsOk(k, m, packets + [Sent(a)])
    ensures StandFor(m, packets, Deliver(k, m, packets), ds)
    ensures StandFor(m, packets + [Sent(a)], Deliver(k, m, packets + [Sent(a)]), ds + [a])
  {
    hide MailOk, PacketsOk, TakeDatagram, Datagram, Ocb.Permutation, Add, NumberOf, InMail, Remember, AllGenuine, Assemble, SeenIn;
    ds := DeliverStands(k, m, packets);
    var d := Deliver(k, m, packets);
    assert (packets + [Sent(a)])[..|packets + [Sent(a)]| - 1] == packets;
    assert a !in ds;
    DatagramIs(k, m, a, d.inbox);
    if NumberOf(m, a) in d.inbox.seen {
      SeenArrived(m, packets, a, d, ds);
    }
    Arrived(m, packets, a, d, ds);
  }

  lemma {:induction false} LastIsMissing(id: nat, p: Parcel, packets: seq<Packet>, n: nat)
    requires !AllSent(id, p, packets) && AllSent(id, p, packets + [Sent(Arrival(id, n))])
    ensures Sent(Arrival(id, n)) !in packets
  {
    hide Size;
  }

  lemma {:induction false} StandForCovers(m: Mail, id: nat, p: Parcel, packets: seq<Packet>, d: Delivered, ks: seq<nat>)
    requires MailOk(m) && StandFor(m, packets, d, Arrivals(id, ks))
    ensures Covered(p.message, ks) <==> AllSent(id, p, packets)
  {
    hide MailOk, AllGenuine, Assemble, Count, SeenIn;
    forall n: nat
      ensures n in ks <==> Sent(Arrival(id, n)) in packets
    {
      ArrivalsIn(id, ks, n);
    }
  }

  lemma {:induction false} ArrivalsIn(id: nat, ks: seq<nat>, n: nat)
    ensures n in ks <==> Arrival(id, n) in Arrivals(id, ks)
  {
    if n in ks {
      var i :| 0 <= i < |ks| && ks[i] == n;
      assert Arrivals(id, ks)[i] == Arrival(id, n);
    }
  }

  lemma {:induction false} StandForOut(m: Mail, packets: seq<Packet>, d: Delivered, ds: seq<Arrival>)
    requires MailOk(m) && StandFor(m, packets, d, ds)
    ensures AllGenuine(Messages(m), ds) && d.out == Assemble(Messages(m), ds).out
  {
    hide MailOk, Assemble, AllGenuine;
  }

  lemma {:induction false} OneInMail(dir: bv64, id: nat, p: Parcel, n: nat)
    requires MailOk(OneMail(dir, id, p)) && n < Size(p)
    ensures InMail(OneMail(dir, id, p), Arrival(id, n))
  {
    assert id in OneMail(dir, id, p).parcels;
  }

  /** An instruction survives encoding, compression, cutting up, sealing, loss of order,
      repetition, replay, foreign packets, opening, reassembly, expansion and decoding: it
      comes out once, with the last of its datagrams to arrive, and nothing does before. */
  lemma {:induction false} SealedRoundTrip(z: Codec, k: Ocb.Cipher, ti: TransportInstruction, dir: bv64, id: nat, p: Parcel, packets: seq<Packet>, n: nat)
    requires Ocb.Permutation(k) && Inverse(z) && InRange(ti) && |Encode(ti)| <= MAX_INSTRUCTION_BYTES
    requires MailOk(OneMail(dir, id, p)) && p.message.data == z.deflate(Encode(ti)) && |p.message.data| <= MAX_INSTRUCTION_BYTES
    requires n < Size(p) && PacketsOk(k, OneMail(dir, id, p), packets)
    requires PacketsOk(k, OneMail(dir, id, p), packets + [Sent(Arrival(id, n))])
    requires !AllSent(id, p, packets) && AllSent(id, p, packets + [Sent(Arrival(id, n))])
    ensures Deliver(k, OneMail(dir, id, p), packets).out == []
    ensures var out := Deliver(k, OneMail(dir, id, p), packets + [Sent(Arrival(id, n))]).out;
      |out| == 1 && Received(z, out[0]) == Ok(ti)
  {
    hide Ocb.Permutation, MailOk, PacketsOk, Deliver, AllSent, Covered, StandFor, InRange, Encode, OneMail, Count, InMail, Received, Assemble;
    var m, a := OneMail(dir, id, p), Arrival(id, n);
    LastIsMissing(id, p, packets, n);
    OneInMail(dir, id, p, n);
    var ds := LastArrives(k, m, packets, a);
    StandForOut(m, packets, Deliver(k, m, packets), ds);
    StandForOut(m, packets + [Sent(a)], Deliver(k, m, packets + [Sent(a)]), ds + [a]);
    var ks := OnlyArrivals(dir, id, p, ds);
    assert Arrivals(id, ks) + [a] == Arrivals(id, ks + [n]);
    StandForCovers(m, id, p, packets, Deliver(k, m, packets), ks);
    StandForCovers(m, id, p, packets + [Sent(a)], Deliver(k, m, packets + [Sent(a)]), ks + [n]);
    MailSendable(dir, id, p);
    WireRoundTrip(z, ti, id, p.message.max, ks, n);
    CompletesOnLast(id, p.message, ks, n);
  }

  lemma {:induction false} MailSendable(dir: bv64, id: nat, p: Parcel)
    requires MailOk(OneMail(dir, id, p))
    ensures Sendable(p.message)
  {
    assert id in OneMail(dir, id, p).parcels;
  }
}
