/** The octets of the messages, field by field, and how records with any fields are read. */
module Layout {
  import opened Basics
  import opened Pb
  import opened Host

  // ------------------------------------------------------------------------------- numbers

  /** Seven bits of a number in each octet, the lowest first. */
  function Worth(octets: seq<byte>): nat {
    if octets == [] then 0 else octets[0] as nat % 128 + 128 * Worth(octets[1..])
  }

  /** The one form of a number: only its last octet has the high bit clear, and is not zero unless it is
      the only one. */
  predicate NumberIs(octets: seq<byte>, v: nat) {
    && octets != [] && Worth(octets) == v
    && (forall i :: 0 <= i < |octets| ==> (octets[i] >= 128 <==> i + 1 < |octets|))
    && (|octets| > 1 ==> octets[|octets| - 1] != 0)
  }

  lemma {:induction false} VarintIs(v: nat)
    ensures NumberIs(Varint(v), v)
    decreases v
  {
    if v >= 128 {
      VarintIs(v / 128);
      assert Varint(v)[1..] == Varint(v / 128);
    }
  }

  // -------------------------------------------------------------------------- whole records

  function Key(octet: nat): (s: seq<byte>)
    requires octet < 128
    ensures |s| == 1 && s[0] as nat == octet
  {
    [octet as byte]
  }

  /** A length and that many octets. */
  function Counted(data: seq<byte>): seq<byte> { Varint(|data|) + data }

  lemma {:induction false} TagIs(field: nat, wtype: nat)
    requires field * 8 + wtype < 128
    ensures Tag(field, wtype) == Key(field * 8 + wtype)
  {}

  lemma {:induction false} NumIs(field: nat, v: nat)
    requires field < 16
    ensures TagVarint(field, v) == Key(field * 8) + Varint(v)
  {
    TagIs(field, 0);
  }

  lemma {:induction false} BytesIs(field: nat, data: seq<byte>)
    requires field < 15
    ensures TagBytes(field, data) == Key(field * 8 + 2) + Counted(data)
  {
    TagIs(field, 2);
    Assoc3(Key(field * 8 + 2), Varint(|data|), data);
  }

  /** A transport instruction: keys 08 to 28 hold the numbers, 32 the diff and 3A the padding. */
  lemma {:induction false} InstructionOctets(ti: TransportInstruction)
    ensures Encode(ti) ==
      (if ti.protocolVersion != 0 then Key(0x08) + Varint(ti.protocolVersion) else [])
      + (Key(0x10) + Varint(ti.oldNum)) + (Key(0x18) + Varint(ti.newNum))
      + (Key(0x20) + Varint(ti.ackNum)) + (Key(0x28) + Varint(ti.throwawayNum))
      + (if ti.diff != [] then Key(0x32) + Counted(ti.diff) else [])
      + (if ti.chaff != [] then Key(0x3a) + Counted(ti.chaff) else [])
  {
    NumIs(1, ti.protocolVersion);
    NumIs(2, ti.oldNum);
    NumIs(3, ti.newNum);
    NumIs(4, ti.ackNum);
    NumIs(5, ti.throwawayNum);
    BytesIs(6, ti.diff);
    BytesIs(7, ti.chaff);
    hide TagVarint, TagBytes, Counted, Varint;
    FlatSeven(OptionalNum(1, ti.protocolVersion), TagVarint(2, ti.oldNum), TagVarint(3, ti.newNum),
              TagVarint(4, ti.ackNum), TagVarint(5, ti.throwawayNum), OptionalBytes(6, ti.diff), OptionalBytes(7, ti.chaff));
  }

  lemma {:induction false} FlatSeven<T>(a: seq<T>, b: seq<T>, c: seq<T>, d: seq<T>, e: seq<T>, f: seq<T>, g: seq<T>)
    ensures a + (b + (c + (d + (e + (f + g))))) == a + b + c + d + e + f + g
  {
    Assoc3(e, f, g);
    Assoc3(d, e + f, g);
    Assoc3(d, e, f);
    Assoc3(c, d + e + f, g);
    Assoc3(c, d + e, f);
    Assoc3(c, d, e);
    Assoc3(b, c + d + e + f, g);
    Assoc3(b, c + d + e, f);
    Assoc3(b, c + d, e);
    Assoc3(b, c, d);
    Assoc3(a, b + c + d + e + f, g);
    Assoc3(a, b + c + d + e, f);
    Assoc3(a, b + c + d, e);
    Assoc3(a, b + c, d);
    Assoc3(a, b, c);
  }

  /** A number of 32 bits that may be negative, as an unsigned one. */
  function Unsigned(v: int): nat { if v < 0 then (v + U32_SIZE) % U32_SIZE else v % U32_SIZE }

  lemma {:induction false} SizeOctets(width: int, height: int)
    ensures Resize(UserInstruction([], width, height)) == Size(HostInstruction([], width, height, 0))
         == Key(0x28) + Varint(Unsigned(width)) + (Key(0x30) + Varint(Unsigned(height)))
  {
    hide TagVarint, Varint;
    assert Unsigned(width) == AsU32(width) && Unsigned(height) == AsU32(height);
    NumIs(5, AsU32(width));
    NumIs(6, AsU32(height));
  }

  /** One action: keys under 12, 22, and a size under 1A, 28, 30 if a dimension is positive. */
  lemma {:induction false} ActionOctets(u: UserInstruction)
    ensures EncodeOne(u) ==
      (if u.keys != [] then Key(0x12) + Counted(Key(0x22) + Counted(u.keys)) else [])
      + (if u.width > 0 || u.height > 0
         then Key(0x1a) + Counted(Key(0x28) + Varint(Unsigned(u.width)) + (Key(0x30) + Varint(Unsigned(u.height)))) else [])
  {
    hide TagBytes, Counted, Varint;
    BytesIs(4, u.keys);
    BytesIs(2, TagBytes(4, u.keys));
    SizeOctets(u.width, u.height);
    BytesIs(3, Resize(u));
  }

  /** One host instruction: output under 12, 22, a size as in an action, and an echo number under 3A, 40. */
  lemma {:induction false} HostOctets(h: HostInstruction)
    requires h.echoAck <= U64_MAX
    ensures EncodeHost(h) ==
      (if h.hoststring != [] then Key(0x12) + Counted(Key(0x22) + Counted(h.hoststring)) else [])
      + ((if h.width > 0 || h.height > 0
          then Key(0x1a) + Counted(Key(0x28) + Varint(Unsigned(h.width)) + (Key(0x30) + Varint(Unsigned(h.height)))) else [])
      + if h.echoAck >= 0 then Key(0x3a) + Counted(Key(0x40) + Varint(h.echoAck)) else [])
  {
    hide TagBytes, Counted, Varint;
    BytesIs(4, h.hoststring);
    BytesIs(2, TagBytes(4, h.hoststring));
    SizeOctets(h.width, h.height);
    BytesIs(3, Size(h));
    if h.echoAck >= 0 {
      NumIs(8, AsU64(h.echoAck));
      BytesIs(7, TagVarint(8, AsU64(h.echoAck)));
    }
  }

  /** A message is its entries, each under key 0A. */
  function Entries(records: seq<seq<byte>>): seq<byte> {
    if records == [] then [] else Key(0x0a) + Counted(records[0]) + Entries(records[1..])
  }

  lemma {:induction false} EntriesSnoc(records: seq<seq<byte>>, r: seq<byte>)
    ensures Entries(records + [r]) == Entries(records) + (Key(0x0a) + Counted(r))
    decreases |records|
  {
    hide Counted;
    if records == [] {
      assert ([] + [r])[1..] == [];
      assert Entries([r]) == Key(0x0a) + Counted(r) + Entries([]);
    } else {
      assert (records + [r])[1..] == records[1..] + [r];
      EntriesSnoc(records[1..], r);
      Assoc3(Key(0x0a) + Counted(records[0]), Entries(records[1..]), Key(0x0a) + Counted(r));
    }
  }

  lemma {:induction false} NoEntries()
    ensures Entries([]) == []
  {}

  lemma {:induction false} ActionsOctets(us: seq<UserInstruction>)
    ensures EncodeMessage(us) == Entries(seq(|us|, i requires 0 <= i < |us| => EncodeOne(us[i])))
    decreases |us|
  {
    hide EncodeOne, TagBytes, Entries;
    if us == [] {
      NoEntries();
      assert seq(|us|, i requires 0 <= i < |us| => EncodeOne(us[i])) == [];
    } else {
      var k := |us| - 1;
      ActionsOctets(us[..k]);
      var before := seq(k, i requires 0 <= i < k => EncodeOne(us[..k][i]));
      BytesIs(1, EncodeOne(us[k]));
      EntriesSnoc(before, EncodeOne(us[k]));
      assert before + [EncodeOne(us[k])] == seq(|us|, i requires 0 <= i < |us| => EncodeOne(us[i]));
    }
  }

  lemma {:induction false} HostsOctets(hs: seq<HostInstruction>)
    ensures EncodeHosts(hs) == Entries(seq(|hs|, i requires 0 <= i < |hs| => EncodeHost(hs[i])))
    decreases |hs|
  {
    hide EncodeHost, TagBytes, Entries;
    if hs == [] {
      NoEntries();
      assert seq(|hs|, i requires 0 <= i < |hs| => EncodeHost(hs[i])) == [];
    } else {
      var k := |hs| - 1;
      HostsOctets(hs[..k]);
      var before := seq(k, i requires 0 <= i < k => EncodeHost(hs[..k][i]));
      BytesIs(1, EncodeHost(hs[k]));
      EntriesSnoc(before, EncodeHost(hs[k]));
      assert before + [EncodeHost(hs[k])] == seq(|hs|, i requires 0 <= i < |hs| => EncodeHost(hs[i]));
    }
  }

  // --------------------------------------------------------------- records with any fields

  /** A field of any number, in one of the four forms a reader knows. */
  datatype Field = Num(number: nat, v: nat) | Bytes(number: nat, data: seq<byte>) | Four(number: nat, data: seq<byte>) | Eight(number: nat, data: seq<byte>)

  predicate FieldOk(f: Field) {
    && f.number < 0x1000_0000_0000_0000
    && match f
       case Num(_, v) => v <= U64_MAX
       case Bytes(_, data) => |data| <= U64_MAX
       case Four(_, data) => |data| == 4
       case Eight(_, data) => |data| == 8
  }

  function FieldOctets(f: Field): seq<byte> {
    match f
    case Num(n, v) => Varint(n * 8) + Varint(v)
    case Bytes(n, data) => Varint(n * 8 + 2) + Counted(data)
    case Four(n, data) => Varint(n * 8 + 5) + data
    case Eight(n, data) => Varint(n * 8 + 1) + data
  }

  function Record(fs: seq<Field>): seq<byte> {
    if fs == [] then [] else FieldOctets(fs[0]) + Record(fs[1..])
  }

  /** The last number that the record gives field `n`, or else `d`. */
  function LastNum(fs: seq<Field>, n: nat, d: nat): nat {
    if fs == [] then d else LastNum(fs[1..], n, if fs[0].Num? && fs[0].number == n then fs[0].v else d)
  }

  function LastBytes(fs: seq<Field>, n: nat, d: seq<byte>): seq<byte> {
    if fs == [] then d else LastBytes(fs[1..], n, if fs[0].Bytes? && fs[0].number == n then fs[0].data else d)
  }

  /** What the record says: of each field the last one counts, and unknown ones do not. */
  function Said(fs: seq<Field>, d: TransportInstruction): TransportInstruction {
    TransportInstruction(LastNum(fs, 1, d.protocolVersion) % U32_SIZE, LastNum(fs, 2, d.oldNum), LastNum(fs, 3, d.newNum),
                         LastNum(fs, 4, d.ackNum), LastNum(fs, 5, d.throwawayNum), LastBytes(fs, 6, d.diff), LastBytes(fs, 7, d.chaff))
  }

  /** One field's effect. */
  function Told(f: Field, d: TransportInstruction): TransportInstruction {
    match f
    case Num(n, v) => if 1 <= n <= 5 then SetNum(d, n, v) else d
    case Bytes(n, data) => if 6 <= n <= 7 then SetBytes(d, n, data) else d
    case _ => d
  }

  function Form(f: Field): nat {
    match f
    case Num(_, _) => 0
    case Bytes(_, _) => 2
    case Four(_, _) => 5
    case Eight(_, _) => 1
  }

  function Body(f: Field): seq<byte> {
    match f
    case Num(_, v) => Varint(v)
    case Bytes(_, data) => Counted(data)
    case Four(_, data) => data
    case Eight(_, data) => data
  }

  /** A reader finds the key, and after it the value, and can pass over it. */
  predicate Splits(f: Field, rest: seq<byte>) {
    var whole, body := FieldOctets(f) + rest, Body(f) + rest;
    && whole != [] && ReadVarint(whole) == Ok((f.number * 8 + Form(f), body)) && SkipField(body, Form(f)) == Ok(rest)
    && (f.Num? ==> ReadVarint(body) == Ok((f.v, rest))) && (f.Bytes? ==> ReadBytes(body) == Ok((f.data, rest)))
    && (f.number * 8 + Form(f)) / 8 == f.number && (f.number * 8 + Form(f)) % 8 == Form(f)
  }

  lemma {:induction false} SomeOctets(f: Field, rest: seq<byte>)
    ensures FieldOctets(f) + rest != []
  {}

  lemma {:induction false} FieldSplits(f: Field, rest: seq<byte>)
    requires FieldOk(f)
    ensures Splits(f, rest)
  {
    hide ReadVarint, ReadBytes, Varint;
    SomeOctets(f, rest);
    Assoc3(Varint(f.number * 8 + Form(f)), Body(f), rest);
    ReadVarintField(f.number * 8 + Form(f), Body(f) + rest);
    match f
    case Num(_, v) => ReadVarintField(v, rest);
    case Bytes(_, data) => ReadBytesField(data, rest);
    case Four(_, data) => assert (data + rest)[4..] == rest;
    case Eight(_, data) => assert (data + rest)[8..] == rest;
  }

  lemma {:induction false} FieldRead(f: Field, d: TransportInstruction, rest: seq<byte>)
    requires FieldOk(f)
    ensures DecodeField(d, FieldOctets(f) + rest) == Ok((Told(f, d), rest))
  {
    hide ReadVarint, ReadBytes, FieldOctets, SkipField, FieldOk;
    FieldSplits(f, rest);
  }

  lemma {:induction false} FieldTold(fs: seq<Field>, d: TransportInstruction)
    requires fs != []
    ensures Said(fs, d) == Said(fs[1..], Told(fs[0], d))
  {
    ModLater(fs[1..], d.protocolVersion);
    if fs[0].Num? && fs[0].number == 1 {
      ModLater(fs[1..], fs[0].v);
    }
  }

  lemma {:induction false} ModLater(fs: seq<Field>, d: nat)
    ensures LastNum(fs, 1, d) % U32_SIZE == LastNum(fs, 1, d % U32_SIZE) % U32_SIZE
    decreases |fs|
  {
    if fs != [] {
      if !(fs[0].Num? && fs[0].number == 1) {
        ModLater(fs[1..], d);
      }
    }
  }

  lemma {:induction false} NothingSaid(d: TransportInstruction)
    requires d.protocolVersion < U32_SIZE
    ensures Said([], d) == d
  {}

  lemma {:induction false} RecordReadFrom(fs: seq<Field>, d: TransportInstruction)
    requires (forall i :: 0 <= i < |fs| ==> FieldOk(fs[i])) && d.protocolVersion < U32_SIZE
    ensures DecodeFields(d, Record(fs)) == Ok(Said(fs, d))
    decreases |fs|
  {
    hide FieldOctets, FieldOk, DecodeField, Said;
    if fs == [] {
      NothingSaid(d);
    } else {
      FieldRead(fs[0], d, Record(fs[1..]));
      SomeOctets(fs[0], Record(fs[1..]));
      RecordReadFrom(fs[1..], Told(fs[0], d));
      FieldTold(fs, d);
    }
  }

  /** A transport record with any fields in any order is read: of each known field its last value, and
      the others are passed over. */
  lemma {:induction false} RecordRead(fs: seq<Field>)
    requires forall i :: 0 <= i < |fs| ==> FieldOk(fs[i])
    ensures Decode(Record(fs)) == Ok(Said(fs, TransportInstruction(0, 0, 0, 0, 0, [], [])))
  {
    RecordReadFrom(fs, EMPTY_TRANSPORT);
  }

  // ------------------------------------------------------------------------ nested records

  predicate FieldsOk(fs: seq<Field>) { forall i :: 0 <= i < |fs| ==> FieldOk(fs[i]) }

  /** All values of field `n`, joined. */
  function Joined(fs: seq<Field>, n: nat): seq<byte> {
    if fs == [] then [] else (if fs[0].Bytes? && fs[0].number == n then fs[0].data else []) + Joined(fs[1..], n)
  }

  /** Keys given in several pieces are joined. */
  lemma {:induction false} KeysRead(fs: seq<Field>, keys: seq<byte>)
    requires FieldsOk(fs)
    ensures DecodeKeys(keys, Record(fs)) == Ok(keys + Joined(fs, 4))
    decreases |fs|
  {
    hide ReadVarint, ReadBytes, FieldOctets, FieldOk, SkipField;
    if fs != [] {
      FieldSplits(fs[0], Record(fs[1..]));
      var more := if fs[0].Bytes? && fs[0].number == 4 then fs[0].data else [];
      assert keys + [] == keys;
      KeysRead(fs[1..], keys + more);
      Assoc3(keys, more, Joined(fs[1..], 4));
    } else {
      assert keys + [] == keys;
    }
  }

  /** Of host output given several times the last counts. */
  lemma {:induction false} OutputRead(fs: seq<Field>, was: seq<byte>)
    requires FieldsOk(fs)
    ensures DecodeBytes(was, Record(fs)) == Ok(LastBytes(fs, 4, was))
    decreases |fs|
  {
    hide ReadVarint, ReadBytes, FieldOctets, FieldOk, SkipField;
    if fs != [] {
      FieldSplits(fs[0], Record(fs[1..]));
      OutputRead(fs[1..], if fs[0].Bytes? && fs[0].number == 4 then fs[0].data else was);
    }
  }

  /** A number of 64 bits read as a signed one. */
  function Signed64(v: nat): int {
    if v % 0x1_0000_0000_0000_0000 < 0x8000_0000_0000_0000 then v % 0x1_0000_0000_0000_0000
    else v % 0x1_0000_0000_0000_0000 - 0x1_0000_0000_0000_0000
  }

  /** The lowest 32 bits of a number read as a signed one. */
  function Signed32(v: nat): int {
    if v % 0x1_0000_0000 < 0x8000_0000 then v % 0x1_0000_0000 else v % 0x1_0000_0000 - 0x1_0000_0000
  }

  /** The last value of field `n` under `read`, or else `d`. */
  function LastRead(fs: seq<Field>, n: nat, read: nat -> int, d: int): int {
    if fs == [] then d else LastRead(fs[1..], n, read, if fs[0].Num? && fs[0].number == n then read(fs[0].v) else d)
  }

  lemma {:induction false} EchoRead(fs: seq<Field>, was: int)
    requires FieldsOk(fs)
    ensures DecodeEcho(was, Record(fs)) == Ok(LastRead(fs, 8, Signed64, was))
    decreases |fs|
  {
    hide ReadVarint, ReadBytes, FieldOctets, FieldOk, SkipField;
    if fs != [] {
      FieldSplits(fs[0], Record(fs[1..]));
      EchoRead(fs[1..], if fs[0].Num? && fs[0].number == 8 then Signed64(fs[0].v) else was);
    }
  }

  lemma {:induction false} SizeRead(fs: seq<Field>, width: int, height: int)
    requires FieldsOk(fs)
    ensures DecodeSize((width, height), Record(fs)) == Ok((LastRead(fs, 5, Signed32, width), LastRead(fs, 6, Signed32, height)))
    decreases |fs|
  {
    hide ReadVarint, ReadBytes, FieldOctets, FieldOk, SkipField;
    if fs != [] {
      FieldSplits(fs[0], Record(fs[1..]));
      SizeRead(fs[1..], if fs[0].Num? && fs[0].number == 5 then Signed32(fs[0].v) else width,
               if fs[0].Num? && fs[0].number == 6 then Signed32(fs[0].v) else height);
    }
  }

  /** A part of an instruction: the number of its field, and the fields inside. */
  datatype Part = Part(number: nat, inner: seq<Field>)

  /** The parts of an action: 2 holds keys, 3 a size, and any other is passed over. */
  function Acted(p: Part, u: UserInstruction): UserInstruction {
    if p.number == 2 then u.(keys := u.keys + Joined(p.inner, 4))
    else if p.number == 3 then
      u.(width := LastRead(p.inner, 5, Signed32, u.width), height := LastRead(p.inner, 6, Signed32, u.height))
    else u
  }

  /** The parts of a host instruction: 2 holds output, 3 a size, 7 an echo number. */
  function Hosted(p: Part, h: HostInstruction): HostInstruction {
    if p.number == 2 then h.(hoststring := LastBytes(p.inner, 4, h.hoststring))
    else if p.number == 3 then
      h.(width := LastRead(p.inner, 5, Signed32, h.width), height := LastRead(p.inner, 6, Signed32, h.height))
    else if p.number == 7 then h.(echoAck := LastRead(p.inner, 8, Signed64, h.echoAck))
    else h
  }

  function PartField(p: Part): Field { Bytes(p.number, Record(p.inner)) }

  predicate PartOk(p: Part) { FieldsOk(p.inner) && FieldOk(PartField(p)) }

  lemma {:induction false} ActionPartRead(p: Part, u: UserInstruction, rest: seq<byte>)
    requires PartOk(p)
    ensures DecodeOneFrom(u, FieldOctets(PartField(p)) + rest) == DecodeOneFrom(Acted(p, u), rest)
  {
    hide ReadVarint, ReadBytes, FieldOctets, SkipField, DecodeKeys, DecodeSize, Record;
    FieldSplits(PartField(p), rest);
    KeysRead(p.inner, u.keys);
    SizeRead(p.inner, u.width, u.height);
  }

  lemma {:induction false} HostPartRead(p: Part, h: HostInstruction, rest: seq<byte>)
    requires PartOk(p)
    ensures DecodeHostFrom(h, FieldOctets(PartField(p)) + rest) == DecodeHostFrom(Hosted(p, h), rest)
  {
    hide ReadVarint, ReadBytes, FieldOctets, SkipField, DecodeBytes, DecodeSize, DecodeEcho, Record;
    FieldSplits(PartField(p), rest);
    OutputRead(p.inner, h.hoststring);
    SizeRead(p.inner, h.width, h.height);
    EchoRead(p.inner, h.echoAck);
  }

  function ActionSaid(ps: seq<Part>, u: UserInstruction): UserInstruction {
    if ps == [] then u else ActionSaid(ps[1..], Acted(ps[0], u))
  }

  function HostSaid(ps: seq<Part>, h: HostInstruction): HostInstruction {
    if ps == [] then h else HostSaid(ps[1..], Hosted(ps[0], h))
  }

  function Parts(ps: seq<Part>): seq<byte> {
    if ps == [] then [] else FieldOctets(PartField(ps[0])) + Parts(ps[1..])
  }

  predicate PartsOk(ps: seq<Part>) { forall i :: 0 <= i < |ps| ==> PartOk(ps[i]) }

  lemma {:induction false} ActionReadFrom(ps: seq<Part>, u: UserInstruction)
    requires PartsOk(ps)
    ensures DecodeOneFrom(u, Parts(ps)) == Ok(ActionSaid(ps, u))
    decreases |ps|
  {
    hide PartField, PartOk, FieldOctets, DecodePart, Acted;
    if ps != [] {
      ActionPartRead(ps[0], u, Parts(ps[1..]));
      ActionReadFrom(ps[1..], Acted(ps[0], u));
    }
  }

  lemma {:induction false} HostReadFrom(ps: seq<Part>, h: HostInstruction)
    requires PartsOk(ps)
    ensures DecodeHostFrom(h, Parts(ps)) == Ok(HostSaid(ps, h))
    decreases |ps|
  {
    hide PartField, PartOk, FieldOctets, DecodeHostPart, Hosted;
    if ps != [] {
      HostPartRead(ps[0], h, Parts(ps[1..]));
      HostReadFrom(ps[1..], Hosted(ps[0], h));
    }
  }

  /** An action with any parts in any order, known or not. */
  lemma {:induction false} ActionRead(ps: seq<Part>)
    requires PartsOk(ps)
    ensures DecodeOneFrom(EMPTY_USER, Parts(ps)) == Ok(ActionSaid(ps, UserInstruction([], 0, 0)))
  {
    ActionReadFrom(ps, EMPTY_USER);
  }

  /** A host instruction with any parts in any order, known or not; no echo number reads as -1. */
  lemma {:induction false} HostRead(ps: seq<Part>)
    requires PartsOk(ps)
    ensures DecodeHostFrom(NOTHING, Parts(ps)) == Ok(HostSaid(ps, HostInstruction([], 0, 0, -1)))
  {
    HostReadFrom(ps, NOTHING);
  }
}
