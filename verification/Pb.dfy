/** The hand-written protobuf codecs for transport and user messages. */
module Pb {
  import opened Basics

  const WIRE_VARINT: nat := 0
  const WIRE_BYTES: nat := 2

  datatype TransportInstruction = TransportInstruction(
    protocolVersion: nat, oldNum: nat, newNum: nat, ackNum: nat, throwawayNum: nat,
    diff: seq<byte>, chaff: seq<byte>)

  datatype UserInstruction = UserInstruction(keys: seq<byte>, width: int, height: int)

  const EMPTY_TRANSPORT := TransportInstruction(0, 0, 0, 0, 0, [], [])
  const EMPTY_USER := UserInstruction([], 0, 0)

  // ---------------------------------------------------------------- varints

  function Pow128(i: nat): (p: nat)
    ensures p > 0
  {
    if i == 0 then 1 else 128 * Pow128(i - 1)
  }

  /** The base-128 little-endian form of `v`. */
  function Varint(v: nat): (b: seq<byte>)
    ensures |b| > 0
  {
    if v < 128 then [v as byte] else [(v % 128 + 128) as byte] + Varint(v / 128)
  }

  method AppendVarint(buf: seq<byte>, v: nat) returns (out: seq<byte>)
    ensures out == buf + Varint(v)
  {
    out := buf;
    var w := v;
    while w >= 128
      invariant out + Varint(w) == buf + Varint(v)
    {
      ghost var before := out;
      out := out + [(w % 128 + 128) as byte];
      assert out + Varint(w / 128) == before + Varint(w);
      w := w / 128;
    }
    out := out + [w as byte];
  }

  /** The rest of a varint whose first `i` bytes have contributed `acc`. The shift by
      `7 * i` drops what does not fit 64 bits; the bits or-ed in are disjoint from `acc`. */
  function DecodeVarintFrom(data: seq<byte>, i: nat, acc: nat): (r: Result<(nat, nat)>)
    requires i <= |data|
    ensures r.Ok? ==> i < r.value.1 <= |data|
    decreases |data| - i
  {
    if i == |data| || i >= 10 then Err(Protobuf)
    else
      var c := data[i] as nat;
      var v := acc + c % 128 * Pow128(i) % (U64_MAX + 1);
      if c < 128 then Ok((v, i + 1)) else DecodeVarintFrom(data, i + 1, v)
  }

  function DecodeVarint(data: seq<byte>): (r: Result<(nat, nat)>)
    ensures r.Ok? ==> 0 < r.value.1 <= |data|
  {
    DecodeVarintFrom(data, 0, 0)
  }

  method ScanVarint(data: seq<byte>) returns (r: Result<(nat, nat)>)
    ensures r == DecodeVarint(data)
  {
    var v: nat, shift := 0, 1;
    for i := 0 to |data|
      invariant i <= 10
      invariant shift == Pow128(i)
      invariant DecodeVarintFrom(data, i, v) == DecodeVarint(data)
    {
      if i >= 10 {
        return Err(Protobuf);
      }
      var c := data[i] as nat;
      v := v + c % 128 * shift % (U64_MAX + 1);
      if c < 128 {
        return Ok((v, i + 1));
      }
      shift := 128 * shift;
    }
    return Err(Protobuf);
  }

  lemma {:induction false} Pow128Large(i: nat)
    requires i >= 10
    ensures Pow128(i) > U64_MAX
  {
    if i > 10 {
      Pow128Large(i - 1);
    } else {
      assert Pow128(2) == 0x4000;
      assert Pow128(4) == 0x1000_0000;
      assert Pow128(6) == 0x400_0000_0000;
      assert Pow128(8) == 0x100_0000_0000_0000;
    }
  }

  lemma {:induction false} ScanArith(w: nat, p: nat)
    requires p > 0 && w * p <= U64_MAX
    ensures w % 128 * p % (U64_MAX + 1) == w % 128 * p
    ensures w / 128 * (128 * p) + w % 128 * p == w * p
    ensures w / 128 * (128 * p) <= U64_MAX
    ensures w > 0 ==> p <= U64_MAX
  {
    var q, r := w / 128, w % 128;
    assert w * p == q * (128 * p) + r * p by {
      assert w == q * 128 + r;
      assert (q * 128 + r) * p == q * (128 * p) + r * p;
    }
    assert 0 <= q * (128 * p) && 0 <= r * p;
    if w > 0 {
      assert w * p >= p;
    }
  }

  lemma {:induction false} ScanMore(data: seq<byte>, i: nat, acc: nat)
    requires i < |data| && i < 10
    ensures DecodeVarintFrom(data, i, acc)
         == var v := acc + data[i] as nat % 128 * Pow128(i) % (U64_MAX + 1);
            if data[i] < 128 then Ok((v, i + 1)) else DecodeVarintFrom(data, i + 1, v)
  {}

  lemma {:induction false} VarintScan(data: seq<byte>, i: nat, w: nat, acc: nat)
    requires i == 0 || w > 0
    requires i + |Varint(w)| <= |data| && data[i..i + |Varint(w)|] == Varint(w)
    requires w * Pow128(i) <= U64_MAX
    ensures DecodeVarintFrom(data, i, acc) == Ok((acc + w * Pow128(i), i + |Varint(w)|))
    decreases w
  {
    var p, b := Pow128(i), Varint(w);
    ScanArith(w, p);
    if i >= 10 {
      Pow128Large(i);
      assert false;
    }
    assert data[i] == data[i..i + |b|][0] == b[0];
    ScanMore(data, i, acc);
    if w >= 128 {
      assert b[1..] == Varint(w / 128);
      assert data[i + 1..i + |b|] == data[i..i + |b|][1..];
      VarintScan(data, i + 1, w / 128, acc + w % 128 * p);
    }
  }

  /** `decode_varint` reads back what `append_varint` wrote and leaves the rest alone. */
  lemma {:induction false} VarintRoundTrip(v: nat, rest: seq<byte>)
    requires v <= U64_MAX
    ensures DecodeVarint(Varint(v) + rest) == Ok((v, |Varint(v)|))
  {
    var data := Varint(v) + rest;
    assert data[0..0 + |Varint(v)|] == Varint(v);
    VarintScan(data, 0, v, 0);
  }

  // ------------------------------------------------------------ tagged fields

  function Tag(field: nat, wtype: nat): seq<byte> { Varint(field * 8 + wtype) }

  function TagVarint(field: nat, v: nat): seq<byte> { Tag(field, WIRE_VARINT) + Varint(v) }

  function TagBytes(field: nat, data: seq<byte>): seq<byte> {
    Tag(field, WIRE_BYTES) + Varint(|data|) + data
  }

  function Drop(data: seq<byte>, n: nat): Result<seq<byte>> {
    if n <= |data| then Ok(data[n..]) else Err(Protobuf)
  }

  function ReadVarint(data: seq<byte>): (r: Result<(nat, seq<byte>)>)
    ensures r.Ok? ==> |r.value.1| < |data|
  {
    var (v, n) :- DecodeVarint(data);
    Ok((v, data[n..]))
  }

  function ReadBytes(data: seq<byte>): (r: Result<(seq<byte>, seq<byte>)>)
    ensures r.Ok? ==> |r.value.1| < |data|
  {
    var (len, n) :- DecodeVarint(data);
    if |data| < n + len then Err(Protobuf) else Ok((data[n..n + len], data[n + len..]))
  }

  function SkipField(data: seq<byte>, wtype: nat): (r: Result<seq<byte>>)
    ensures r.Ok? ==> |r.value| <= |data|
  {
    if wtype == WIRE_VARINT then
      var (_, rest) :- ReadVarint(data);
      Ok(rest)
    else if wtype == WIRE_BYTES then
      var (_, rest) :- ReadBytes(data);
      Ok(rest)
    else if wtype == 5 then Drop(data, 4)
    else if wtype == 1 then Drop(data, 8)
    else Err(Protobuf)
  }

  lemma {:induction false} ReadVarintField(v: nat, rest: seq<byte>)
    requires v <= U64_MAX
    ensures ReadVarint(Varint(v) + rest) == Ok((v, rest))
  {
    VarintRoundTrip(v, rest);
  }

  lemma {:induction false} ReadBytesField(data: seq<byte>, rest: seq<byte>)
    requires |data| <= U64_MAX
    ensures ReadBytes(Varint(|data|) + data + rest) == Ok((data, rest))
  {
    VarintRoundTrip(|data|, data + rest);
    assert Varint(|data|) + (data + rest) == Varint(|data|) + data + rest;
  }

  /** How the decoder splits a varint field `whole` off the front of its input. */
  predicate SplitsVarint(whole: seq<byte>, field: nat, body: seq<byte>, v: nat, rest: seq<byte>) {
    ReadVarint(whole) == Ok((field * 8 + WIRE_VARINT, body)) && ReadVarint(body) == Ok((v, rest))
  }

  predicate SplitsBytes(whole: seq<byte>, field: nat, body: seq<byte>, v: seq<byte>, rest: seq<byte>) {
    ReadVarint(whole) == Ok((field * 8 + WIRE_BYTES, body)) && ReadBytes(body) == Ok((v, rest))
  }

  lemma {:induction false} Assoc3<T>(a: seq<T>, b: seq<T>, c: seq<T>)
    ensures (a + b) + c == a + (b + c)
  {}

  lemma {:induction false} Assoc4<T>(a: seq<T>, b: seq<T>, c: seq<T>, d: seq<T>)
    ensures ((a + b) + c) + d == a + ((b + c) + d)
  {}

  lemma {:induction false} ReadTag(field: nat, wtype: nat, whole: seq<byte>, body: seq<byte>)
    requires field < 16 && wtype < 8 && whole == Tag(field, wtype) + body
    ensures ReadVarint(whole) == Ok((field * 8 + wtype, body))
  {
    ReadVarintField(field * 8 + wtype, body);
  }

  lemma {:induction false} SplitVarintField(field: nat, v: nat, rest: seq<byte>)
    requires field < 16 && v <= U64_MAX
    ensures SplitsVarint(TagVarint(field, v) + rest, field, Varint(v) + rest, v, rest)
  {
    Assoc3(Tag(field, WIRE_VARINT), Varint(v), rest);
    ReadTag(field, WIRE_VARINT, TagVarint(field, v) + rest, Varint(v) + rest);
    ReadVarintField(v, rest);
  }

  lemma {:induction false} SplitBytesField(field: nat, v: seq<byte>, rest: seq<byte>)
    requires field < 16 && |v| <= U64_MAX
    ensures SplitsBytes(TagBytes(field, v) + rest, field, Varint(|v|) + v + rest, v, rest)
  {
    Assoc4(Tag(field, WIRE_BYTES), Varint(|v|), v, rest);
    ReadTag(field, WIRE_BYTES, TagBytes(field, v) + rest, Varint(|v|) + v + rest);
    ReadBytesField(v, rest);
  }

  // -------------------------------------------------- transport instructions

  predicate InRange(ti: TransportInstruction) {
    && ti.protocolVersion < U32_SIZE
    && ti.oldNum <= U64_MAX && ti.newNum <= U64_MAX
    && ti.ackNum <= U64_MAX && ti.throwawayNum <= U64_MAX
    && |ti.diff| <= MAX_BUFFER && |ti.chaff| <= MAX_BUFFER
  }

  /** The fields in the order in which they are appended. */
  function Encode(ti: TransportInstruction): seq<byte> {
    OptionalNum(1, ti.protocolVersion) + EncodeNums(ti, EncodeTail(ti))
  }

  function EncodeNums(ti: TransportInstruction, tail: seq<byte>): seq<byte> {
    TagVarint(2, ti.oldNum) + (TagVarint(3, ti.newNum)
      + (TagVarint(4, ti.ackNum) + (TagVarint(5, ti.throwawayNum) + tail)))
  }

  function EncodeTail(ti: TransportInstruction): seq<byte> {
    OptionalBytes(6, ti.diff) + OptionalBytes(7, ti.chaff)
  }

  /** A number that the encoder leaves out when it is zero. */
  function OptionalNum(field: nat, v: nat): seq<byte> {
    if v != 0 then TagVarint(field, v) else []
  }

  /** A byte field that the encoder leaves out when it is empty. */
  function OptionalBytes(field: nat, v: seq<byte>): seq<byte> {
    if v != [] then TagBytes(field, v) else []
  }

  /** One turn of the decoder's loop: the updated message and the remaining bytes. */
  function DecodeField(msg: TransportInstruction, data: seq<byte>)
    : (r: Result<(TransportInstruction, seq<byte>)>)
    ensures r.Ok? ==> |r.value.1| < |data|
  {
    var (tag, body) :- ReadVarint(data);
    var field, wtype := tag / 8, tag % 8;
    if 1 <= field <= 5 && wtype == WIRE_VARINT then
      var (v, rest) :- ReadVarint(body);
      Ok((SetNum(msg, field, v), rest))
    else if 6 <= field <= 7 && wtype == WIRE_BYTES then
      var (v, rest) :- ReadBytes(body);
      Ok((SetBytes(msg, field, v), rest))
    else
      var rest :- SkipField(body, wtype);
      Ok((msg, rest))
  }

  function DecodeFields(msg: TransportInstruction, data: seq<byte>): Result<TransportInstruction>
    decreases |data|
  {
    if data == [] then Ok(msg)
    else
      var (msg', rest) :- DecodeField(msg, data);
      DecodeFields(msg', rest)
  }

  function Decode(data: seq<byte>): Result<TransportInstruction> {
    DecodeFields(EMPTY_TRANSPORT, data)
  }

  method DecodeInstruction(input: seq<byte>) returns (r: Result<TransportInstruction>)
    ensures r == Decode(input)
  {
    var msg, data := EMPTY_TRANSPORT, input;
    while data != []
      invariant DecodeFields(msg, data) == Decode(input)
      decreases |data|
    {
      var step := DecodeField(msg, data);
      if step.Err? {
        return Err(step.error);
      }
      msg, data := step.value.0, step.value.1;
    }
    return Ok(msg);
  }

  function SetNum(msg: TransportInstruction, field: nat, v: nat): TransportInstruction {
    if field == 1 then msg.(protocolVersion := v % U32_SIZE)
    else if field == 2 then msg.(oldNum := v)
    else if field == 3 then msg.(newNum := v)
    else if field == 4 then msg.(ackNum := v)
    else msg.(throwawayNum := v)
  }

  function SetBytes(msg: TransportInstruction, field: nat, v: seq<byte>): TransportInstruction {
    if field == 6 then msg.(diff := v) else msg.(chaff := v)
  }

  lemma {:induction false} FieldsStep(msg: TransportInstruction, whole: seq<byte>, msg': TransportInstruction, rest: seq<byte>)
    requires whole != [] && DecodeField(msg, whole) == Ok((msg', rest))
    ensures DecodeFields(msg, whole) == DecodeFields(msg', rest)
  {}

  lemma {:induction false} VarintSplit(msg: TransportInstruction, whole: seq<byte>, field: nat, body: seq<byte>, v: nat, rest: seq<byte>)
    requires 1 <= field <= 5 && SplitsVarint(whole, field, body, v, rest)
    ensures whole != [] && DecodeField(msg, whole) == Ok((SetNum(msg, field, v), rest))
  {}

  lemma {:induction false} BytesSplit(msg: TransportInstruction, whole: seq<byte>, field: nat, body: seq<byte>, v: seq<byte>, rest: seq<byte>)
    requires 6 <= field <= 7 && SplitsBytes(whole, field, body, v, rest)
    ensures whole != [] && DecodeField(msg, whole) == Ok((SetBytes(msg, field, v), rest))
  {}

  lemma {:induction false} VarintFieldStep(msg: TransportInstruction, field: nat, v: nat, rest: seq<byte>)
    requires 1 <= field <= 5 && v <= U64_MAX
    ensures DecodeFields(msg, TagVarint(field, v) + rest) == DecodeFields(SetNum(msg, field, v), rest)
  {
    SplitVarintField(field, v, rest);
    VarintSplit(msg, TagVarint(field, v) + rest, field, Varint(v) + rest, v, rest);
    FieldsStep(msg, TagVarint(field, v) + rest, SetNum(msg, field, v), rest);
  }

  lemma {:induction false} BytesFieldStep(msg: TransportInstruction, field: nat, v: seq<byte>, rest: seq<byte>)
    requires 6 <= field <= 7 && |v| <= U64_MAX
    requires SetBytes(msg, field, []) == msg
    ensures DecodeFields(msg, OptionalBytes(field, v) + rest) == DecodeFields(SetBytes(msg, field, v), rest)
  {
    if v == [] {
      assert OptionalBytes(field, v) + rest == rest;
    } else {
      SplitBytesField(field, v, rest);
      BytesSplit(msg, TagBytes(field, v) + rest, field, Varint(|v|) + v + rest, v, rest);
      FieldsStep(msg, TagBytes(field, v) + rest, SetBytes(msg, field, v), rest);
    }
  }

  lemma {:induction false} TailRoundTrip(msg: TransportInstruction, diff: seq<byte>, chaff: seq<byte>)
    requires |diff| <= MAX_BUFFER && |chaff| <= MAX_BUFFER && msg.diff == msg.chaff == []
    ensures DecodeFields(msg, OptionalBytes(6, diff) + OptionalBytes(7, chaff))
         == Ok(msg.(diff := diff, chaff := chaff))
  {
    BytesFieldStep(msg, 6, diff, OptionalBytes(7, chaff));
    assert OptionalBytes(7, chaff) + [] == OptionalBytes(7, chaff);
    BytesFieldStep(msg.(diff := diff), 7, chaff, []);
  }

  lemma {:induction false} OptionalNumStep(msg: TransportInstruction, field: nat, v: nat, rest: seq<byte>)
    requires 1 <= field <= 5 && v <= U64_MAX && SetNum(msg, field, 0) == msg
    ensures DecodeFields(msg, OptionalNum(field, v) + rest) == DecodeFields(SetNum(msg, field, v), rest)
  {
    if v == 0 {
      assert OptionalNum(field, v) + rest == rest;
    } else {
      VarintFieldStep(msg, field, v, rest);
    }
  }

  lemma {:induction false} SetVersion(msg: TransportInstruction, v: nat)
    requires v < U32_SIZE
    ensures SetNum(msg, 1, v) == msg.(protocolVersion := v)
  {}

  lemma {:induction false} RoundTripFrom(msg: TransportInstruction, ti: TransportInstruction, nums: seq<byte>, tail: seq<byte>)
    requires InRange(ti) && msg == EMPTY_TRANSPORT
    requires tail == EncodeTail(ti) && nums == EncodeNums(ti, tail)
    ensures DecodeFields(msg, OptionalNum(1, ti.protocolVersion) + nums) == Ok(ti)
  {
    var bare := ti.(diff := [], chaff := []);
    SetVersion(msg, 0);
    SetVersion(msg, ti.protocolVersion);
    OptionalNumStep(msg, 1, ti.protocolVersion, nums);
    NumsRoundTrip(msg.(protocolVersion := ti.protocolVersion), ti, tail);
    assert DecodeFields(bare, tail) == Ok(ti) by {
      TailRoundTrip(bare, ti.diff, ti.chaff);
    }
  }

  /** Every instruction decodes to itself, whichever of its fields the encoder skips. */
  lemma {:induction false} InstructionRoundTrip(ti: TransportInstruction)
    requires InRange(ti)
    ensures Decode(Encode(ti)) == Ok(ti)
  {
    RoundTripFrom(EMPTY_TRANSPORT, ti, EncodeNums(ti, EncodeTail(ti)), EncodeTail(ti));
  }

  lemma {:induction false} NumsRoundTrip(m1: TransportInstruction, ti: TransportInstruction, tail: seq<byte>)
    requires InRange(ti) && m1 == EMPTY_TRANSPORT.(protocolVersion := ti.protocolVersion)
    ensures DecodeFields(m1, EncodeNums(ti, tail)) == DecodeFields(ti.(diff := [], chaff := []), tail)
  {
    var e5 := TagVarint(5, ti.throwawayNum) + tail;
    var e4 := TagVarint(4, ti.ackNum) + e5;
    var e3 := TagVarint(3, ti.newNum) + e4;
    var m2 := SetNum(m1, 2, ti.oldNum);
    var m3 := SetNum(m2, 3, ti.newNum);
    var m4 := SetNum(m3, 4, ti.ackNum);
    VarintFieldStep(m1, 2, ti.oldNum, e3);
    VarintFieldStep(m2, 3, ti.newNum, e4);
    VarintFieldStep(m3, 4, ti.ackNum, e5);
    VarintFieldStep(m4, 5, ti.throwawayNum, tail);
  }

  // --------------------------------------------------------- user messages

  function AsU32(v: int): nat { v % U32_SIZE }

  function AsI32(v: nat): int {
    var m := v % U32_SIZE;
    if m < U32_SIZE / 2 then m else m - U32_SIZE
  }

  predicate IsI32(v: int) { -(U32_SIZE as int) / 2 <= v < U32_SIZE / 2 }

  predicate Representable(u: UserInstruction) {
    |u.keys| <= MAX_BUFFER && IsI32(u.width) && IsI32(u.height)
  }

  function Resize(u: UserInstruction): seq<byte> {
    TagVarint(5, AsU32(u.width)) + TagVarint(6, AsU32(u.height))
  }

  function EncodeOne(u: UserInstruction): seq<byte> {
    (if u.keys != [] then TagBytes(2, TagBytes(4, u.keys)) else [])
    + (if u.width > 0 || u.height > 0 then TagBytes(3, Resize(u)) else [])
  }

  function EncodeMessage(us: seq<UserInstruction>): seq<byte> {
    if us == [] then [] else EncodeMessage(us[..|us| - 1]) + TagBytes(1, EncodeOne(us[|us| - 1]))
  }

  method EncodeUserMessage(us: seq<UserInstruction>) returns (outer: seq<byte>)
    ensures outer == EncodeMessage(us)
  {
    outer := [];
    for i := 0 to |us|
      invariant outer == EncodeMessage(us[..i])
    {
      assert us[..i + 1][..i] == us[..i];
      outer := outer + TagBytes(1, EncodeOne(us[i]));
    }
    assert us[..|us|] == us;
  }

  function DecodeKeys(keys: seq<byte>, data: seq<byte>): Result<seq<byte>>
    decreases |data|
  {
    if data == [] then Ok(keys)
    else
      var (tag, body) :- ReadVarint(data);
      if tag / 8 == 4 && tag % 8 == WIRE_BYTES then
        var (v, rest) :- ReadBytes(body);
        DecodeKeys(keys + v, rest)
      else
        var rest :- SkipField(body, tag % 8);
        DecodeKeys(keys, rest)
  }

  function DecodeSize(size: (int, int), data: seq<byte>): Result<(int, int)>
    decreases |data|
  {
    if data == [] then Ok(size)
    else
      var (tag, body) :- ReadVarint(data);
      if 5 <= tag / 8 <= 6 && tag % 8 == WIRE_VARINT then
        var (v, rest) :- ReadVarint(body);
        DecodeSize(if tag / 8 == 5 then (AsI32(v), size.1) else (size.0, AsI32(v)), rest)
      else
        var rest :- SkipField(body, tag % 8);
        DecodeSize(size, rest)
  }

  /** One turn of `UserInstruction::decode_one`. */
  function DecodePart(msg: UserInstruction, data: seq<byte>): (r: Result<(UserInstruction, seq<byte>)>)
    ensures r.Ok? ==> |r.value.1| < |data|
  {
    var (tag, body) :- ReadVarint(data);
    if tag / 8 == 2 && tag % 8 == WIRE_BYTES then
      var (inner, rest) :- ReadBytes(body);
      var keys :- DecodeKeys(msg.keys, inner);
      Ok((msg.(keys := keys), rest))
    else if tag / 8 == 3 && tag % 8 == WIRE_BYTES then
      var (inner, rest) :- ReadBytes(body);
      var (width, height) :- DecodeSize((msg.width, msg.height), inner);
      Ok((msg.(width := width, height := height), rest))
    else
      var rest :- SkipField(body, tag % 8);
      Ok((msg, rest))
  }

  function DecodeOneFrom(msg: UserInstruction, data: seq<byte>): Result<UserInstruction>
    decreases |data|
  {
    if data == [] then Ok(msg)
    else
      var (msg', rest) :- DecodePart(msg, data);
      DecodeOneFrom(msg', rest)
  }

  /** One turn of `UserInstruction::decode_message`. */
  function DecodeEntry(data: seq<byte>): (r: Result<(seq<UserInstruction>, seq<byte>)>)
    ensures r.Ok? ==> |r.value.1| < |data|
  {
    var (tag, body) :- ReadVarint(data);
    if tag / 8 == 1 && tag % 8 == WIRE_BYTES then
      var (inner, rest) :- ReadBytes(body);
      var one :- DecodeOneFrom(EMPTY_USER, inner);
      Ok(([one], rest))
    else
      var rest :- SkipField(body, tag % 8);
      Ok(([], rest))
  }

  function DecodeMessageFrom(out: seq<UserInstruction>, data: seq<byte>): Result<seq<UserInstruction>>
    decreases |data|
  {
    if data == [] then Ok(out)
    else
      var (entry, rest) :- DecodeEntry(data);
      DecodeMessageFrom(out + entry, rest)
  }

  function DecodeMessage(data: seq<byte>): Result<seq<UserInstruction>> {
    DecodeMessageFrom([], data)
  }

  method DecodeUserMessage(input: seq<byte>) returns (r: Result<seq<UserInstruction>>)
    ensures r == DecodeMessage(input)
  {
    var out, data := [], input;
    while data != []
      invariant DecodeMessageFrom(out, data) == DecodeMessage(input)
      decreases |data|
    {
      var entry := DecodeEntry(data);
      if entry.Err? {
        return Err(entry.error);
      }
      out, data := out + entry.value.0, entry.value.1;
    }
    return Ok(out);
  }

  lemma {:induction false} SplitLast<T>(s: seq<T>)
    requires s != []
    ensures s == s[..|s| - 1] + [s[|s| - 1]]
  {}

  lemma {:induction false} DropLast<T>(s: seq<T>, x: T)
    ensures (s + [x])[..|s + [x]| - 1] == s
  {}

  lemma {:induction false} EncodeMessageSnoc(us: seq<UserInstruction>, u: UserInstruction, whole: seq<UserInstruction>)
    requires whole == us + [u]
    ensures EncodeMessage(whole) == EncodeMessage(us) + TagBytes(1, EncodeOne(u))
  {
    DropLast(us, u);
  }

  /** Encoding a list of actions distributes over concatenation, so diffs compose. */
  lemma {:induction false} EncodeMessageConcat(a: seq<UserInstruction>, b: seq<UserInstruction>)
    ensures EncodeMessage(a + b) == EncodeMessage(a) + EncodeMessage(b)
    decreases |b|, 1
  {
    if b == [] {
      assert a + b == a;
    } else {
      var b', u := b[..|b| - 1], b[|b| - 1];
      SplitLast(b);
      Assoc3(a, b', [u]);
      ConcatSnoc(a, b', u, b);
    }
  }

  lemma {:induction false} ConcatSnoc(a: seq<UserInstruction>, b': seq<UserInstruction>, u: UserInstruction, b: seq<UserInstruction>)
    requires b == b' + [u]
    ensures EncodeMessage(a + b) == EncodeMessage(a) + EncodeMessage(b)
    decreases |b|, 0
  {
    EncodeMessageConcat(a, b');
    Assoc3(a, b', [u]);
    EncodeMessageSnoc(a + b', u, a + b);
    EncodeMessageSnoc(b', u, b);
    Assoc3(EncodeMessage(a), EncodeMessage(b'), TagBytes(1, EncodeOne(u)));
  }

  lemma {:induction false} VarintShort(v: nat, n: nat)
    requires v < Pow128(n) && n > 0
    ensures |Varint(v)| <= n
  {
    if v >= 128 {
      assert n > 1;
      assert v / 128 < Pow128(n - 1);
      VarintShort(v / 128, n - 1);
    }
  }

  lemma {:induction false} VarintLength(v: nat)
    requires v <= U64_MAX
    ensures |Varint(v)| <= 10
  {
    Pow128Large(10);
    VarintShort(v, 10);
  }

  lemma {:induction false} TagBytesLength(field: nat, v: seq<byte>)
    requires field < 16 && |v| <= U64_MAX
    ensures |TagBytes(field, v)| <= |v| + 20
  {
    VarintLength(field * 8 + WIRE_BYTES);
    VarintLength(|v|);
  }

  lemma {:induction false} TagVarintLength(field: nat, v: nat)
    requires field < 16 && v <= U64_MAX
    ensures |TagVarint(field, v)| <= 20
  {
    VarintLength(field * 8 + WIRE_VARINT);
    VarintLength(v);
  }

  lemma {:induction false} KeysStep(keys: seq<byte>, whole: seq<byte>, body: seq<byte>, v: seq<byte>, rest: seq<byte>)
    requires SplitsBytes(whole, 4, body, v, rest)
    ensures DecodeKeys(keys, whole) == DecodeKeys(keys + v, rest)
  {}

  lemma {:induction false} KeysField(keys: seq<byte>)
    requires |keys| <= MAX_BUFFER
    ensures DecodeKeys([], TagBytes(4, keys)) == Ok(keys)
  {
    SplitBytesField(4, keys, []);
    KeysStep([], TagBytes(4, keys) + [], Varint(|keys|) + keys + [], keys, []);
    assert TagBytes(4, keys) + [] == TagBytes(4, keys) && [] + keys == keys;
  }

  lemma {:induction false} I32RoundTrip(v: int)
    requires IsI32(v)
    ensures AsI32(AsU32(v)) == v
  {}

  lemma {:induction false} SizeStep(size: (int, int), whole: seq<byte>, field: nat, body: seq<byte>, v: nat, rest: seq<byte>)
    requires 5 <= field <= 6 && SplitsVarint(whole, field, body, v, rest)
    ensures DecodeSize(size, whole)
         == DecodeSize(if field == 5 then (AsI32(v), size.1) else (size.0, AsI32(v)), rest)
  {}

  lemma {:induction false} SizeField(u: UserInstruction)
    requires IsI32(u.width) && IsI32(u.height)
    ensures DecodeSize((0, 0), Resize(u)) == Ok((u.width, u.height))
  {
    var w, h := AsU32(u.width), AsU32(u.height);
    SplitVarintField(5, w, TagVarint(6, h));
    SizeStep((0, 0), Resize(u), 5, Varint(w) + TagVarint(6, h), w, TagVarint(6, h));
    SplitVarintField(6, h, []);
    assert TagVarint(6, h) + [] == TagVarint(6, h);
    SizeStep((AsI32(w), 0), TagVarint(6, h), 6, Varint(h) + [], h, []);
    I32RoundTrip(u.width);
    I32RoundTrip(u.height);
  }

  lemma {:induction false} KeysSplit(msg: UserInstruction, whole: seq<byte>, body: seq<byte>, inner: seq<byte>, keys: seq<byte>, rest: seq<byte>)
    requires SplitsBytes(whole, 2, body, inner, rest) && DecodeKeys(msg.keys, inner) == Ok(keys)
    ensures whole != [] && DecodePart(msg, whole) == Ok((msg.(keys := keys), rest))
  {}

  lemma {:induction false} SizeSplit(msg: UserInstruction, whole: seq<byte>, body: seq<byte>, inner: seq<byte>, size: (int, int), rest: seq<byte>)
    requires SplitsBytes(whole, 3, body, inner, rest)
    requires DecodeSize((msg.width, msg.height), inner) == Ok(size)
    ensures whole != [] && DecodePart(msg, whole) == Ok((msg.(width := size.0, height := size.1), rest))
  {}

  lemma {:induction false} PartStep(msg: UserInstruction, whole: seq<byte>, msg': UserInstruction, rest: seq<byte>)
    requires whole != [] && DecodePart(msg, whole) == Ok((msg', rest))
    ensures DecodeOneFrom(msg, whole) == DecodeOneFrom(msg', rest)
  {}

  lemma {:induction false} KeysPart(msg: UserInstruction, keys: seq<byte>, rest: seq<byte>)
    requires |keys| <= MAX_BUFFER && msg.keys == []
    ensures DecodeOneFrom(msg, TagBytes(2, TagBytes(4, keys)) + rest)
         == DecodeOneFrom(msg.(keys := keys), rest)
  {
    var part := TagBytes(4, keys);
    KeysField(keys);
    TagBytesLength(4, keys);
    SplitBytesField(2, part, rest);
    KeysSplit(msg, TagBytes(2, part) + rest, Varint(|part|) + part + rest, part, keys, rest);
    PartStep(msg, TagBytes(2, part) + rest, msg.(keys := keys), rest);
  }

  lemma {:induction false} SizePart(msg: UserInstruction, u: UserInstruction, rest: seq<byte>)
    requires Representable(u) && msg.width == msg.height == 0
    ensures DecodeOneFrom(msg, TagBytes(3, Resize(u)) + rest)
         == DecodeOneFrom(msg.(width := u.width, height := u.height), rest)
  {
    var part := Resize(u);
    SizeField(u);
    TagVarintLength(5, AsU32(u.width));
    TagVarintLength(6, AsU32(u.height));
    SplitBytesField(3, part, rest);
    SizeSplit(msg, TagBytes(3, part) + rest, Varint(|part|) + part + rest, part, (u.width, u.height), rest);
    PartStep(msg, TagBytes(3, part) + rest, msg.(width := u.width, height := u.height), rest);
  }

  /** What a user instruction decodes to: exactly itself, unless neither dimension is positive
      and not both are zero, which the encoder's `width > 0 || height > 0` test drops. */
  lemma {:induction false} UserInstructionRoundTrip(u: UserInstruction)
    requires Representable(u)
    ensures DecodeOneFrom(EMPTY_USER, EncodeOne(u)).Ok?
    ensures DecodeOneFrom(EMPTY_USER, EncodeOne(u)) == Ok(u)
       <==> u.width > 0 || u.height > 0 || (u.width == 0 && u.height == 0)
  {
    var tail := if u.width > 0 || u.height > 0 then TagBytes(3, Resize(u)) else [];
    var keyed := EMPTY_USER.(keys := u.keys);
    if u.keys != [] {
      KeysPart(EMPTY_USER, u.keys, tail);
    } else {
      assert [] + tail == tail;
    }
    assert DecodeOneFrom(EMPTY_USER, EncodeOne(u)) == DecodeOneFrom(keyed, tail);
    if tail != [] {
      assert tail + [] == tail;
      SizePart(keyed, u, []);
    }
  }

  /** The instructions the client creates: keystrokes, and resizes to an unsigned size. */
  predicate Action(u: UserInstruction) {
    Representable(u) && 0 <= u.width && 0 <= u.height
  }

  predicate Actions(us: seq<UserInstruction>) {
    forall u :: u in us ==> Action(u)
  }

  lemma {:induction false} EncodeOneLength(u: UserInstruction)
    requires Representable(u)
    ensures |EncodeOne(u)| <= U64_MAX
  {
    TagBytesLength(4, u.keys);
    TagBytesLength(2, TagBytes(4, u.keys));
    TagVarintLength(5, AsU32(u.width));
    TagVarintLength(6, AsU32(u.height));
    TagBytesLength(3, Resize(u));
  }

  lemma {:induction false} EntrySplit(whole: seq<byte>, body: seq<byte>, one: seq<byte>, u: UserInstruction, rest: seq<byte>)
    requires SplitsBytes(whole, 1, body, one, rest) && DecodeOneFrom(EMPTY_USER, one) == Ok(u)
    ensures DecodeEntry(whole) == Ok(([u], rest))
  {}

  lemma {:induction false} EntryStep(out: seq<UserInstruction>, whole: seq<byte>, u: UserInstruction, rest: seq<byte>)
    requires DecodeEntry(whole) == Ok(([u], rest))
    ensures DecodeMessageFrom(out, whole) == DecodeMessageFrom(out + [u], rest)
  {}

  lemma {:induction false} EntryPrefix(u: UserInstruction, out: seq<UserInstruction>, rest: seq<byte>)
    requires Action(u)
    ensures DecodeMessageFrom(out, TagBytes(1, EncodeOne(u)) + rest) == DecodeMessageFrom(out + [u], rest)
  {
    var one := EncodeOne(u);
    EncodeOneLength(u);
    SplitBytesField(1, one, rest);
    UserInstructionRoundTrip(u);
    EntrySplit(TagBytes(1, one) + rest, Varint(|one|) + one + rest, one, u, rest);
    EntryStep(out, TagBytes(1, one) + rest, u, rest);
  }

  lemma {:induction false} DecodeMessagePrefix(us: seq<UserInstruction>, out: seq<UserInstruction>, rest: seq<byte>)
    requires Actions(us)
    ensures DecodeMessageFrom(out, EncodeMessage(us) + rest) == DecodeMessageFrom(out + us, rest)
  {
    if us == [] {
      assert EncodeMessage(us) + rest == rest && out + us == out;
    } else {
      var init, u := us[..|us| - 1], us[|us| - 1];
      assert us == init + [u];
      var entry := TagBytes(1, EncodeOne(u));
      Assoc3(EncodeMessage(init), entry, rest);
      DecodeMessagePrefix(init, out, entry + rest);
      EntryPrefix(u, out + init, rest);
      Assoc3(out, init, [u]);
    }
  }

  /** Decoding recovers the exact list of actions. */
  lemma {:induction false} UserMessageRoundTrip(us: seq<UserInstruction>)
    requires Actions(us)
    ensures DecodeMessage(EncodeMessage(us)) == Ok(us)
  {
    hide EncodeMessage, Actions, DecodeEntry;
    DecodeMessagePrefix(us, [], []);
    assert EncodeMessage(us) + [] == EncodeMessage(us) && [] + us == us;
  }
}
