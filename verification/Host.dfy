/** Host messages: the codec, and what they make of a numbered screen. */
module Host {
  import opened Basics
  import opened Pb
  import opened Lexer
  import opened Sgr
  import opened Cells
  import opened Screen
  import opened Compaction
  import opened Terminal
  import opened Reading
  import opened Reachable
  import opened Glyphs
  import Session
  import Guarantees

  datatype HostInstruction = HostInstruction(hoststring: seq<byte>, width: int, height: int, echoAck: int)

  const NOTHING := HostInstruction([], 0, 0, -1)

  const I64_SIZE: nat := U64_MAX + 1

  function AsU64(v: int): nat { v % I64_SIZE }

  function AsI64(v: nat): int {
    var m := v % I64_SIZE;
    if m < I64_SIZE / 2 then m else m - I64_SIZE
  }

  predicate Encodable(h: HostInstruction) {
    |h.hoststring| <= MAX_BUFFER && IsI32(h.width) && IsI32(h.height) && -(I64_SIZE as int) / 2 <= h.echoAck < I64_SIZE / 2
  }

  function Size(h: HostInstruction): seq<byte> {
    TagVarint(5, AsU32(h.width)) + TagVarint(6, AsU32(h.height))
  }

  function EncodeHost(h: HostInstruction): seq<byte> {
    (if h.hoststring != [] then TagBytes(2, TagBytes(4, h.hoststring)) else [])
    + ((if h.width > 0 || h.height > 0 then TagBytes(3, Size(h)) else [])
    + if h.echoAck >= 0 then TagBytes(7, TagVarint(8, AsU64(h.echoAck))) else [])
  }

  function EncodeHosts(hs: seq<HostInstruction>): seq<byte> {
    if hs == [] then [] else EncodeHosts(hs[..|hs| - 1]) + TagBytes(1, EncodeHost(hs[|hs| - 1]))
  }

  method EncodeHostMessage(hs: seq<HostInstruction>) returns (outer: seq<byte>)
    ensures outer == EncodeHosts(hs)
  {
    outer := [];
    for i := 0 to |hs|
      invariant outer == EncodeHosts(hs[..i])
    {
      assert hs[..i + 1][..i] == hs[..i];
      outer := outer + TagBytes(1, EncodeHost(hs[i]));
    }
    assert hs[..|hs|] == hs;
  }

  /** Field 4 of the host bytes; a later one replaces an earlier one. */
  function DecodeBytes(bytes: seq<byte>, data: seq<byte>): Result<seq<byte>>
    decreases |data|
  {
    if data == [] then Ok(bytes)
    else
      var (tag, body) :- ReadVarint(data);
      if tag / 8 == 4 && tag % 8 == WIRE_BYTES then
        var (v, rest) :- ReadBytes(body);
        DecodeBytes(v, rest)
      else
        var rest :- SkipField(body, tag % 8);
        DecodeBytes(bytes, rest)
  }

  function DecodeEcho(echo: int, data: seq<byte>): Result<int>
    decreases |data|
  {
    if data == [] then Ok(echo)
    else
      var (tag, body) :- ReadVarint(data);
      if tag / 8 == 8 && tag % 8 == WIRE_VARINT then
        var (v, rest) :- ReadVarint(body);
        DecodeEcho(AsI64(v), rest)
      else
        var rest :- SkipField(body, tag % 8);
        DecodeEcho(echo, rest)
  }

  function DecodeHostPart(msg: HostInstruction, data: seq<byte>): (r: Result<(HostInstruction, seq<byte>)>)
    ensures r.Ok? ==> |r.value.1| < |data|
  {
    var (tag, body) :- ReadVarint(data);
    if tag % 8 == WIRE_BYTES && tag / 8 in {2, 3, 7} then
      var (inner, rest) :- ReadBytes(body);
      if tag / 8 == 2 then
        var bytes :- DecodeBytes(msg.hoststring, inner);
        Ok((msg.(hoststring := bytes), rest))
      else if tag / 8 == 3 then
        var (width, height) :- DecodeSize((msg.width, msg.height), inner);
        Ok((msg.(width := width, height := height), rest))
      else
        var echo :- DecodeEcho(msg.echoAck, inner);
        Ok((msg.(echoAck := echo), rest))
    else
      var rest :- SkipField(body, tag % 8);
      Ok((msg, rest))
  }

  function DecodeHostFrom(msg: HostInstruction, data: seq<byte>): Result<HostInstruction>
    decreases |data|
  {
    if data == [] then Ok(msg)
    else
      var (msg', rest) :- DecodeHostPart(msg, data);
      DecodeHostFrom(msg', rest)
  }

  function DecodeHostEntry(data: seq<byte>): (r: Result<(seq<HostInstruction>, seq<byte>)>)
    ensures r.Ok? ==> |r.value.1| < |data|
  {
    var (tag, body) :- ReadVarint(data);
    if tag / 8 == 1 && tag % 8 == WIRE_BYTES then
      var (inner, rest) :- ReadBytes(body);
      var one :- DecodeHostFrom(NOTHING, inner);
      Ok(([one], rest))
    else
      var rest :- SkipField(body, tag % 8);
      Ok(([], rest))
  }

  function DecodeHostsFrom(out: seq<HostInstruction>, data: seq<byte>): Result<seq<HostInstruction>>
    decreases |data|
  {
    if data == [] then Ok(out)
    else
      var (entry, rest) :- DecodeHostEntry(data);
      DecodeHostsFrom(out + entry, rest)
  }

  function DecodeHosts(data: seq<byte>): Result<seq<HostInstruction>> { DecodeHostsFrom([], data) }

  method DecodeHostMessage(input: seq<byte>) returns (r: Result<seq<HostInstruction>>)
    ensures r == DecodeHosts(input)
  {
    var out, data := [], input;
    while data != []
      invariant DecodeHostsFrom(out, data) == DecodeHosts(input)
      decreases |data|
    {
      var entry := DecodeHostEntry(data);
      if entry.Err? {
        return Err(entry.error);
      }
      out, data := out + entry.value.0, entry.value.1;
    }
    return Ok(out);
  }

  // ------------------------------------------------------------------- the round trip

  lemma {:induction false} BytesField(was: seq<byte>, v: seq<byte>)
    requires |v| <= MAX_BUFFER
    ensures DecodeBytes(was, TagBytes(4, v)) == Ok(v)
  {
    SplitBytesField(4, v, []);
    assert TagBytes(4, v) + [] == TagBytes(4, v);
    assert DecodeBytes(was, TagBytes(4, v)) == DecodeBytes(v, []);
  }

  lemma {:induction false} EchoField(was: int, v: int)
    requires 0 <= v < I64_SIZE / 2
    ensures DecodeEcho(was, TagVarint(8, AsU64(v))) == Ok(v)
  {
    SplitVarintField(8, AsU64(v), []);
    assert TagVarint(8, AsU64(v)) + [] == TagVarint(8, AsU64(v));
    assert DecodeEcho(was, TagVarint(8, AsU64(v))) == DecodeEcho(AsI64(AsU64(v)), []);
  }

  lemma {:induction false} HostStep(msg: HostInstruction, whole: seq<byte>, msg': HostInstruction, rest: seq<byte>)
    requires whole != [] && DecodeHostPart(msg, whole) == Ok((msg', rest))
    ensures DecodeHostFrom(msg, whole) == DecodeHostFrom(msg', rest)
  {}

  lemma {:induction false} BytesPart(msg: HostInstruction, v: seq<byte>, rest: seq<byte>)
    requires |v| <= MAX_BUFFER
    ensures DecodeHostFrom(msg, TagBytes(2, TagBytes(4, v)) + rest) == DecodeHostFrom(msg.(hoststring := v), rest)
  {
    hide DecodeHostFrom, DecodeBytes;
    var part := TagBytes(4, v);
    BytesField(msg.hoststring, v);
    TagBytesLength(4, v);
    SplitBytesField(2, part, rest);
    HostStep(msg, TagBytes(2, part) + rest, msg.(hoststring := v), rest);
  }

  lemma {:induction false} SizeHostPart(msg: HostInstruction, h: HostInstruction, rest: seq<byte>)
    requires Encodable(h) && msg.width == msg.height == 0
    ensures DecodeHostFrom(msg, TagBytes(3, Size(h)) + rest) == DecodeHostFrom(msg.(width := h.width, height := h.height), rest)
  {
    hide DecodeHostFrom, DecodeSize;
    var u := UserInstruction([], h.width, h.height);
    SizeField(u);
    TagVarintLength(5, AsU32(h.width));
    TagVarintLength(6, AsU32(h.height));
    SplitBytesField(3, Size(h), rest);
    HostStep(msg, TagBytes(3, Size(h)) + rest, msg.(width := h.width, height := h.height), rest);
  }

  lemma {:induction false} EchoPart(msg: HostInstruction, v: int, rest: seq<byte>)
    requires 0 <= v < I64_SIZE / 2
    ensures DecodeHostFrom(msg, TagBytes(7, TagVarint(8, AsU64(v))) + rest) == DecodeHostFrom(msg.(echoAck := v), rest)
  {
    hide DecodeHostFrom, DecodeEcho;
    var part := TagVarint(8, AsU64(v));
    EchoField(msg.echoAck, v);
    TagVarintLength(8, AsU64(v));
    SplitBytesField(7, part, rest);
    HostStep(msg, TagBytes(7, part) + rest, msg.(echoAck := v), rest);
  }

  /** What the decoder makes of an encoded instruction: negative values that the encoder's
      tests drop come back as their defaults. */
  function Decoded(h: HostInstruction): HostInstruction {
    HostInstruction(h.hoststring,
                    if h.width > 0 || h.height > 0 then h.width else 0,
                    if h.width > 0 || h.height > 0 then h.height else 0,
                    if h.echoAck >= 0 then h.echoAck else -1)
  }

  lemma {:induction false} HostDecodes(h: HostInstruction)
    requires Encodable(h)
    ensures DecodeHostFrom(NOTHING, EncodeHost(h)) == Ok(Decoded(h))
  {
    hide DecodeHostPart, TagBytes, TagVarint;
    var size := if h.width > 0 || h.height > 0 then TagBytes(3, Size(h)) else [];
    var echo := if h.echoAck >= 0 then TagBytes(7, TagVarint(8, AsU64(h.echoAck))) else [];
    var m1 := NOTHING.(hoststring := h.hoststring);
    if h.hoststring != [] {
      BytesPart(NOTHING, h.hoststring, size + echo);
    } else {
      assert [] + (size + echo) == size + echo;
    }
    assert DecodeHostFrom(NOTHING, EncodeHost(h)) == DecodeHostFrom(m1, size + echo);
    var m2 := if size != [] then m1.(width := h.width, height := h.height) else m1;
    if h.width > 0 || h.height > 0 {
      SizeHostPart(m1, h, echo);
      TagBytesNonEmpty(3, Size(h));
    } else {
      assert [] + echo == echo;
    }
    assert echo + [] == echo;
    if h.echoAck >= 0 {
      EchoPart(m2, h.echoAck, []);
    }
  }

  lemma {:induction false} TagBytesNonEmpty(field: nat, v: seq<byte>)
    ensures TagBytes(field, v) != []
  {}

  /** A host instruction round trips exactly if a dimension is positive or both are zero, and it
      has no negative echo number other than the default. */
  lemma {:induction false} HostRoundTrip(h: HostInstruction)
    requires Encodable(h)
    ensures DecodeHostFrom(NOTHING, EncodeHost(h)) == Ok(h)
       <==> h.echoAck >= -1 && (h.width > 0 || h.height > 0 || (h.width == 0 && h.height == 0))
  {
    hide DecodeHostFrom, EncodeHost;
    HostDecodes(h);
  }

  lemma {:induction false} EncodeHostLength(h: HostInstruction)
    requires Encodable(h)
    ensures |EncodeHost(h)| <= U64_MAX
  {
    TagBytesLength(4, h.hoststring);
    TagBytesLength(2, TagBytes(4, h.hoststring));
    TagVarintLength(5, AsU32(h.width));
    TagVarintLength(6, AsU32(h.height));
    TagBytesLength(3, Size(h));
    TagVarintLength(8, AsU64(h.echoAck));
    TagBytesLength(7, TagVarint(8, AsU64(h.echoAck)));
  }

  lemma {:induction false} HostEntry(h: HostInstruction, out: seq<HostInstruction>, rest: seq<byte>)
    requires Encodable(h)
    ensures DecodeHostsFrom(out, TagBytes(1, EncodeHost(h)) + rest) == DecodeHostsFrom(out + [Decoded(h)], rest)
  {
    hide DecodeHostFrom, EncodeHost, Decoded;
    var one := EncodeHost(h);
    EncodeHostLength(h);
    SplitBytesField(1, one, rest);
    HostDecodes(h);
    EntryIs(TagBytes(1, one) + rest, Varint(|one|) + one + rest, one, Decoded(h), rest);
  }

  lemma {:induction false} EntryIs(whole: seq<byte>, body: seq<byte>, one: seq<byte>, h: HostInstruction, rest: seq<byte>)
    requires SplitsBytes(whole, 1, body, one, rest) && DecodeHostFrom(NOTHING, one) == Ok(h)
    ensures whole != [] && DecodeHostEntry(whole) == Ok(([h], rest))
  {}

  function AllDecoded(hs: seq<HostInstruction>): seq<HostInstruction> {
    if hs == [] then [] else AllDecoded(hs[..|hs| - 1]) + [Decoded(hs[|hs| - 1])]
  }

  lemma {:induction false} HostsPrefix(hs: seq<HostInstruction>, out: seq<HostInstruction>, rest: seq<byte>)
    requires forall i :: 0 <= i < |hs| ==> Encodable(hs[i])
    ensures DecodeHostsFrom(out, EncodeHosts(hs) + rest) == DecodeHostsFrom(out + AllDecoded(hs), rest)
    decreases |hs|
  {
    hide DecodeHostEntry, EncodeHost, Decoded, Encodable;
    if hs == [] {
      assert EncodeHosts(hs) + rest == rest && out + AllDecoded(hs) == out;
    } else {
      var init, h := hs[..|hs| - 1], hs[|hs| - 1];
      var entry := TagBytes(1, EncodeHost(h));
      Assoc3(EncodeHosts(init), entry, rest);
      HostsPrefix(init, out, entry + rest);
      HostEntry(h, out + AllDecoded(init), rest);
      Assoc3(out, AllDecoded(init), [Decoded(h)]);
    }
  }

  /** A host message decodes to its instructions, each as `Decoded` says. */
  lemma {:induction false} HostMessageRoundTrip(hs: seq<HostInstruction>)
    requires forall i :: 0 <= i < |hs| ==> Encodable(hs[i])
    ensures DecodeHosts(EncodeHosts(hs)) == Ok(AllDecoded(hs))
  {
    hide EncodeHosts, DecodeHostEntry, AllDecoded, Encodable;
    HostsPrefix(hs, [], []);
    assert EncodeHosts(hs) + [] == EncodeHosts(hs) && [] + AllDecoded(hs) == AllDecoded(hs);
  }

  // --------------------------------------------------------- numbered screens

  /** The frame of a snapshot: the screen with its pen, and bytes not yet complete. */
  type Console = Fed<Screen>

  function CopiedRow(row: seq<Cell>, cols: nat): (r: seq<Cell>)
    ensures |r| == cols
  {
    seq(cols, x requires 0 <= x < cols => if x < |row| then row[x] else BLANK)
  }

  function CopiedGrid(grid: seq<seq<Cell>>, rows: nat, cols: nat): (g: seq<seq<Cell>>)
    ensures GridOk(g, rows, cols)
  {
    if rows == 0 then []
    else CopiedGrid(grid, rows - 1, cols) + [CopiedRow(if rows <= |grid| then grid[rows - 1] else [], cols)]
  }

  function CopiedTabs(tabs: seq<bool>, cols: nat): (s: seq<bool>)
    ensures |s| == cols
  {
    seq(cols, x requires 0 <= x < cols => if x < |tabs| then tabs[x] else x > 0 && x % 8 == 0)
  }

  /** `Framebuffer::resize`: what fits is copied, margins and target start anew. */
  function Resized(f: Frame, width: nat, height: nat): (r: Frame)
    ensures Shaped(f) ==> Shaped(r)
  {
    var cols, rows := if width == 0 then 1 else width, if height == 0 then 1 else height;
    if cols == f.cols && rows == f.rows then f
    else
      NewFrame(cols, rows).(
        grid := CopiedGrid(f.grid, rows, cols),
        cursor := Cursor(Least(f.cursor.x, cols - 1), Least(f.cursor.y, rows - 1), false),
        target := if f.target.valid && f.target.x < cols && f.target.y < rows then f.target else Target(0, 0, false),
        modes := f.modes, switches := f.switches, effects := f.effects, links := f.links,
        tabs := CopiedTabs(f.tabs, cols),
        scrolls := WrapInc(f.scrolls))
  }

  /** Which sizes the memory limit admits. */
  type Limit = (nat, nat) -> bool

  function ApplyInstruction(t: Widths, fits: Limit, s: Snapshot<Console>, h: HostInstruction): Option<Snapshot<Console>> {
    if h.width > 0 && h.height > 0 && !fits(h.width, h.height) then None
    else
      var term := if h.width > 0 && h.height > 0
                  then s.frame.(state := s.frame.state.(frame := Resized(s.frame.state.frame, h.width, h.height)))
                  else s.frame;
      var echo := if h.echoAck > s.echoAck then h.echoAck else s.echoAck;
      Some(Snapshot(if h.hoststring != [] then Feed(Executing(t), term, h.hoststring) else term, echo))
  }

  function ApplyInstructions(t: Widths, fits: Limit, s: Snapshot<Console>, hs: seq<HostInstruction>): Option<Snapshot<Console>> {
    if hs == [] then Some(s)
    else
      var before := ApplyInstructions(t, fits, s, hs[..|hs| - 1]);
      if before.None? then None else ApplyInstruction(t, fits, before.value, hs[|hs| - 1])
  }

  function Numbered(s: Snapshot<Console>, before: nat, n: nat): Snapshot<Console> {
    var f := Compact(s.frame.state.frame);
    var g := if f.scrolls != before then f.(scrolls := n) else f;
    s.(frame := s.frame.(state := s.frame.state.(frame := g)))
  }

  /** What a diff makes of a numbered snapshot; a changed geometry is marked with the state's
      own number. */
  function Interpret(t: Widths, fits: Limit, s: Snapshot<Console>, diff: seq<byte>, n: nat): Option<Snapshot<Console>> {
    var hs := DecodeHosts(diff);
    if hs.Err? then None
    else
      var r := ApplyInstructions(t, fits, s, hs.value);
      if r.None? then None else Some(Numbered(r.value, s.frame.state.frame.scrolls, n))
  }

  function HostInterpreter(t: Widths, fits: Limit): Interpreter<Console> {
    (s: Snapshot<Console>, diff: seq<byte>, n: nat) => Interpret(t, fits, s, diff, n)
  }

  // --------------------------------------------------------------- what is kept

  predicate SizeOk(f: Frame) { f.cols < U32_SIZE && f.rows < U32_SIZE }

  /** A screen as host messages build them. */
  predicate ScreenOk(t: Widths, term: Console) {
    && Shaped(term.state.frame) && SizeOk(term.state.frame) && MetaOk(term.state.frame)
    && (BlanksNarrow(t) ==> GlyphsOk(t, term.state))
  }

  lemma {:induction false} FeedKeeps(t: Widths, term: Console, data: seq<byte>)
    requires ScreenOk(t, term)
    ensures ScreenOk(t, Feed(Executing(t), term, data))
  {
    hide MetaOk, Shaped, Run, GlyphsOk, BlanksNarrow;
    RunKeepsMeta(t, term.state, term.carry + data);
    RunKeepsSize(t, term.state, term.carry + data);
    if BlanksNarrow(t) {
      RunKeepsGlyphs(t, term.state, term.carry + data);
    }
  }

  lemma {:induction false} ResizedKeeps(f: Frame, width: nat, height: nat)
    requires MetaOk(f) && Shaped(f)
    ensures MetaOk(Resized(f, width, height))
  {
    hide TableOk;
  }

  lemma {:induction false} CopiedGlyphs(t: Widths, grid: seq<seq<Cell>>, rows: nat, cols: nat)
    requires BlanksNarrow(t) && GridGlyphs(t, grid)
    ensures GridGlyphs(t, CopiedGrid(grid, rows, cols))
  {
    hide CellOk, BlanksNarrow;
    if rows > 0 {
      CopiedGlyphs(t, grid, rows - 1, cols);
      BlankOk(t, Default);
      var row := if rows <= |grid| then grid[rows - 1] else [];
      assert RowGlyphs(t, row);
      assert RowGlyphs(t, CopiedRow(row, cols));
    }
  }

  lemma {:induction false} ResizedScreen(t: Widths, term: Console, width: nat, height: nat)
    requires ScreenOk(t, term) && width < U32_SIZE && height < U32_SIZE
    ensures ScreenOk(t, term.(state := term.state.(frame := Resized(term.state.frame, width, height))))
  {
    hide MetaOk, Shaped, GridGlyphs, BlanksNarrow, CopiedGrid, CopiedTabs, BlankGrid;
    ResizedKeeps(term.state.frame, width, height);
    if BlanksNarrow(t) {
      var cols, rows := if width == 0 then 1 else width, if height == 0 then 1 else height;
      CopiedGlyphs(t, term.state.frame.grid, rows, cols);
    }
  }

  /** Sizes as the decoder gives them. */
  predicate Sized(h: HostInstruction) { IsI32(h.width) && IsI32(h.height) }

  predicate AllSized(hs: seq<HostInstruction>) { forall i :: 0 <= i < |hs| ==> Sized(hs[i]) }

  lemma {:induction false} DecodedSize(size: (int, int), data: seq<byte>)
    requires IsI32(size.0) && IsI32(size.1)
    ensures var r := DecodeSize(size, data); r.Ok? ==> IsI32(r.value.0) && IsI32(r.value.1)
    decreases |data|
  {
    hide ReadVarint, SkipField;
    if data != [] {
      var head := ReadVarint(data);
      if head.Ok? {
        var (tag, body) := head.value;
        if 5 <= tag / 8 <= 6 && tag % 8 == WIRE_VARINT {
          var number := ReadVarint(body);
          if number.Ok? {
            var (v, rest) := number.value;
            DecodedSize(if tag / 8 == 5 then (AsI32(v), size.1) else (size.0, AsI32(v)), rest);
          }
        } else {
          var skipped := SkipField(body, tag % 8);
          if skipped.Ok? {
            DecodedSize(size, skipped.value);
          }
        }
      }
    }
  }

  lemma {:induction false} DecodedPart(msg: HostInstruction, data: seq<byte>)
    requires Sized(msg)
    ensures var r := DecodeHostPart(msg, data); r.Ok? ==> Sized(r.value.0)
  {
    hide ReadVarint, SkipField, ReadBytes, DecodeSize, DecodeBytes, DecodeEcho, IsI32;
    var head := ReadVarint(data);
    if head.Ok? {
      var inner := ReadBytes(head.value.1);
      if inner.Ok? {
        DecodedSize((msg.width, msg.height), inner.value.0);
      }
    }
  }

  lemma {:induction false} DecodedOne(msg: HostInstruction, data: seq<byte>)
    requires Sized(msg)
    ensures var r := DecodeHostFrom(msg, data); r.Ok? ==> Sized(r.value)
    decreases |data|
  {
    hide DecodeHostPart, Sized;
    if data != [] {
      var part := DecodeHostPart(msg, data);
      DecodedPart(msg, data);
      if part.Ok? {
        DecodedOne(part.value.0, part.value.1);
      }
    }
  }

  lemma {:induction false} DecodedEntry(data: seq<byte>)
    ensures var r := DecodeHostEntry(data); r.Ok? ==> AllSized(r.value.0)
  {
    hide ReadVarint, SkipField, ReadBytes, DecodeHostFrom;
    var head := ReadVarint(data);
    if head.Ok? {
      var inner := ReadBytes(head.value.1);
      if inner.Ok? {
        DecodedOne(NOTHING, inner.value.0);
      }
    }
  }

  lemma {:induction false} DecodedAll(out: seq<HostInstruction>, data: seq<byte>)
    requires AllSized(out)
    ensures var r := DecodeHostsFrom(out, data); r.Ok? ==> AllSized(r.value)
    decreases |data|
  {
    hide DecodeHostEntry, Sized;
    if data != [] {
      var entry := DecodeHostEntry(data);
      DecodedEntry(data);
      if entry.Ok? {
        DecodedAll(out + entry.value.0, entry.value.1);
      }
    }
  }

  lemma {:induction false} InstructionKeeps(t: Widths, fits: Limit, s: Snapshot<Console>, h: HostInstruction)
    requires ScreenOk(t, s.frame) && Sized(h)
    ensures var r := ApplyInstruction(t, fits, s, h);
      r.Some? ==> ScreenOk(t, r.value.frame) && s.echoAck <= r.value.echoAck
  {
    hide ScreenOk, Feed, Resized;
    if h.width > 0 && h.height > 0 && fits(h.width, h.height) {
      var f := s.frame.state.frame;
      ResizedScreen(t, s.frame, h.width, h.height);
      FeedKeeps(t, s.frame.(state := s.frame.state.(frame := Resized(f, h.width, h.height))), h.hoststring);
    }
    FeedKeeps(t, s.frame, h.hoststring);
  }

  lemma {:induction false} InstructionsKeep(t: Widths, fits: Limit, s: Snapshot<Console>, hs: seq<HostInstruction>)
    requires ScreenOk(t, s.frame) && AllSized(hs)
    ensures var r := ApplyInstructions(t, fits, s, hs);
      r.Some? ==> ScreenOk(t, r.value.frame) && s.echoAck <= r.value.echoAck
    decreases |hs|
  {
    hide ScreenOk, ApplyInstruction, Sized;
    if hs != [] {
      InstructionsKeep(t, fits, s, hs[..|hs| - 1]);
      var before := ApplyInstructions(t, fits, s, hs[..|hs| - 1]);
      if before.Some? {
        InstructionKeeps(t, fits, before.value, hs[|hs| - 1]);
      }
    }
  }

  lemma {:induction false} CompactTableOk(table: seq<Hyperlink>, keep: seq<bool>, n: nat)
    requires n <= |table| && |keep| == |table| + 1 && TableOk(Links(table, 0))
    ensures TableOk(Links(CompactTable(table, keep, n).table, 0))
  {
    hide LinkOk;
    if n > 0 {
      CompactTableOk(table, keep, n - 1);
      var before := CompactTable(table, keep, n - 1).table;
      assert LinkOk(Some(table[n - 1]));
    }
  }

  lemma {:induction false} CompactMeta(f: Frame)
    requires MetaOk(f) && Shaped(f)
    ensures MetaOk(Compact(f)) && Shaped(Compact(f))
  {
    hide LinkOk, RefersOutside, AllKept, CompactTable, Identity, InUse;
    CompactTableOk(f.links.table, InUse(f), |f.links.table|);
  }

  lemma {:induction false} RelinkedOk(t: Widths, c: Cell, link: nat)
    requires CellOk(t, c)
    ensures CellOk(t, c.(link := link))
  {
    hide DisplayWidth;
    forall i | 0 <= i < |c.suffix|
      ensures ContentLength(c.(link := link, suffix := c.suffix[..i], empty := false))
           == ContentLength(c.(suffix := c.suffix[..i], empty := false))
    {
      SuffixLength(c, link, i);
    }
  }

  lemma {:induction false} RelinkedRow(t: Widths, row: seq<Cell>, remap: seq<nat>)
    requires RowGlyphs(t, row)
    ensures RowGlyphs(t, RemapRow(row, remap))
  {
    hide CellOk, Remapped;
    forall x | 0 <= x < |row|
      ensures CellOk(t, RemapRow(row, remap)[x])
    {
      RelinkedOk(t, row[x], Remapped(row[x].link, remap));
    }
  }

  lemma {:induction false} CompactGlyphs(t: Widths, f: Frame)
    requires GridGlyphs(t, f.grid)
    ensures GridGlyphs(t, Compact(f).grid)
  {
    hide RowGlyphs, RefersOutside, AllKept, CompactTable, Identity, InUse, RemapRow;
    var remap := CompactTable(f.links.table, InUse(f), |f.links.table|).remap;
    forall y | 0 <= y < |f.grid|
      ensures RowGlyphs(t, RemapRow(f.grid[y], remap))
    {
      RelinkedRow(t, f.grid[y], remap);
    }
  }

  lemma {:induction false} CompactSize(f: Frame)
    ensures Compact(f).cols == f.cols && Compact(f).rows == f.rows
  {
    hide RefersOutside, AllKept, CompactTable, Identity, InUse, RemapGrid;
  }

  lemma {:induction false} NumberedKeeps(t: Widths, s: Snapshot<Console>, before: nat, n: nat)
    requires ScreenOk(t, s.frame)
    ensures ScreenOk(t, Numbered(s, before, n).frame) && Numbered(s, before, n).echoAck == s.echoAck
  {
    hide TableOk, Compact, GridGlyphs, BlanksNarrow, GridOk;
    CompactMeta(s.frame.state.frame);
    CompactSize(s.frame.state.frame);
    if BlanksNarrow(t) {
      CompactGlyphs(t, s.frame.state.frame);
    }
  }

  /** Interpreting any bytes keeps a snapshot's screen in shape and fit to print, and its echo
      number from falling. */
  lemma {:induction false} InterpretKeeps(t: Widths, fits: Limit, s: Snapshot<Console>, diff: seq<byte>, n: nat)
    requires ScreenOk(t, s.frame)
    ensures var r := Interpret(t, fits, s, diff, n);
      r.Some? ==> ScreenOk(t, r.value.frame) && s.echoAck <= r.value.echoAck
  {
    hide ScreenOk, DecodeHostsFrom, ApplyInstructions, Numbered, Sized;
    var hs := DecodeHosts(diff);
    DecodedAll([], diff);
    if hs.Ok? {
      InstructionsKeep(t, fits, s, hs.value);
      var r := ApplyInstructions(t, fits, s, hs.value);
      if r.Some? {
        NumberedKeeps(t, r.value, s.frame.state.frame.scrolls, n);
      }
    }
  }

  function OnlyBytes(bytes: seq<byte>): HostInstruction { NOTHING.(hoststring := bytes) }

  /** Cutting host bytes into two instructions, anywhere, does not change the screen. */
  lemma {:induction false} BytesMayBeCut(t: Widths, fits: Limit, s: Snapshot<Console>, a: seq<byte>, b: seq<byte>)
    requires a != [] && b != []
    ensures ApplyInstructions(t, fits, s, [OnlyBytes(a), OnlyBytes(b)]) == ApplyInstructions(t, fits, s, [OnlyBytes(a + b)])
  {
    hide Exec, Run;
    FeedConcat(Executing(t), s.frame, a, b);
    var two, one := [OnlyBytes(a), OnlyBytes(b)], [OnlyBytes(a + b)];
    assert two[..1] == [OnlyBytes(a)] && two[..1][..0] == [] && one[..0] == [];
    assert ApplyInstructions(t, fits, s, two[..1]) == ApplyInstruction(t, fits, s, OnlyBytes(a));
    assert ApplyInstructions(t, fits, s, one) == ApplyInstruction(t, fits, s, OnlyBytes(a + b));
  }

  /** Every snapshot that a client can ever hold, whatever was sent, in whatever order. */
  lemma {:induction false} ReplayKeeps(t: Widths, fits: Limit, start: Console, branches: map<nat, Session.Branch>, n: nat)
    requires ScreenOk(t, start)
    ensures var r := Session.Replay(start, branches, HostInterpreter(t, fits), n);
      r.Some? ==> ScreenOk(t, r.value.frame)
    decreases n
  {
    hide ScreenOk, Interpret;
    if n > 0 && n in branches && branches[n].oldNum < n {
      var base := Session.Replay(start, branches, HostInterpreter(t, fits), branches[n].oldNum);
      ReplayKeeps(t, fits, start, branches, branches[n].oldNum);
      if base.Some? {
        InterpretKeeps(t, fits, base.value, branches[n].diff, n);
      }
    }
  }

  function NewConsole(cols: nat, rows: nat): Console {
    Fed(Screen(NewFrame(cols, rows), PLAIN, UNSAVED), [])
  }

  lemma {:induction false} NewConsoleOk(t: Widths, cols: nat, rows: nat)
    requires cols <= 0xFFFF && rows <= 0xFFFF
    ensures ScreenOk(t, NewConsole(cols, rows))
  {
    hide CellOk, BlankGrid;
    var f := NewFrame(cols, rows);
    if BlanksNarrow(t) {
      BlankOk(t, Default);
      BlankGridOk(t, f.rows, f.cols, BLANK);
    }
  }

  /** In every run of client and server the screen shown is in shape and fit to be printed:
      its links, titles, modes and margins, and every glyph if blanks take one column. */
  lemma {:induction false} ShownScreenOk(t: Widths, fits: Limit, cols: nat, rows: nat, steps: seq<Session.Step>)
    requires cols <= 0xFFFF && rows <= 0xFFFF
    requires var sys := Session.Run(NewConsole(cols, rows), steps, HostInterpreter(t, fits));
      Session.Fits(sys) && !sys.client.log.dead
    ensures ScreenOk(t, Session.Run(NewConsole(cols, rows), steps, HostInterpreter(t, fits)).view.displayed)
  {
    hide Session.Run, ScreenOk, Session.Replay, NewConsole;
    var start := NewConsole(cols, rows);
    var sys := Session.Run(start, steps, HostInterpreter(t, fits));
    NewConsoleOk(t, cols, rows);
    Guarantees.ShowsLargest(start, steps, HostInterpreter(t, fits));
    ReplayKeeps(t, fits, start, sys.branches, sys.view.latest);
  }
}
