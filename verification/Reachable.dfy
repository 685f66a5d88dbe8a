/** What every screen built from host bytes satisfies: links, titles, modes and margins that
    the printer can carry to another terminal. */
module Reachable {
  import opened Basics
  import opened Lexer
  import opened Sgr
  import opened Cells
  import opened Screen
  import opened Printer
  import opened Reading
  import opened Meta

  predicate TableOk(l: Links) {
    forall i :: 0 <= i < |l.table| ==> LinkOk(Some(l.table[i]))
  }

  predicate MetaOk(f: Frame) {
    SwitchesOk(f.switches) && EffectsOk(f.effects) && MarginsOk(f.margins, f.rows) && TableOk(f.links)
  }

  /** Then whatever number a cell or the pen holds resolves to a link fit to print. */
  lemma {:induction false} ResolvesOk(l: Links, id: nat)
    requires TableOk(l)
    ensures LinkOk(Resolve(l, id))
  {}

  // ------------------------------------------------------------- what a command carries

  lemma {:induction false} CleanSuffix(s: seq<byte>, n: nat)
    requires Clean(s) && n <= |s|
    ensures Clean(s[n..])
  {
    var r := s[n..];
    forall i | 0 <= i < |r|
      ensures r[i] != BEL && !StringEnd(r, i)
    {
      assert s[n + i] != BEL && !StringEnd(s, n + i);
    }
  }

  lemma {:induction false} OscEndFirst(data: seq<byte>, i: nat, j: nat)
    requires i <= |data| && i <= j < OscEnd(data, i)
    ensures data[j] != BEL && !StringEnd(data, j)
    decreases |data| - i
  {
    if i < j {
      OscEndFirst(data, i + 1, j);
    }
  }

  /** A recognised operating system command carries nothing that would end it early. */
  lemma {:induction false} LexedClean(data: seq<byte>)
    requires data != [] && Lex(data).Item? && Lex(data).cmd.Osc?
    ensures Clean(Lex(data).cmd.payload)
  {
    hide DecodeChar, CsiEnd, ParamEnd, OscEnd;
    if data[0] >= 0x20 {
      CharIsRune(data);
    }
    var end := OscEnd(data, 2);
    var payload := data[2..end];
    forall i | 0 <= i < |payload|
      ensures payload[i] != BEL && !StringEnd(payload, i)
    {
      OscEndFirst(data, 2, i + 2);
    }
  }

  lemma {:induction false} CharIsRune(data: seq<byte>)
    requires data != []
    ensures DecodeChar(data).Item? ==> DecodeChar(data).cmd.Rune?
  {}

  predicate CommandOk(cmd: Command) { cmd.Osc? ==> Clean(cmd.payload) }

  // ---------------------------------------------------------------- what commands keep

  lemma {:induction false} SelectLinkKeeps(l: Links, params: seq<byte>, uri: seq<byte>)
    requires TableOk(l) && (uri != [] ==> LinkOk(Some(Hyperlink(params, uri))))
    ensures TableOk(SelectLink(l, params, uri))
  {
    hide LinkOk;
  }

  lemma {:induction false} OscLinkKeeps(l: Links, value: seq<byte>)
    requires TableOk(l) && Clean(value)
    ensures var k := FieldEnd(value, 0);
      TableOk(SelectLink(l, value[..k], if k < |value| then value[k + 1..] else []))
  {
    hide SelectLink, TableOk, Clean;
    var k := FieldEnd(value, 0);
    if k < |value| {
      assert value[..k] + [SEMICOLON] + value[k + 1..] == value;
    }
    SelectLinkKeeps(l, value[..k], if k < |value| then value[k + 1..] else []);
  }

  lemma {:induction false} OscKeeps(f: Frame, payload: seq<byte>)
    requires MetaOk(f) && Clean(payload)
    ensures MetaOk(ApplyOsc(f, payload))
  {
    hide SelectLink, TableOk, Clean, SwitchesOk, FieldEnd;
    if |payload| >= 2 {
      CleanSuffix(payload, 2);
      OscLinkKeeps(f.links, payload[2..]);
    }
    if |payload| >= 5 {
      CleanSuffix(payload, 5);
    }
  }

  predicate SameBounds(f: Frame, g: Frame) { g.cols == f.cols && g.rows == f.rows }

  /** The same size, links, effects, switches and margins. */
  predicate SameMeta(f: Frame, g: Frame) {
    SameBounds(f, g) && g.links == f.links && g.effects == f.effects && g.switches == f.switches && g.margins == f.margins
  }

  lemma {:induction false} SameMetaKeeps(f: Frame, g: Frame)
    requires SameMeta(f, g) && MetaOk(f)
    ensures MetaOk(g)
  {}

  lemma {:induction false} PrivateModeKeeps(f: Frame, mode: nat, on: bool)
    requires MetaOk(f)
    ensures MetaOk(SetPrivateMode(f, mode, on))
  {
    hide SetPrivateMode, TableOk, EffectsOk, MarginsOk, SwitchesOk;
    PrivateModeSwitches(f, mode, on);
  }

  predicate MouseMode(m: nat) { m != 0 && (ReportingMode(m) || EncodingMode(m)) }

  lemma {:induction false} MouseModeSwitches(f: Frame, mode: nat, on: bool)
    requires SwitchesOk(f.switches) && MouseMode(mode)
    ensures var g := SetPrivateMode(f, mode, on); SwitchesOk(g.switches) && g == f.(switches := g.switches)
  {
    hide MoveTo;
  }

  lemma {:induction false} OtherModeSwitches(f: Frame, mode: nat, on: bool)
    requires SwitchesOk(f.switches) && !MouseMode(mode) && mode != 6
    ensures var g := SetPrivateMode(f, mode, on); SwitchesOk(g.switches) && SameMeta(f, g.(switches := f.switches))
  {
    hide MoveTo;
  }

  lemma {:induction false} OriginModeMeta(f: Frame, on: bool)
    ensures SameMeta(f, SetPrivateMode(f, 6, on))
  {}

  lemma {:induction false} PrivateModeSwitches(f: Frame, mode: nat, on: bool)
    requires SwitchesOk(f.switches)
    ensures var g := SetPrivateMode(f, mode, on);
      SwitchesOk(g.switches) && SameMeta(f, g.(switches := f.switches))
  {
    hide SetPrivateMode, SwitchesOk, MouseMode;
    if mode == 6 {
      OriginModeMeta(f, on);
    } else if MouseMode(mode) {
      MouseModeSwitches(f, mode, on);
    } else {
      OtherModeSwitches(f, mode, on);
    }
  }

  lemma {:induction false} PrivateModesKeep(f: Frame, modes: seq<nat>, on: bool)
    requires MetaOk(f)
    ensures MetaOk(SetPrivateModes(f, modes, on))
    decreases |modes|
  {
    hide MetaOk, SetPrivateMode;
    if modes != [] {
      PrivateModeKeeps(f, modes[0], on);
      PrivateModesKeep(SetPrivateMode(f, modes[0], on), modes[1..], on);
    }
  }

  lemma {:induction false} MarginsKeep(f: Frame, nums: seq<nat>)
    requires MetaOk(f) && Shaped(f)
    ensures MetaOk(SetMargins(f, nums))
  {
    hide TableOk, EffectsOk, SwitchesOk;
  }

  lemma {:induction false} SettingsKeep(f: Frame, final: char, private: bool, nums: seq<nat>)
    requires MetaOk(f) && Shaped(f)
    ensures MetaOk(Settings(f, final, private, nums))
  {
    hide TableOk, EffectsOk, SwitchesOk, SetMargins, SetPrivateModes, Shaped;
    MarginsKeep(f, nums);
    PrivateModesKeep(f, nums, true);
    PrivateModesKeep(f, nums, false);
  }

  lemma {:induction false} MovesKeep(f: Frame, final: char, nums: seq<nat>)
    ensures Moves(f, final, nums).Some? ==> SameMeta(f, Moves(f, final, nums).value)
  {
    hide TabForward, TabBack;
  }

  lemma {:induction false} EraseRowsKeep(f: Frame, y: nat, end: nat, blank: Cell)
    ensures SameMeta(f, EraseRows(f, y, end, blank))
    decreases if y < end then end - y else 0
  {
    hide EraseRow;
    if y < end {
      EraseRowsKeep(EraseSpan(f, y, 0, f.cols, blank), y + 1, end, blank);
    }
  }

  lemma {:induction false} DisplayKeeps(f: Frame, mode: nat, blank: Cell)
    ensures SameMeta(f, EraseDisplay(f, mode, blank))
  {
    hide EraseRow, EraseRows;
    var c := f.cursor;
    EraseRowsKeep(EraseSpan(f, c.y, c.x, f.cols, blank), c.y + 1, f.rows, blank);
    EraseRowsKeep(f, 0, c.y, blank);
  }

  lemma {:induction false} LinesKeep(f: Frame, n: nat, blank: Cell)
    ensures SameMeta(f, InsertLines(f, n, blank)) && SameMeta(f, DeleteLines(f, n, blank))
  {}

  lemma {:induction false} EditsKeep(f: Frame, final: char, nums: seq<nat>, blank: Cell)
    ensures Edits(f, final, nums, blank).Some? ==> SameMeta(f, Edits(f, final, nums, blank).value)
  {
    hide EraseDisplay, InsertLines, DeleteLines, EraseRow, InsertCells, DeleteCells;
    DisplayKeeps(f, First(nums), blank);
    LinesKeep(f, Count(nums, 0), blank);
  }

  lemma {:induction false} CsiKeeps(s: Screen, params: seq<byte>, final: char)
    requires MetaOk(s.frame) && Shaped(s.frame)
    ensures MetaOk(ExecCsi(s, params, final).frame)
  {
    hide MetaOk, Shaped, Moves, Edits, Settings, SameMeta, ParseParams, ApplySgr;
    var nums := ParseParams(params);
    var blank := Erased(s.attr.bg);
    MovesKeep(s.frame, final, nums);
    EditsKeep(s.frame, final, nums, blank);
    SettingsKeep(s.frame, final, Private(params), nums);
    if Moves(s.frame, final, nums).Some? {
      SameMetaKeeps(s.frame, Moves(s.frame, final, nums).value);
    }
    if Edits(s.frame, final, nums, blank).Some? {
      SameMetaKeeps(s.frame, Edits(s.frame, final, nums, blank).value);
    }
  }

  lemma {:induction false} ExtendKeeps(f: Frame, ch: char)
    ensures SameMeta(f, Extend(f, ch))
  {
    hide AppendChar;
  }

  lemma {:induction false} NextLineKeeps(f: Frame, blank: Cell)
    ensures SameMeta(f, NextLine(f, blank))
  {}

  lemma {:induction false} MakeRoomKeeps(t: Widths, f: Frame, ch: char, blank: Cell)
    ensures SameMeta(f, MakeRoom(t, f, ch, blank))
  {
    hide NextLine, StandaloneWidth;
    NextLineKeeps(f.(cursor := f.cursor.(wrap := false)), blank);
    if Inside(f, f.cursor.x, f.cursor.y) {
      NextLineKeeps(RowSet(f, f.cursor.y, f.grid[f.cursor.y][f.cursor.x := blank]), blank);
    }
    NextLineKeeps(f, blank);
  }

  lemma {:induction false} PlaceKeeps(f: Frame, ch: char, w: nat, attr: Attr, n: nat, blank: Cell)
    ensures SameMeta(f, Place(f, ch, w, attr)) && SameMeta(f, InsertAtCursor(f, n, blank))
  {
    hide PutRow, InsertCells;
  }

  lemma {:induction false} PrintKeeps(t: Widths, s: Screen, ch: char)
    ensures SameMeta(s.frame, Print(t, s, ch).frame)
  {
    hide Extend, MakeRoom, Place, InsertAtCursor, DisplayWidth;
    var w := DisplayWidth(t, ch);
    ExtendKeeps(s.frame, ch);
    if w.Some? {
      var blank := Erased(s.attr.bg);
      var f := MakeRoom(t, s.frame, ch, blank);
      MakeRoomKeeps(t, s.frame, ch, blank);
      PlaceKeeps(f, ch, w.value, s.attr, w.value, blank);
      PlaceKeeps(InsertAtCursor(f, w.value, blank), ch, w.value, s.attr, 0, blank);
    }
  }

  lemma {:induction false} ControlKeeps(s: Screen, code: byte)
    requires MetaOk(s.frame)
    ensures MetaOk(ExecControl(s, code).frame)
  {
    hide TableOk, SwitchesOk, Clean;
  }

  lemma {:induction false} EscapeKeeps(s: Screen, kind: byte)
    ensures SameMeta(s.frame, ExecEscape(s, kind).frame)
  {}

  lemma {:induction false} ExecKeeps(t: Widths, s: Screen, cmd: Command)
    requires MetaOk(s.frame) && Shaped(s.frame) && CommandOk(cmd)
    ensures MetaOk(Exec(t, s, cmd).frame)
  {
    hide MetaOk, Shaped, ExecCsi, ExecControl, ExecEscape, Print, ApplyOsc, SameMeta, Clean;
    match cmd
    case Ignored =>
    case Control(code) => ControlKeeps(s, code);
    case Rune(ch) =>
      PrintKeeps(t, s, ch);
      SameMetaKeeps(s.frame, Print(t, s, ch).frame);
    case Escape(kind) =>
      EscapeKeeps(s, kind);
      SameMetaKeeps(s.frame, ExecEscape(s, kind).frame);
    case Csi(params, final) =>
      if final < 0x80 {
        CsiKeeps(s, params, final as char);
      }
    case Osc(payload) => OscKeeps(s.frame, payload);
  }

  /** Whatever bytes a host sends, the screen they build can be printed on another terminal as
      far as its links, titles, modes and margins go. */
  lemma {:induction false} RunKeepsMeta(t: Widths, s: Screen, data: seq<byte>)
    requires MetaOk(s.frame) && Shaped(s.frame)
    ensures MetaOk(Run(Executing(t), s, data).state.frame) && Shaped(Run(Executing(t), s, data).state.frame)
    decreases |data|
  {
    hide Lex, Exec, Shaped, MetaOk, Clean;
    if data != [] && Lex(data).Item? {
      var cmd := Lex(data).cmd;
      if cmd.Osc? {
        LexedClean(data);
      }
      ExecKeeps(t, s, cmd);
      RunKeepsMeta(t, Exec(t, s, cmd), data[Lex(data).len..]);
    }
  }

  // ------------------------------------------------------------------------------- size

  lemma {:induction false} PrivateModesBounds(f: Frame, modes: seq<nat>, on: bool)
    ensures SameBounds(f, SetPrivateModes(f, modes, on))
    decreases |modes|
  {
    if modes != [] {
      PrivateModesBounds(SetPrivateMode(f, modes[0], on), modes[1..], on);
    }
  }

  lemma {:induction false} SettingsBounds(f: Frame, final: char, private: bool, nums: seq<nat>)
    ensures SameBounds(f, Settings(f, final, private, nums))
  {
    hide SetPrivateModes;
    PrivateModesBounds(f, nums, true);
    PrivateModesBounds(f, nums, false);
  }

  lemma {:induction false} CsiBounds(s: Screen, params: seq<byte>, final: char)
    ensures SameBounds(s.frame, ExecCsi(s, params, final).frame)
  {
    hide Moves, Edits, Settings, ParseParams, ApplySgr;
    var nums := ParseParams(params);
    MovesKeep(s.frame, final, nums);
    EditsKeep(s.frame, final, nums, Erased(s.attr.bg));
    SettingsBounds(s.frame, final, Private(params), nums);
  }

  lemma {:induction false} ControlBounds(s: Screen, code: byte)
    ensures SameBounds(s.frame, ExecControl(s, code).frame)
  {
    hide StopAfter;
  }

  lemma {:induction false} ExecBounds(t: Widths, s: Screen, cmd: Command)
    ensures SameBounds(s.frame, Exec(t, s, cmd).frame)
  {
    hide ExecCsi, ExecControl, ExecEscape, Print, SelectLink;
    match cmd
    case Ignored =>
    case Control(code) => ControlBounds(s, code);
    case Rune(ch) => PrintKeeps(t, s, ch);
    case Escape(kind) => EscapeKeeps(s, kind);
    case Csi(params, final) =>
      if final < 0x80 {
        CsiBounds(s, params, final as char);
      }
    case Osc(payload) =>
  }

  /** Host bytes never change the size; only a resize does. */
  lemma {:induction false} RunKeepsSize(t: Widths, s: Screen, data: seq<byte>)
    ensures SameBounds(s.frame, Run(Executing(t), s, data).state.frame)
    decreases |data|
  {
    hide Lex, Exec;
    if data != [] && Lex(data).Item? {
      ExecBounds(t, s, Lex(data).cmd);
      RunKeepsSize(t, Exec(t, s, Lex(data).cmd), data[Lex(data).len..]);
    }
  }
}
