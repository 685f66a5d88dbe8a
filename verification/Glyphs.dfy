/** What every cell built from host bytes satisfies: a glyph as wide as its cell, with colours
    and combining characters that the printer can carry to another terminal. */
module Glyphs {
  import opened Basics
  import opened Lexer
  import opened Sgr
  import opened Cells
  import opened Screen
  import opened Reading

  /** The two blanks of the Unicode table that the interpreter writes on its own. */
  predicate BlanksNarrow(t: Widths) { SpaceIsNarrow(t) && DisplayWidth(t, NBSP) == Some(1) }

  predicate CellOk(t: Widths, c: Cell) { CanonicalAttr(c.attr) && (c.width != 0 ==> GlyphOk(t, c)) }

  predicate RowGlyphs(t: Widths, row: seq<Cell>) { forall x :: 0 <= x < |row| ==> CellOk(t, row[x]) }

  predicate GridGlyphs(t: Widths, grid: seq<seq<Cell>>) { forall y :: 0 <= y < |grid| ==> RowGlyphs(t, grid[y]) }

  /** Cells, pen and saved pen are fit to print. */
  predicate GlyphsOk(t: Widths, s: Screen) {
    GridGlyphs(t, s.frame.grid) && CanonicalAttr(s.attr) && CanonicalAttr(s.saved.attr)
  }

  // ----------------------------------------------------------------------- single cells

  lemma {:induction false} BlankOk(t: Widths, background: Color)
    requires BlanksNarrow(t) && Canonical(background)
    ensures CellOk(t, Erased(background)) && CellOk(t, Continuation(background)) && CellOk(t, BLANK)
  {}

  lemma {:induction false} GlyphIsOk(t: Widths, ch: char, w: nat, attr: Attr, link: nat)
    requires ch as nat >= 0x20 && DisplayWidth(t, ch) == Some(w) && w > 0 && CanonicalAttr(attr)
    ensures w <= 2 && CellOk(t, Glyph(ch, w, attr, link))
  {}

  lemma {:induction false} FallbackOk(t: Widths, c: Cell, ch: char)
    requires BlanksNarrow(t) && CellOk(t, c) && ch as nat >= 0x20 && DisplayWidth(t, ch) == Some(0)
    ensures CellOk(t, StartFallback(c, ch))
  {
    hide DisplayWidth;
    var d := StartFallback(c, ch);
    assert d.suffix[..0] == [];
    assert ContentLength(d.(suffix := [], empty := false)) <= 4;
  }

  lemma {:induction false} AppendOk(t: Widths, c: Cell, ch: char)
    requires CellOk(t, c) && !c.empty && ch as nat >= 0x20 && DisplayWidth(t, ch) == Some(0)
    ensures CellOk(t, AppendChar(c, ch))
  {
    hide DisplayWidth, ContentLength;
    var d := AppendChar(c, ch);
    if c.width != 0 && ContentLength(c) < MAX_GRAPHEME_BYTES {
      forall i | 0 <= i < |d.suffix|
        ensures ContentLength(d.(suffix := d.suffix[..i], empty := false)) < MAX_GRAPHEME_BYTES
        ensures d.suffix[i] as nat >= 0x20 && DisplayWidth(t, d.suffix[i]) == Some(0)
      {
        assert d.suffix[..i] == c.suffix[..i];
        assert d.(suffix := d.suffix[..i], empty := false) == c.(suffix := c.suffix[..i], empty := false);
        if i == |c.suffix| {
          assert c.suffix[..i] == c.suffix;
          assert c.(suffix := c.suffix, empty := false) == c;
        }
      }
    }
  }

  // ------------------------------------------------------------------------------- rows

  lemma {:induction false} SetOk(t: Widths, row: seq<Cell>, x: nat, c: Cell)
    requires RowGlyphs(t, row) && x < |row| && CellOk(t, c)
    ensures RowGlyphs(t, row[x := c])
  {
    hide CellOk;
  }

  lemma {:induction false} BackgroundOk(t: Widths, row: seq<Cell>, x: nat)
    requires RowGlyphs(t, row) && x < |row|
    ensures Canonical(row[x].attr.bg)
  {
    assert CellOk(t, row[x]);
  }

  lemma {:induction false} ClearOwnerOk(t: Widths, row: seq<Cell>, x: nat, background: Color)
    requires BlanksNarrow(t) && RowGlyphs(t, row) && x < |row| && Canonical(background)
    ensures RowGlyphs(t, ClearOwner(row, x, background)) && |ClearOwner(row, x, background)| == |row|
  {
    hide RowGlyphs, BlanksNarrow, Canonical, CellOk;
    BlankOk(t, background);
    if x > 0 {
      SetOk(t, row, x - 1, Erased(background));
    }
  }

  lemma {:induction false} UncoverOk(t: Widths, row: seq<Cell>, x: nat, w: nat)
    requires BlanksNarrow(t) && RowGlyphs(t, row)
    ensures RowGlyphs(t, UncoverRight(row, x, w)) && |UncoverRight(row, x, w)| == |row|
  {
    hide RowGlyphs, BlanksNarrow, Canonical, CellOk;
    if x + 2 < |row| {
      BackgroundOk(t, row, x + 2);
      BlankOk(t, row[x + 2].attr.bg);
      SetOk(t, row, x + 2, Erased(row[x + 2].attr.bg));
    }
  }

  lemma {:induction false} CoverOk(t: Widths, row: seq<Cell>, x: nat, w: nat, oldWidth: nat, background: Color)
    requires BlanksNarrow(t) && RowGlyphs(t, row) && Canonical(background)
    ensures RowGlyphs(t, Cover(row, x, w, oldWidth, background))
  {
    hide RowGlyphs, BlanksNarrow, Canonical, CellOk;
    if x + 1 < |row| {
      BlankOk(t, background);
      BackgroundOk(t, row, x + 1);
      BlankOk(t, row[x + 1].attr.bg);
      SetOk(t, row, x + 1, Continuation(background));
      SetOk(t, row, x + 1, Erased(row[x + 1].attr.bg));
    }
  }

  lemma {:induction false} PutOk(t: Widths, row: seq<Cell>, x: nat, w: nat, glyph: Cell)
    requires BlanksNarrow(t) && RowGlyphs(t, row) && x < |row| && CellOk(t, glyph)
    ensures RowGlyphs(t, PutRow(row, x, w, glyph))
  {
    assert Canonical(glyph.attr.bg);
    hide RowGlyphs, BlanksNarrow, Canonical, CellOk, ClearOwner, UncoverRight, Cover;
    ClearOwnerOk(t, row, x, glyph.attr.bg);
    UncoverOk(t, ClearOwner(row, x, glyph.attr.bg), x, w);
    var r := UncoverRight(ClearOwner(row, x, glyph.attr.bg), x, w);
    SetOk(t, r, x, glyph);
    CoverOk(t, r[x := glyph], x, w, r[x].width, glyph.attr.bg);
  }

  lemma {:induction false} BlanksOk(t: Widths, n: nat, blank: Cell)
    requires CellOk(t, blank)
    ensures RowGlyphs(t, Blanks(n, blank))
  {
    hide CellOk;
  }

  lemma {:induction false} ShiftsOk(t: Widths, row: seq<Cell>, x: nat, n: nat, blank: Cell)
    requires RowGlyphs(t, row) && CellOk(t, blank)
    ensures RowGlyphs(t, InsertCells(row, x, n, blank)) && RowGlyphs(t, DeleteCells(row, x, n, blank))
  {
    hide CellOk;
  }

  lemma {:induction false} EraseOk(t: Widths, row: seq<Cell>, start: nat, end: nat, blank: Cell)
    requires RowGlyphs(t, row) && CellOk(t, blank)
    ensures RowGlyphs(t, EraseRow(row, start, end, blank))
  {
    hide CellOk;
  }

  // ------------------------------------------------------------------------------ grids

  lemma {:induction false} SetRowOk(t: Widths, grid: seq<seq<Cell>>, y: nat, row: seq<Cell>)
    requires GridGlyphs(t, grid) && y < |grid| && RowGlyphs(t, row)
    ensures GridGlyphs(t, grid[y := row])
  {
    hide RowGlyphs;
  }

  lemma {:induction false} BlankGridOk(t: Widths, rows: nat, cols: nat, blank: Cell)
    requires CellOk(t, blank)
    ensures GridGlyphs(t, BlankGrid(rows, cols, blank))
  {
    hide CellOk, RowGlyphs;
    BlanksOk(t, cols, blank);
  }

  lemma {:induction false} RowsUpOk(t: Widths, f: Frame, top: nat, bottom: nat, lines: nat, blank: Cell)
    requires GridGlyphs(t, f.grid) && CellOk(t, blank)
    ensures GridGlyphs(t, RowsUp(f, top, bottom, lines, blank).grid)
  {
    hide CellOk, RowGlyphs, BlankGrid;
    if lines > 0 && top <= bottom {
      BlankGridOk(t, Least(lines, bottom - top + 1), f.cols, blank);
    }
  }

  lemma {:induction false} RowsDownOk(t: Widths, f: Frame, top: nat, bottom: nat, lines: nat, blank: Cell)
    requires GridGlyphs(t, f.grid) && CellOk(t, blank)
    ensures GridGlyphs(t, RowsDown(f, top, bottom, lines, blank).grid)
  {
    hide CellOk, RowGlyphs, BlankGrid;
    if lines > 0 && top <= bottom {
      BlankGridOk(t, Least(lines, bottom - top + 1), f.cols, blank);
    }
  }

  lemma {:induction false} NextLineOk(t: Widths, f: Frame, blank: Cell)
    requires GridGlyphs(t, f.grid) && CellOk(t, blank)
    ensures GridGlyphs(t, NextLine(f, blank).grid) && GridGlyphs(t, IndexDown(f, blank).grid)
    ensures GridGlyphs(t, ReverseIndex(f, blank).grid)
  {
    hide CellOk, GridGlyphs, RowsUp, RowsDown;
    var g := f.(scrolls := WrapInc(f.scrolls));
    RowsUpOk(t, g, f.margins.top, f.margins.bottom, 1, blank);
    RowsDownOk(t, g, f.margins.top, f.margins.bottom, 1, blank);
  }

  lemma {:induction false} EraseSpanOk(t: Widths, f: Frame, y: nat, start: nat, end: nat, blank: Cell)
    requires GridGlyphs(t, f.grid) && CellOk(t, blank)
    ensures GridGlyphs(t, EraseSpan(f, y, start, end, blank).grid)
  {
    hide CellOk, RowGlyphs, EraseRow;
    if y < |f.grid| {
      EraseOk(t, f.grid[y], start, end, blank);
      SetRowOk(t, f.grid, y, EraseRow(f.grid[y], start, end, blank));
    }
  }

  lemma {:induction false} EraseRowsOk(t: Widths, f: Frame, y: nat, end: nat, blank: Cell)
    requires GridGlyphs(t, f.grid) && CellOk(t, blank)
    ensures GridGlyphs(t, EraseRows(f, y, end, blank).grid)
    decreases if y < end then end - y else 0
  {
    hide CellOk, GridGlyphs, EraseSpan;
    if y < end {
      EraseSpanOk(t, f, y, 0, f.cols, blank);
      EraseRowsOk(t, EraseSpan(f, y, 0, f.cols, blank), y + 1, end, blank);
    }
  }

  lemma {:induction false} EraseDisplayOk(t: Widths, f: Frame, mode: nat, blank: Cell)
    requires GridGlyphs(t, f.grid) && CellOk(t, blank)
    ensures GridGlyphs(t, EraseDisplay(f, mode, blank).grid)
  {
    hide CellOk, GridGlyphs, EraseSpan, EraseRows, BlankGrid;
    var c := f.cursor;
    BlankGridOk(t, f.rows, f.cols, blank);
    EraseSpanOk(t, f, c.y, c.x, f.cols, blank);
    EraseRowsOk(t, EraseSpan(f, c.y, c.x, f.cols, blank), c.y + 1, f.rows, blank);
    EraseRowsOk(t, f, 0, c.y, blank);
    EraseSpanOk(t, EraseRows(f, 0, c.y, blank), c.y, 0, Least(c.x, SatSub(f.cols, 1)) + 1, blank);
  }

  lemma {:induction false} EraseLineOk(t: Widths, f: Frame, mode: nat, blank: Cell)
    requires GridGlyphs(t, f.grid) && CellOk(t, blank)
    ensures GridGlyphs(t, EraseLine(f, mode, blank).grid)
  {
    hide CellOk, GridGlyphs, EraseSpan;
    var c := f.cursor;
    EraseSpanOk(t, f, c.y, c.x, f.cols, blank);
    EraseSpanOk(t, f, c.y, 0, c.x + 1, blank);
    EraseSpanOk(t, f, c.y, 0, f.cols, blank);
  }

  lemma {:induction false} AtCursorOk(t: Widths, f: Frame, n: nat, blank: Cell)
    requires GridGlyphs(t, f.grid) && CellOk(t, blank)
    ensures GridGlyphs(t, InsertAtCursor(f, n, blank).grid) && GridGlyphs(t, DeleteAtCursor(f, n, blank).grid)
  {
    hide CellOk, RowGlyphs, InsertCells, DeleteCells;
    var c := f.cursor;
    if c.y < |f.grid| {
      ShiftsOk(t, f.grid[c.y], c.x, n, blank);
      SetRowOk(t, f.grid, c.y, InsertCells(f.grid[c.y], c.x, n, blank));
      SetRowOk(t, f.grid, c.y, DeleteCells(f.grid[c.y], c.x, n, blank));
    }
  }

  lemma {:induction false} LinesOk(t: Widths, f: Frame, n: nat, blank: Cell)
    requires GridGlyphs(t, f.grid) && CellOk(t, blank)
    ensures GridGlyphs(t, InsertLines(f, n, blank).grid) && GridGlyphs(t, DeleteLines(f, n, blank).grid)
  {
    hide CellOk, GridGlyphs, RowsUp, RowsDown;
    var g := f.(scrolls := WrapInc(f.scrolls));
    RowsUpOk(t, g, f.cursor.y, f.margins.bottom, n, blank);
    RowsDownOk(t, g, f.cursor.y, f.margins.bottom, n, blank);
  }

  lemma {:induction false} EditsOk(t: Widths, f: Frame, final: char, nums: seq<nat>, blank: Cell)
    requires GridGlyphs(t, f.grid) && CellOk(t, blank)
    ensures Edits(f, final, nums, blank).Some? ==> GridGlyphs(t, Edits(f, final, nums, blank).value.grid)
  {
    hide CellOk, GridGlyphs, EraseDisplay, EraseLine, EraseSpan, InsertAtCursor, DeleteAtCursor, InsertLines, DeleteLines;
    var n := Count(nums, 0);
    EraseDisplayOk(t, f, First(nums), blank);
    EraseLineOk(t, f, First(nums), blank);
    EraseSpanOk(t, f, f.cursor.y, f.cursor.x, f.cursor.x + n, blank);
    AtCursorOk(t, f, n, blank);
    LinesOk(t, f, n, blank);
  }

  // -------------------------------------------------------------------------------- pen

  predicate NumbersOk(nums: seq<nat>) { forall i :: 0 <= i < |nums| ==> nums[i] < U32_SIZE }

  lemma {:induction false} FieldsOk(s: seq<byte>)
    ensures NumbersOk(ParseFields(s))
    decreases |s|
  {
    hide ParseNumber;
    var k := FieldEnd(s, 0);
    NumberOk(s);
    NumberOk(s[..k]);
    if k < |s| {
      FieldsOk(s[k + 1..]);
    }
  }

  lemma {:induction false} NumberOk(s: seq<byte>)
    ensures ParseNumber(s) < U32_SIZE
  {}

  lemma {:induction false} SelectOk(a: Attr, nums: seq<nat>)
    requires CanonicalAttr(a) && NumbersOk(nums) && nums != []
    ensures CanonicalAttr(Select(a, nums).0)
  {
    hide Simple, CanonicalAttr, Extended, NumbersOk;
    ExtendedOk(a, true, nums);
    ExtendedOk(a, false, nums);
  }

  lemma {:induction false} WithColorOk(a: Attr, foreground: bool, c: Color)
    requires CanonicalAttr(a) && Canonical(c)
    ensures CanonicalAttr(WithColor(a, foreground, c))
  {
    hide Canonical;
  }

  lemma {:induction false} ExtendedOk(a: Attr, foreground: bool, nums: seq<nat>)
    requires CanonicalAttr(a) && NumbersOk(nums) && nums != []
    ensures CanonicalAttr(Extended(a, foreground, nums).0)
  {
    hide CanonicalAttr, WithColor, Byte;
    if |nums| > 2 {
      WithColorOk(a, foreground, Index(nums[2]));
    }
    if |nums| > 4 {
      TripleOk(nums[2], nums[3], nums[4]);
      WithColorOk(a, foreground, Rgb(Byte(nums[2]) * 0x1_0000 + Byte(nums[3]) * 0x100 + Byte(nums[4])));
    }
  }

  lemma {:induction false} TripleOk(red: nat, green: nat, blue: nat)
    ensures Byte(red) * 0x1_0000 + Byte(green) * 0x100 + Byte(blue) < 0x100_0000
  {}

  lemma {:induction false} SelectAllOk(a: Attr, nums: seq<nat>)
    requires CanonicalAttr(a) && NumbersOk(nums)
    ensures CanonicalAttr(SelectAll(a, nums))
    decreases |nums|
  {
    hide CanonicalAttr, Select;
    if nums != [] {
      SelectOk(a, nums);
      SelectAllOk(Select(a, nums).0, nums[Select(a, nums).1..]);
    }
  }

  lemma {:induction false} PenOk(a: Attr, params: seq<byte>)
    requires CanonicalAttr(a)
    ensures CanonicalAttr(ApplySgr(a, ParseParams(params)))
  {
    hide ParseFields, SelectAll;
    FieldsOk(if Private(params) then params[1..] else params);
    SelectAllOk(a, ParseParams(params));
  }

  // --------------------------------------------------------------------------- commands

  lemma {:induction false} PrivateModesGrid(f: Frame, modes: seq<nat>, on: bool)
    ensures SetPrivateModes(f, modes, on).grid == f.grid
    decreases |modes|
  {
    if modes != [] {
      PrivateModesGrid(SetPrivateMode(f, modes[0], on), modes[1..], on);
    }
  }

  lemma {:induction false} SettingsGrid(f: Frame, final: char, private: bool, nums: seq<nat>)
    ensures Settings(f, final, private, nums).grid == f.grid
  {
    hide SetPrivateModes;
    PrivateModesGrid(f, nums, true);
    PrivateModesGrid(f, nums, false);
  }

  lemma {:induction false} MovesGrid(f: Frame, final: char, nums: seq<nat>)
    ensures Moves(f, final, nums).Some? ==> Moves(f, final, nums).value.grid == f.grid
  {
    hide TabForward, TabBack;
  }

  lemma {:induction false} CsiGlyphs(t: Widths, s: Screen, params: seq<byte>, final: char)
    requires BlanksNarrow(t) && GlyphsOk(t, s)
    ensures GlyphsOk(t, ExecCsi(s, params, final))
  {
    assert Canonical(s.attr.bg);
    hide GridGlyphs, CellOk, CanonicalAttr, Canonical, BlanksNarrow, Moves, Edits, Settings, ParseParams, ApplySgr;
    var nums, blank := ParseParams(params), Erased(s.attr.bg);
    BlankOk(t, s.attr.bg);
    PenOk(s.attr, params);
    MovesGrid(s.frame, final, nums);
    EditsOk(t, s.frame, final, nums, blank);
    SettingsGrid(s.frame, final, Private(params), nums);
  }

  lemma {:induction false} RestoreGrid(f: Frame, saved: Saved)
    ensures Restore(f, saved).grid == f.grid
  {}

  lemma {:induction false} EscapeGrid(s: Screen, kind: byte)
    ensures var r := ExecEscape(s, kind);
      var blank := Erased(s.attr.bg);
      && (r.frame.grid == s.frame.grid || r.frame == IndexDown(s.frame, blank) || r.frame == ReverseIndex(s.frame, blank)
          || r.frame == IndexDown(s.frame.(cursor := s.frame.cursor.(x := 0)), blank))
      && (r.attr == s.attr || r.attr == s.saved.attr) && (r.saved.attr == s.saved.attr || r.saved.attr == s.attr)
  {
    hide IndexDown, ReverseIndex, Restore, Erased;
    RestoreGrid(s.frame, s.saved);
  }

  lemma {:induction false} EscapeGlyphs(t: Widths, s: Screen, kind: byte)
    requires BlanksNarrow(t) && GlyphsOk(t, s)
    ensures GlyphsOk(t, ExecEscape(s, kind))
  {
    assert Canonical(s.attr.bg);
    hide GridGlyphs, CellOk, CanonicalAttr, Canonical, BlanksNarrow, IndexDown, ReverseIndex, NextLine, ExecEscape, Erased;
    EscapeGrid(s, kind);
    BlankOk(t, s.attr.bg);
    NextLineOk(t, s.frame, Erased(s.attr.bg));
    NextLineOk(t, s.frame.(cursor := s.frame.cursor.(x := 0)), Erased(s.attr.bg));
  }

  lemma {:induction false} ControlGlyphs(t: Widths, s: Screen, code: byte)
    requires BlanksNarrow(t) && GlyphsOk(t, s)
    ensures GlyphsOk(t, ExecControl(s, code))
  {
    assert Canonical(s.attr.bg);
    hide GridGlyphs, CellOk, CanonicalAttr, Canonical, BlanksNarrow, IndexDown, ReverseIndex, NextLine, StopAfter;
    BlankOk(t, s.attr.bg);
    NextLineOk(t, s.frame, Erased(s.attr.bg));
  }

  // --------------------------------------------------------------------------- printing

  lemma {:induction false} ExtendGlyphs(t: Widths, f: Frame, ch: char)
    requires BlanksNarrow(t) && GridGlyphs(t, f.grid) && ch as nat >= 0x20 && DisplayWidth(t, ch) == Some(0)
    ensures GridGlyphs(t, Extend(f, ch).grid)
  {
    hide CellOk, DisplayWidth, StartFallback, AppendChar;
    var p := f.target;
    if p.valid && Inside(f, p.x, p.y) {
      var row := f.grid[p.y];
      assert RowGlyphs(t, row) && CellOk(t, row[p.x]);
      var c := if row[p.x].empty then StartFallback(row[p.x], ch) else AppendChar(row[p.x], ch);
      if row[p.x].empty {
        FallbackOk(t, row[p.x], ch);
      } else {
        AppendOk(t, row[p.x], ch);
      }
      SetOk(t, row, p.x, c);
      SetRowOk(t, f.grid, p.y, row[p.x := c]);
    }
  }

  lemma {:induction false} MakeRoomGlyphs(t: Widths, f: Frame, ch: char, blank: Cell)
    requires GridGlyphs(t, f.grid) && CellOk(t, blank)
    ensures GridGlyphs(t, MakeRoom(t, f, ch, blank).grid)
  {
    hide CellOk, RowGlyphs, NextLine, StandaloneWidth, IndexDown, ReverseIndex;
    var c := f.cursor;
    NextLineOk(t, f.(cursor := c.(wrap := false)), blank);
    NextLineOk(t, f, blank);
    if Inside(f, c.x, c.y) {
      SetOk(t, f.grid[c.y], c.x, blank);
      SetRowOk(t, f.grid, c.y, f.grid[c.y][c.x := blank]);
      NextLineOk(t, RowSet(f, c.y, f.grid[c.y][c.x := blank]), blank);
    }
  }

  lemma {:induction false} PlaceGlyphs(t: Widths, f: Frame, ch: char, w: nat, attr: Attr)
    requires BlanksNarrow(t) && GridGlyphs(t, f.grid) && ch as nat >= 0x20 && DisplayWidth(t, ch) == Some(w) && w > 0
    requires CanonicalAttr(attr)
    ensures GridGlyphs(t, Place(f, ch, w, attr).grid)
  {
    hide CellOk, RowGlyphs, PutRow, DisplayWidth, CanonicalAttr, BlanksNarrow;
    var c := f.cursor;
    if Inside(f, c.x, c.y) {
      var glyph := Glyph(ch, w, attr, f.links.active);
      GlyphIsOk(t, ch, w, attr, f.links.active);
      PutOk(t, f.grid[c.y], c.x, w, glyph);
      SetRowOk(t, f.grid, c.y, PutRow(f.grid[c.y], c.x, w, glyph));
    }
  }

  lemma {:induction false} PrintGlyphs(t: Widths, s: Screen, ch: char)
    requires BlanksNarrow(t) && GlyphsOk(t, s) && ch as nat >= 0x20
    ensures GlyphsOk(t, Print(t, s, ch))
  {
    assert Canonical(s.attr.bg);
    hide GridGlyphs, CellOk, CanonicalAttr, Canonical, BlanksNarrow, DisplayWidth, Extend, MakeRoom, InsertAtCursor, Place;
    var blank := Erased(s.attr.bg);
    BlankOk(t, s.attr.bg);
    var w := DisplayWidth(t, ch);
    if w == Some(0) {
      ExtendGlyphs(t, s.frame, ch);
    } else if w.Some? {
      var f := MakeRoom(t, s.frame, ch, blank);
      MakeRoomGlyphs(t, s.frame, ch, blank);
      AtCursorOk(t, f, w.value, blank);
      PlaceGlyphs(t, f, ch, w.value, s.attr);
      PlaceGlyphs(t, InsertAtCursor(f, w.value, blank), ch, w.value, s.attr);
    }
  }

  // ------------------------------------------------------------------------ whole strings

  /** A recognised character is no control character. */
  lemma {:induction false} LexedPrints(data: seq<byte>)
    requires data != [] && Lex(data).Item? && Lex(data).cmd.Rune?
    ensures Lex(data).cmd.ch as nat >= 0x20
  {
    hide CsiEnd, ParamEnd, OscEnd, CodePoint;
  }

  lemma {:induction false} ExecGlyphs(t: Widths, s: Screen, cmd: Command)
    requires BlanksNarrow(t) && GlyphsOk(t, s) && (cmd.Rune? ==> cmd.ch as nat >= 0x20)
    ensures GlyphsOk(t, Exec(t, s, cmd))
  {
    hide GridGlyphs, CanonicalAttr, BlanksNarrow, ExecCsi, ExecControl, ExecEscape, Print, SelectLink;
    match cmd
    case Ignored =>
    case Control(code) => ControlGlyphs(t, s, code);
    case Rune(ch) => PrintGlyphs(t, s, ch);
    case Escape(kind) => EscapeGlyphs(t, s, kind);
    case Csi(params, final) =>
      if final < 0x80 {
        CsiGlyphs(t, s, params, final as char);
      }
    case Osc(payload) => assert ApplyOsc(s.frame, payload).grid == s.frame.grid;
  }

  /** Whatever bytes a host sends, every glyph of the screen they build can be printed on
      another terminal. */
  lemma {:induction false} RunKeepsGlyphs(t: Widths, s: Screen, data: seq<byte>)
    requires BlanksNarrow(t) && GlyphsOk(t, s)
    ensures GlyphsOk(t, Run(Executing(t), s, data).state)
    decreases |data|
  {
    hide Lex, Exec, GlyphsOk, BlanksNarrow;
    if data != [] && Lex(data).Item? {
      var cmd := Lex(data).cmd;
      if cmd.Rune? {
        LexedPrints(data);
      }
      ExecGlyphs(t, s, cmd);
      RunKeepsGlyphs(t, Exec(t, s, cmd), data[Lex(data).len..]);
    }
  }
}
