/** Wide glyphs in the last column, built from host bytes: one that terminals keep there, one that
    they move to the next line, and the terminal of one column, where that makes no difference. */
module Margin {
  import opened Basics
  import opened Lexer
  import opened Sgr
  import opened Cells
  import opened Screen
  import opened Printer
  import opened Reading
  import opened Painting
  import opened Meta
  import opened Repaint
  import opened Wrapping
  import opened Orphan

  predicate WideGlyph(t: Widths, ch: char) { ch as nat >= 0x20 && DisplayWidth(t, ch) == Some(2) && SpaceIsNarrow(t) }

  /** Room for two columns before the cursor. */
  const INSERT_TWO: seq<byte> := CsiBytes([0x32], '@' as byte)

  function WideFirst(wide: char): (row: seq<Cell>)
    ensures |row| == 3
  {
    [Glyph(wide, 2, PLAIN, 0), Continuation(Default), BLANK]
  }

  function WideLast(wide: char): (row: seq<Cell>)
    ensures |row| == 3
  {
    [BLANK, BLANK, Glyph(wide, 2, PLAIN, 0)]
  }

  // ------------------------------------------------------------------- pushed to the margin

  lemma {:induction false} WidePlaced(wide: char)
    ensures Place(EMPTY.frame, wide, 2, PLAIN)
         == EMPTY.frame.(grid := [WideFirst(wide)], cursor := Cursor(2, 0, false))
  {
    assert EMPTY.frame.grid[0] == [BLANK, BLANK, BLANK] && |EMPTY.frame.grid| == 1;
    assert PutRow([BLANK, BLANK, BLANK], 0, 2, Glyph(wide, 2, PLAIN, 0)) == WideFirst(wide);
  }

  lemma {:induction false} TakesWide(t: Widths, wide: char)
    requires WideGlyph(t, wide)
    ensures Takes(t, EMPTY, EncodeChar(wide) + [0x0d], OneRow(WideFirst(wide)))
  {
    hide Takes, Print, Place, EncodeChar, DisplayWidth, NewFrame;
    WidePlaced(wide);
    NewFrameParts();
    var s1 := Print(t, EMPTY, wide);
    TakesChar(t, EMPTY, wide);
    PrintPlaces(t, EMPTY, wide, 2);
    TakesOne(t, s1, [0x0d], Control(0x0d));
    assert Exec(t, s1, Control(0x0d)) == OneRow(WideFirst(wide));
    TakesThen(t, EMPTY, EncodeChar(wide), s1, [0x0d], Exec(t, s1, Control(0x0d)));
  }

  lemma {:induction false} InsertsTwo(wide: char)
    ensures InsertCells(WideFirst(wide), 0, 2, BLANK) == WideLast(wide)
  {}

  lemma {:induction false} TakesInsertion(t: Widths, wide: char)
    ensures Takes(t, OneRow(WideFirst(wide)), INSERT_TWO, OneRow(WideLast(wide)))
  {
    hide Takes, ParseParams, InsertCells, NewFrame, ApplySgr, Settings;
    var s := OneRow(WideFirst(wide));
    ReadsTwo();
    InsertsTwo(wide);
    TakesCsi(t, s, [0x32], '@' as byte);
    assert Erased(PLAIN.bg) == BLANK;
    assert InsertAtCursor(s.frame, 2, BLANK) == OneRow(WideLast(wide)).frame;
    assert ExecCsi(s, [0x32], '@') == OneRow(WideLast(wide));
  }

  lemma {:induction false} WideRows(t: Widths, wide: char)
    requires WideGlyph(t, wide)
    ensures RowPrintable(t, NO_LINKS, WideFirst(wide)) && Tidy(WideFirst(wide)) && Paired(WideFirst(wide))
    ensures RowPrintable(t, NO_LINKS, WideLast(wide)) && !Paired(WideLast(wide))
    ensures Wraps(t, WideLast(wide)) <==> StandaloneWidth(t, wide) == 2
  {
    hide GlyphOk, DisplayWidth, Visible, StandaloneWidth;
    PlainGlyph(t, wide, 2);
    PlainGlyph(t, ' ', 1);
    VisibleAt(WideLast(wide), 2);
    VisibleAt(WideLast(wide), 1);
    assert !PairedAt(WideLast(wide), 2);
  }

  /** Host bytes push a wide glyph into the last column. Whether what the printer writes for that
      screen ever shows it depends on the glyph alone: a terminal keeps one of a supplementary
      plane there, and wraps any other. */
  lemma {:induction false} WideAtMargin(t: Widths, wide: char)
    requires WideGlyph(t, wide)
    ensures var s, next := OneRow(WideFirst(wide)), OneRow(WideLast(wide));
      && Takes(t, EMPTY, EncodeChar(wide) + [0x0d], s)
      && Takes(t, s, INSERT_TWO, next)
      && Displays(s, s.frame) && Printable(t, next.frame) && !WholeGlyphs(next.frame)
      && ((exists s' :: Takes(t, s, Diff(next.frame, s.frame), s') && Shows(s', next.frame)) <==> wide as nat > 0xffff)
  {
    hide Takes, Displays, Shows, Printable, OnLines, Wraps, OneRow, Diff, EncodeChar, WideFirst, WideLast, EndsOk, DisplayWidth, WholeGlyphs;
    var s, next := OneRow(WideFirst(wide)), OneRow(WideLast(wide));
    TakesWide(t, wide);
    TakesInsertion(t, wide);
    WideRows(t, wide);
    OneRowPrintable(t, WideFirst(wide));
    OneRowPrintable(t, WideLast(wide));
    OneRowSizes(t, wide);
    ShowsItself(WideFirst(wide));
    DiffShownExactly(t, s, next.frame, s.frame);
  }

  lemma {:induction false} OneRowSizes(t: Widths, wide: char)
    requires Paired(WideFirst(wide)) && !Paired(WideLast(wide))
    ensures var f, g := OneRow(WideFirst(wide)).frame, OneRow(WideLast(wide)).frame;
      SameSize(g, f) && g.cols == 3 && EndsOk(t, f.grid) && !WholeGlyphs(g)
    ensures forall x :: 0 <= x < 3 ==> WideFirst(wide)[x].link == 0
  {
    hide NewFrame, Paired, StandaloneWidth;
    NewFrameParts();
    assert OneRow(WideFirst(wide)).frame.grid[0] == WideFirst(wide);
    assert OneRow(WideLast(wide)).frame.grid[0] == WideLast(wide);
  }

  // ----------------------------------------------------------------------------- one column

  const DOT := Screen(NewFrame(1, 1), PLAIN, UNSAVED)

  /** The one cell holds the glyph, after so many scrolls. */
  function Filled(wide: char, scrolls: nat): Screen {
    DOT.(frame := DOT.frame.(grid := [[Glyph(wide, 2, PLAIN, 0)]], cursor := Cursor(0, 0, true),
                             target := Target(0, 0, true), scrolls := scrolls))
  }

  lemma {:induction false} DotParts()
    ensures var f := DOT.frame;
      && f.modes == DEFAULT_MODES && f.cols == 1 && f.rows == 1 && f.cursor == Cursor(0, 0, false)
      && f.target == Target(0, 0, true) && f.grid == [[BLANK]]
      && f.margins == Margins(0, 0) && |f.tabs| == 1 && f.links == NO_LINKS && f.scrolls == 0
      && f.effects == Effects(0, None, None, None) && f.switches == NO_SWITCHES
  {
    assert DOT.frame.grid[0] == [BLANK];
  }

  /** The glyph wraps, the screen scrolls, and the cell is the same again. */
  lemma {:induction false} DotFills(t: Widths, s: Screen, wide: char)
    requires WideGlyph(t, wide) && StandaloneWidth(t, wide) == 2
    requires s == DOT.(frame := DOT.frame.(switches := s.frame.switches))
    ensures var r := Filled(wide, 1); Print(t, s, wide) == r.(frame := r.frame.(switches := s.frame.switches))
  {
    hide DisplayWidth, StandaloneWidth, NewFrame;
    DotParts();
    var f := MakeRoom(t, s.frame, wide, BLANK);
    assert Erased(PLAIN.bg) == BLANK;
    assert f == s.frame.(scrolls := 1) by {
      assert [BLANK][0 := BLANK] == [BLANK] && [[BLANK]][0 := [BLANK]] == [[BLANK]];
      assert BlankGrid(1, 1, BLANK)[0] == [BLANK];
      assert BlankGrid(1, 1, BLANK) == [[BLANK]];
    }
    assert PutRow([BLANK], 0, 2, Glyph(wide, 2, PLAIN, 0)) == [Glyph(wide, 2, PLAIN, 0)];
  }

  lemma {:induction false} TakesFilling(t: Widths, wide: char)
    requires WideGlyph(t, wide) && StandaloneWidth(t, wide) == 2
    ensures Takes(t, DOT, EncodeChar(wide), Filled(wide, 1))
  {
    hide Takes, Print, EncodeChar, DisplayWidth, StandaloneWidth, NewFrame;
    DotParts();
    TakesChar(t, DOT, wide);
    DotFills(t, DOT, wide);
  }

  /** What the printer writes for it: the glyph between two addresses, with the cursor hidden. */
  lemma {:induction false} DotDiff(wide: char)
    requires wide as nat >= 0x20
    ensures SameSize(Filled(wide, 1).frame, DOT.frame)
    ensures Diff(Filled(wide, 1).frame, DOT.frame)
         == CursorSwitch(false) + (Cup(0, 0) + (EncodeChar(wide) + (Cup(0, 0) + CursorSwitch(true))))
  {
    hide NewFrame, CursorSwitch, Cup, EncodeChar, DiffCodes, CsiBytes;
    DotParts();
    var next, prev, glyph := Filled(wide, 1).frame, DOT.frame, Glyph(wide, 2, PLAIN, 0);
    var p := Pencil(PLAIN, None, -1, -1);
    assert next.grid[0] == [glyph] && prev.grid[0] == [BLANK];
    DotChanged(glyph);
    CellBytesOf(glyph);
    assert Characters([]) == [];
    assert PaintCell(NO_LINKS, glyph, 0, 0, p).bytes == Cup(0, 0) + EncodeChar(wide);
    DotPaint(glyph, p);
    assert PaintRow(next, prev, 0, p) == PaintFrom(NO_LINKS, [glyph], 0, 0, 1, p);
    assert PaintRows(next, prev, 1, PaintRow(next, prev, 0, p).pencil).bytes == [];
    assert RowChanged(next, prev, 0);
    assert Metadata(next, Some(prev), false) == [];
  }

  lemma {:induction false} DotChanged(glyph: Cell)
    requires glyph.width == 2
    ensures FirstChanged(NO_LINKS, [glyph], NO_LINKS, [BLANK], 0) == 0 == LastChanged(NO_LINKS, [glyph], NO_LINKS, [BLANK], 1)
  {
    assert Visible([glyph])[0];
    assert Changed(NO_LINKS, [glyph], NO_LINKS, [BLANK], 0);
  }

  lemma {:induction false} DotPaint(glyph: Cell, p: Pencil)
    requires glyph.width == 2
    ensures PaintFrom(NO_LINKS, [glyph], 0, 0, 1, p).bytes == PaintCell(NO_LINKS, glyph, 0, 0, p).bytes
    ensures PaintFrom(NO_LINKS, [glyph], 0, 0, 1, p).pencil == PaintCell(NO_LINKS, glyph, 0, 0, p).pencil
  {
    hide PaintCell;
    assert Visible([glyph])[0];
    var a := PaintCell(NO_LINKS, glyph, 0, 0, p);
    PaintNothing(NO_LINKS, [glyph], 0, 1, a.pencil);
    assert a.bytes + [] == a.bytes;
  }

  /** On a terminal of one column and one row the wrapped glyph comes to stand where it was to be:
      there the condition is not needed. */
  lemma {:induction false} OneColumn(t: Widths, wide: char) returns (s': Screen)
    requires WideGlyph(t, wide) && StandaloneWidth(t, wide) == 2
    ensures var next := Filled(wide, 1);
      && Takes(t, DOT, EncodeChar(wide), next)
      && SameSize(next.frame, DOT.frame) && !OnLines(t, next.frame)
      && Takes(t, DOT, Diff(next.frame, DOT.frame), s') && Shows(s', next.frame)
  {
    hide Takes, Print, EncodeChar, DisplayWidth, StandaloneWidth, NewFrame, CursorSwitch, Cup, Diff;
    DotParts();
    TakesFilling(t, wide);
    DotDiff(wide);
    var f := DOT.frame;
    var s1 := WithSwitches(DOT, f.switches.(cursorVisible := false));
    var s3 := Print(t, s1, wide);
    var s4 := s3.(frame := MoveTo(s3.frame, 0, 0));
    s' := WithSwitches(s4, s4.frame.switches.(cursorVisible := true));
    TakesShow(t, DOT, false);
    TakesCup(t, s1, 0, 0);
    assert s1.(frame := MoveTo(s1.frame, 0, 0)) == s1;
    TakesChar(t, s1, wide);
    DotFills(t, s1, wide);
    TakesCup(t, s3, 0, 0);
    TakesShow(t, s4, true);
    TakesThen(t, s3, Cup(0, 0), s4, CursorSwitch(true), s');
    TakesThen(t, s1, EncodeChar(wide), s3, Cup(0, 0) + CursorSwitch(true), s');
    TakesThen(t, s1, Cup(0, 0), s1, EncodeChar(wide) + (Cup(0, 0) + CursorSwitch(true)), s');
    TakesThen(t, DOT, CursorSwitch(false), s1, Cup(0, 0) + (EncodeChar(wide) + (Cup(0, 0) + CursorSwitch(true))), s');
    DotWraps(t, wide);
  }

  lemma {:induction false} DotWraps(t: Widths, wide: char)
    requires StandaloneWidth(t, wide) == 2
    ensures !OnLines(t, Filled(wide, 1).frame)
  {
    hide StandaloneWidth, NewFrame;
    var row := [Glyph(wide, 2, PLAIN, 0)];
    assert Filled(wide, 1).frame.grid[0] == row;
    assert Visible(row)[0];
  }
}
