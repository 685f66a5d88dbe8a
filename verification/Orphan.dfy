/** A column without a glyph, built from host bytes: deleting a narrow glyph and half of the wide
    one after it leaves a bare continuation, and the terminal keeps what it showed there. */
module Orphan {
  import opened Basics
  import opened Lexer
  import opened Sgr
  import opened Cells
  import opened Screen
  import opened Printer
  import opened Reading
  import opened Painting
  import opened Meta
  import opened Glass
  import opened Repaint

  const EMPTY := Screen(NewFrame(3, 1), PLAIN, UNSAVED)

  /** Deletes two columns at the cursor. */
  const DELETE_TWO: seq<byte> := CsiBytes([0x32], 'P' as byte)

  /** One row of three columns with the cursor at its start. */
  function OneRow(row: seq<Cell>): Screen
    requires |row| == 3
  {
    EMPTY.(frame := EMPTY.frame.(grid := [row], cursor := Cursor(0, 0, false), target := Target(0, 0, true)))
  }

  function NarrowThenWide(narrow: char, wide: char): (row: seq<Cell>)
    ensures |row| == 3
  {
    [Glyph(narrow, 1, PLAIN, 0), Glyph(wide, 2, PLAIN, 0), Continuation(Default)]
  }

  const ORPHANED: seq<Cell> := [Continuation(Default), BLANK, BLANK]

  /** What the terminal shows instead. */
  function Stale(narrow: char): (row: seq<Cell>)
    ensures |row| == 3
  {
    [Glyph(narrow, 1, PLAIN, 0), BLANK, BLANK]
  }

  predicate NarrowAndWide(t: Widths, narrow: char, wide: char) {
    && narrow as nat >= 0x20 && DisplayWidth(t, narrow) == Some(1)
    && wide as nat >= 0x20 && DisplayWidth(t, wide) == Some(2)
    && SpaceIsNarrow(t)
  }

  lemma {:induction false} FirstPlaced(narrow: char)
    ensures var f := Place(EMPTY.frame, narrow, 1, PLAIN);
      f == EMPTY.frame.(grid := [[Glyph(narrow, 1, PLAIN, 0), BLANK, BLANK]], cursor := Cursor(1, 0, false))
  {
    assert EMPTY.frame.grid[0] == [BLANK, BLANK, BLANK] && |EMPTY.frame.grid| == 1;
    assert PutRow([BLANK, BLANK, BLANK], 0, 1, Glyph(narrow, 1, PLAIN, 0)) == [Glyph(narrow, 1, PLAIN, 0), BLANK, BLANK];
  }

  lemma {:induction false} SecondPlaced(narrow: char, wide: char)
    ensures var f := EMPTY.frame.(grid := [[Glyph(narrow, 1, PLAIN, 0), BLANK, BLANK]], cursor := Cursor(1, 0, false));
      Place(f, wide, 2, PLAIN)
        == f.(grid := [NarrowThenWide(narrow, wide)], target := Target(1, 0, true), cursor := Cursor(2, 0, true))
  {
    assert PutRow([Glyph(narrow, 1, PLAIN, 0), BLANK, BLANK], 1, 2, Glyph(wide, 2, PLAIN, 0)) == NarrowThenWide(narrow, wide);
  }

  /** A blank terminal that takes the two characters and a carriage return. */
  lemma {:induction false} TakesRowText(t: Widths, narrow: char, wide: char)
    requires NarrowAndWide(t, narrow, wide)
    ensures Takes(t, EMPTY, EncodeChar(narrow) + EncodeChar(wide) + [0x0d], OneRow(NarrowThenWide(narrow, wide)))
  {
    hide Takes, Print, Place, EncodeChar, DisplayWidth, NewFrame;
    FirstPlaced(narrow);
    SecondPlaced(narrow, wide);
    assert EMPTY.frame.modes == DEFAULT_MODES && EMPTY.frame.cols == 3 && EMPTY.frame.cursor == Cursor(0, 0, false) by { NewFrameParts(); }
    var s1 := Print(t, EMPTY, narrow);
    TakesChar(t, EMPTY, narrow);
    PrintPlaces(t, EMPTY, narrow, 1);
    var s2 := Print(t, s1, wide);
    TakesChar(t, s1, wide);
    PrintPlaces(t, s1, wide, 2);
    TakesThen(t, EMPTY, EncodeChar(narrow), s1, EncodeChar(wide), s2);
    TakesOne(t, s2, [0x0d], Control(0x0d));
    NewFrameParts();
    assert Exec(t, s2, Control(0x0d)) == OneRow(NarrowThenWide(narrow, wide));
    TakesThen(t, EMPTY, EncodeChar(narrow) + EncodeChar(wide), s2, [0x0d], Exec(t, s2, Control(0x0d)));
  }

  lemma {:induction false} NewFrameParts()
    ensures var f := EMPTY.frame;
      && f.modes == DEFAULT_MODES && f.cols == 3 && f.rows == 1 && f.cursor == Cursor(0, 0, false)
      && f.margins == Margins(0, 0) && |f.tabs| == 3 && f.links == Links([], 0)
      && f.effects == Effects(0, None, None, None) && f.switches == NO_SWITCHES.(cursorVisible := true)
  {}

  lemma {:induction false} DeletesTwo(narrow: char, wide: char)
    ensures ParseParams([0x32]) == [2]
    ensures DeleteCells(NarrowThenWide(narrow, wide), 0, 2, BLANK) == ORPHANED
  {
    assert Joined([2]) == [0x32];
    ParamsRoundTrip([2]);
  }

  lemma {:induction false} TakesDeletion(t: Widths, narrow: char, wide: char)
    ensures Takes(t, OneRow(NarrowThenWide(narrow, wide)), DELETE_TWO, OneRow(ORPHANED))
  {
    hide Takes, ParseParams, DeleteCells, NewFrame, ApplySgr, Settings;
    var s := OneRow(NarrowThenWide(narrow, wide));
    DeletesTwo(narrow, wide);
    TakesCsi(t, s, [0x32], 'P' as byte);
    assert Erased(PLAIN.bg) == BLANK;
    assert DeleteAtCursor(s.frame, 2, BLANK) == OneRow(ORPHANED).frame;
    assert ExecCsi(s, [0x32], 'P') == OneRow(ORPHANED);
  }

  // -------------------------------------------------------------- what is printed for it

  lemma {:induction false} VisibleHere(narrow: char, wide: char)
    ensures Visible(ORPHANED) == [false, true, true]
    ensures Visible(Stale(narrow)) == [true, true, true]
    ensures Visible(NarrowThenWide(narrow, wide)) == [true, true, false]
  {
    var a, b, c := ORPHANED, Stale(narrow), NarrowThenWide(narrow, wide);
    assert VisibleFrom(a, 3) == [] && VisibleFrom(b, 3) == [] && VisibleFrom(c, 3) == [];
    assert VisibleFrom(a, 2) == [true] && VisibleFrom(b, 2) == [true];
    assert VisibleFrom(a, 1) == [true, true] && VisibleFrom(b, 1) == [true, true] && VisibleFrom(c, 1) == [true, false];
  }

  const NO_LINKS := Links([], 0)

  /** The printer sees the same change either way: the last two columns. */
  lemma {:induction false} SameSpan(narrow: char, wide: char)
    ensures var o := NarrowThenWide(narrow, wide);
      && FirstChanged(NO_LINKS, ORPHANED, NO_LINKS, o, 0) == 1 == FirstChanged(NO_LINKS, Stale(narrow), NO_LINKS, o, 0)
      && LastChanged(NO_LINKS, ORPHANED, NO_LINKS, o, 3) == 2 == LastChanged(NO_LINKS, Stale(narrow), NO_LINKS, o, 3)
  {
    hide Visible;
    VisibleHere(narrow, wide);
    var o := NarrowThenWide(narrow, wide);
    assert !Changed(NO_LINKS, ORPHANED, NO_LINKS, o, 0) && !Changed(NO_LINKS, Stale(narrow), NO_LINKS, o, 0);
    assert Changed(NO_LINKS, ORPHANED, NO_LINKS, o, 1) by { assert !Alike(NO_LINKS, BLANK, NO_LINKS, o[1]); }
    assert Changed(NO_LINKS, Stale(narrow), NO_LINKS, o, 1) by { assert !Alike(NO_LINKS, BLANK, NO_LINKS, o[1]); }
    assert Changed(NO_LINKS, ORPHANED, NO_LINKS, o, 2) && Changed(NO_LINKS, Stale(narrow), NO_LINKS, o, 2);
  }

  lemma {:induction false} SamePaint(narrow: char, p: Pencil)
    ensures PaintFrom(NO_LINKS, ORPHANED, 0, 1, 3, p) == PaintFrom(NO_LINKS, Stale(narrow), 0, 1, 3, p)
  {
    hide Visible, PaintCell;
    VisibleHere(narrow, narrow);
    var a := PaintCell(NO_LINKS, BLANK, 0, 1, p);
    assert PaintFrom(NO_LINKS, ORPHANED, 0, 2, 3, a.pencil) == PaintFrom(NO_LINKS, Stale(narrow), 0, 2, 3, a.pencil);
  }

  /** So it prints the same bytes for both. */
  lemma {:induction false} SameDiff(narrow: char, wide: char)
    ensures var prev := OneRow(NarrowThenWide(narrow, wide)).frame;
      && SameSize(OneRow(ORPHANED).frame, prev) && SameSize(OneRow(Stale(narrow)).frame, prev)
      && Diff(OneRow(ORPHANED).frame, prev) == Diff(OneRow(Stale(narrow)).frame, prev)
  {
    hide PaintFrom, FirstChanged, LastChanged, NewFrame, CursorSwitch, LinkDiff, ResetDiff, Cup, Titles, OscBytes, SwitchBytes, MarginBytes;
    var prev, a, b := OneRow(NarrowThenWide(narrow, wide)).frame, OneRow(ORPHANED).frame, OneRow(Stale(narrow)).frame;
    var p := Pencil(PLAIN, ActiveLink(prev), -1, -1);
    NewFrameParts();
    SameSpan(narrow, wide);
    SamePaint(narrow, p);
    assert PaintRow(a, prev, 0, p) == PaintRow(b, prev, 0, p);
    var q := PaintRow(a, prev, 0, p).pencil;
    assert PaintRows(a, prev, 1, q) == PaintRows(b, prev, 1, q);
    assert PaintRows(a, prev, 0, p) == PaintRows(b, prev, 0, p);
    assert RowChanged(a, prev, 0) && RowChanged(b, prev, 0);
    assert Metadata(a, Some(prev), false) == Metadata(b, Some(prev), false);
  }

  // --------------------------------------------------------------------------- the result

  lemma {:induction false} PlainGlyph(t: Widths, ch: char, w: nat)
    requires ch as nat >= 0x20 && DisplayWidth(t, ch) == Some(w) && 1 <= w <= 2
    ensures GlyphOk(t, Glyph(ch, w, PLAIN, 0))
    ensures ch == ' ' && w == 1 ==> GlyphOk(t, BLANK)
  {}

  lemma {:induction false} OneRowPrintable(t: Widths, row: seq<Cell>)
    requires |row| == 3 && RowPrintable(t, NO_LINKS, row)
    ensures Printable(t, OneRow(row).frame) && SwitchesOk(OneRow(row).frame.switches)
    ensures OnLines(t, OneRow(row).frame) <==> !Wraps(t, row)
  {
    hide NewFrame, RowPrintable, Wraps;
    NewFrameParts();
    assert OneRow(row).frame.grid[0] == row;
  }

  lemma {:induction false} RowsHere(t: Widths, narrow: char, wide: char)
    requires NarrowAndWide(t, narrow, wide)
    ensures RowPrintable(t, NO_LINKS, NarrowThenWide(narrow, wide)) && Tidy(NarrowThenWide(narrow, wide))
    ensures RowPrintable(t, NO_LINKS, Stale(narrow)) && !Wraps(t, Stale(narrow))
    ensures RowPrintable(t, NO_LINKS, ORPHANED) && !Wraps(t, ORPHANED) && Bare(ORPHANED, 0)
  {
    hide GlyphOk, DisplayWidth, Visible, StandaloneWidth;
    PlainGlyph(t, narrow, 1);
    PlainGlyph(t, wide, 2);
    PlainGlyph(t, ' ', 1);
    VisibleAt(ORPHANED, 0);
  }

  lemma {:induction false} ShowsItself(row: seq<Cell>)
    requires |row| == 3 && Tidy(row) && forall x :: 0 <= x < 3 ==> row[x].link == 0
    ensures Displays(OneRow(row), OneRow(row).frame)
  {
    hide NewFrame, Tidy, Visible;
    NewFrameParts();
  }

  /** Host bytes build a printable screen, which the terminal shows, and then delete across its
      wide glyph. What the printer writes for the new screen shows every glyph of it, and leaves
      the deleted narrow glyph in the column without one: the terminal shows the new screen and
      just as well the one with that glyph still in place. */
  lemma {:induction false} OrphanStays(t: Widths, narrow: char, wide: char) returns (s': Screen)
    requires NarrowAndWide(t, narrow, wide)
    ensures var s, next := OneRow(NarrowThenWide(narrow, wide)), OneRow(ORPHANED);
      && Takes(t, EMPTY, EncodeChar(narrow) + EncodeChar(wide) + [0x0d], s)
      && Takes(t, s, DELETE_TWO, next)
      && Printable(t, s.frame) && Displays(s, s.frame)
      && Printable(t, next.frame) && Bare(next.frame.grid[0], 0)
      && Takes(t, s, Diff(next.frame, s.frame), s')
      && Displays(s', next.frame) && Displays(s', OneRow(Stale(narrow)).frame)
      && s'.frame.grid[0][0] == Glyph(narrow, 1, PLAIN, 0)
  {
    hide Takes, Displays, Printable, Drawable, OnLines, Wraps, OneRow, Diff, EncodeChar, NarrowThenWide, Stale, Bare, RowsLeft;
    var s, next, stale := OneRow(NarrowThenWide(narrow, wide)), OneRow(ORPHANED), OneRow(Stale(narrow));
    TakesRowText(t, narrow, wide);
    TakesDeletion(t, narrow, wide);
    RowsHere(t, narrow, wide);
    OneRowPrintable(t, NarrowThenWide(narrow, wide));
    OneRowPrintable(t, ORPHANED);
    OneRowPrintable(t, Stale(narrow));
    NoLinks(narrow, wide);
    ShowsItself(NarrowThenWide(narrow, wide));
    SameDiff(narrow, wide);
    DrawableParts(t, next.frame);
    DrawableParts(t, stale.frame);
    s' := DiffShows(t, s, next.frame, s.frame);
    var s'' := DiffShows(t, s, stale.frame, s.frame);
    TakesOnce(t, s, Diff(next.frame, s.frame), s', s'');
    KeepsNarrow(narrow, wide, s'.frame);
  }

  lemma {:induction false} KeepsNarrow(narrow: char, wide: char, g: Frame)
    requires RowsLeft(OneRow(NarrowThenWide(narrow, wide)).frame, g, OneRow(ORPHANED).frame, 0) && Bare(ORPHANED, 0)
    ensures |g.grid| == 1 && |g.grid[0]| == 3 && g.grid[0][0] == Glyph(narrow, 1, PLAIN, 0)
    ensures OneRow(ORPHANED).frame.grid == [ORPHANED]
  {
    hide Visible, NewFrame, Occupied;
    var was := NarrowThenWide(narrow, wide);
    assert OneRow(was).frame.grid == [was];
    assert RowLeft(was, g.grid[0], ORPHANED);
  }

  lemma {:induction false} NoLinks(narrow: char, wide: char)
    ensures forall x :: 0 <= x < 3 ==> NarrowThenWide(narrow, wide)[x].link == 0
  {}
}
