/** Whole diffs and full redraws: after them the terminal shows the frame. */
module Repaint {
  import opened Basics
  import opened Lexer
  import opened Sgr
  import opened Cells
  import opened Screen
  import opened Printer
  import opened Reading
  import opened Painting
  import opened Glass
  import opened Meta

  /** The terminal shows the frame: every visible cell, cursor, margins, switches, titles,
      the active link, and a plain pen. */
  predicate Shows(s: Screen, f: Frame) {
    && SameSize(f, s.frame)
    && (forall y :: 0 <= y < f.rows ==> RowShown(s.frame.links, s.frame.grid[y], f.links, f.grid[y]))
    && s.attr == PLAIN
    && s.frame.cursor == Cursor(f.cursor.x, f.cursor.y, false)
    && s.frame.margins == f.margins
    && s.frame.switches == f.switches
    && ActiveLink(s.frame) == ActiveLink(f)
    && TitlesShown(s.frame.effects, f.effects)
  }

  predicate Displays(s: Screen, f: Frame) { Ready(s) && Shows(s, f) }

  /** A frame as the interpreter builds them: glyphs as wide as their cells, and links, titles
      and modes that the protocol can carry. */
  predicate Printable(t: Widths, f: Frame) {
    && Shaped(f) && f.cols < U32_SIZE && f.rows < U32_SIZE
    && (forall y :: 0 <= y < f.rows ==> RowPrintable(t, f.links, f.grid[y])) && LinkOk(ActiveLink(f))
    && MarginsOk(f.margins, f.rows) && EffectsOk(f.effects) && SwitchesOk(f.switches)
  }

  /** No row ends in a wide glyph that would move to the next line. */
  predicate OnLines(t: Widths, f: Frame) {
    forall y :: 0 <= y < |f.grid| ==> !Wraps(t, f.grid[y])
  }

  /** No wide glyph without its continuation, and no continuation without its wide glyph. */
  predicate WholeGlyphs(f: Frame) {
    forall y :: 0 <= y < |f.grid| ==> Paired(f.grid[y])
  }

  /** A printable frame that stays on its lines. */
  predicate Drawable(t: Widths, f: Frame) {
    && Shaped(f) && f.cols < U32_SIZE && f.rows < U32_SIZE
    && GridDrawable(t, f) && LinkOk(ActiveLink(f))
    && MarginsOk(f.margins, f.rows) && EffectsOk(f.effects) && SwitchesOk(f.switches)
  }

  lemma {:induction false} DrawableParts(t: Widths, f: Frame)
    ensures Drawable(t, f) <==> Printable(t, f) && OnLines(t, f)
  {
    hide Wraps, RowPrintable, LinkOk, MarginsOk, EffectsOk, SwitchesOk;
  }

  /** Frames of whole glyphs do. */
  lemma {:induction false} WholeOnLines(t: Widths, f: Frame)
    requires WholeGlyphs(f)
    ensures OnLines(t, f)
  {
    hide Paired, Tidy, Visible, StandaloneWidth;
    forall y | 0 <= y < |f.grid|
      ensures !Wraps(t, f.grid[y])
    {
      PairedIsTidy(f.grid[y]);
    }
  }

  /** On a frame of whole glyphs nothing is left out: every glyph is shown, every continuation
      is one on the terminal, and the terminal has whole glyphs too. */
  lemma {:induction false} WholeShown(s: Screen, f: Frame, y: nat, j: nat)
    requires Displays(s, f) && WholeGlyphs(f) && y < f.rows && j < f.cols
    ensures Paired(s.frame.grid[y]) && s.frame.grid[y][j].width == f.grid[y][j].width
    ensures f.grid[y][j].width != 0 ==> Alike(s.frame.links, s.frame.grid[y][j], f.links, f.grid[y][j])
  {
    hide Alike, Visible, Paired, Tidy;
    ReadyRow(s, y);
    var row, next := s.frame.grid[y], f.grid[y];
    WholeRow(s.frame.links, row, f.links, next, j);
    WholeRow(s.frame.links, row, f.links, next, |next| - 1);
    PairedIsTidy(row);
    PairedIsTidy(next);
  }

  lemma {:induction false} WholeRow(l: Links, row: seq<Cell>, m: Links, next: seq<Cell>, j: nat)
    requires RowShown(l, row, m, next) && Tidy(row) && Paired(next) && j < |next|
    ensures row[j].width == next[j].width
    ensures next[j].width != 0 ==> Alike(l, row[j], m, next[j])
  {
    hide Visible, Alike;
    PairedIsTidy(next);
    assert PairedAt(next, j);
    var i := if next[j].width == 0 then j - 1 else j;
    VisibleTidy(next, i);
    assert Matches(l, row, m, next, i);
    ShowsWidth(l, row[i], m, next[i]);
    assert TidyAt(row, i);
  }

  lemma {:induction false} TakesSame(t: Widths, s: Screen, s': Screen)
    requires Takes(t, s, [], s')
    ensures s' == s
  {}

  // ------------------------------------------------------------------ what stays ready

  /** Changes that leave cells, links, size and modes alone. */
  predicate KeepsCells(s: Screen, s': Screen) {
    && s'.frame == s.frame.(cursor := s'.frame.cursor, target := s'.frame.target, margins := s'.frame.margins,
                            switches := s'.frame.switches, effects := s'.frame.effects)
  }

  lemma {:induction false} KeepsReady(s: Screen, s': Screen)
    requires Ready(s) && KeepsCells(s, s') && Shaped(s'.frame)
    ensures Ready(s')
  {}

  lemma {:induction false} KeepsShown(s: Screen, s': Screen, next: Frame, prev: Frame, y: nat)
    requires ShownUpTo(s, next, prev, y) && KeepsCells(s, s')
    ensures ShownUpTo(s', next, prev, y)
  {}

  lemma {:induction false} AfterMetaKeeps(s: Screen, next: Frame, e: Effects, margins: bool)
    requires Shaped(s.frame) && MarginsOk(next.margins, next.rows) && s.frame.rows == next.rows
    ensures var s' := AfterMeta(s, next, e, margins);
      && KeepsCells(s, s') && Shaped(s'.frame) && s'.attr == s.attr
      && s'.frame.effects == e
      && s'.frame.switches == next.switches.(cursorVisible := s.frame.switches.cursorVisible)
      && (if margins then s'.frame.margins == next.margins
          else s'.frame.margins == s.frame.margins && s'.frame.cursor == s.frame.cursor)
  {}

  lemma {:induction false} TakesShow(t: Widths, s: Screen, on: bool)
    ensures Takes(t, s, CursorSwitch(on), WithSwitches(s, s.frame.switches.(cursorVisible := on)))
  {
    hide Takes, SetPrivateMode, PrivateMode;
    SwitchModes(s.frame, on);
    TakesPrivateMode(t, s, 25, on);
  }

  // ----------------------------------------------------------------------- the closing

  /** What is still missing once the cells are painted. */
  predicate CellsDone(s: Screen, next: Frame, p: Pencil) {
    && Ready(s) && PenAt(s, p)
    && SameSize(next, s.frame)
    && (forall y :: 0 <= y < next.rows ==> RowShown(s.frame.links, s.frame.grid[y], next.links, next.grid[y]))
    && s.frame.margins == next.margins
    && s.frame.switches == next.switches.(cursorVisible := s.frame.switches.cursorVisible)
    && TitlesShown(s.frame.effects, next.effects)
  }

  function CursorBytes(next: Frame, move: bool): seq<byte> { if move then Cup(next.cursor.y, next.cursor.x) else [] }

  function VisibleBytes(on: bool, change: bool): seq<byte> { if change then CursorSwitch(on) else [] }

  /** Pen, link, cursor and visibility, in that order. */
  lemma {:induction false} TakesTail(t: Widths, s: Screen, next: Frame, p: Pencil, move: bool, change: bool) returns (s': Screen)
    requires CellsDone(s, next, p) && Drawable(t, next)
    requires !move ==> s.frame.cursor == Cursor(next.cursor.x, next.cursor.y, false)
    requires !change ==> s.frame.switches.cursorVisible == next.switches.cursorVisible
    ensures Takes(t, s, ResetDiff(p.attr) + (LinkDiff(p.link, ActiveLink(next))
                        + (CursorBytes(next, move) + VisibleBytes(next.switches.cursorVisible, change))), s')
    ensures Displays(s', next) && s'.frame.grid == s.frame.grid
  {
    hide Takes, LinkDiff, ResetDiff, Cup, CursorSwitch, MoveTo, GridDrawable, RowShown, RowsOk, LinkOk, EffectsOk, SwitchesOk, TitlesShown, Grows;
    var on := next.switches.cursorVisible;
    var s1 := s.(attr := PLAIN);
    TakesResetDiff(t, s);
    var m := TakesLinkDiff(t, s1, ActiveLink(next));
    var s2 := s1.(frame := s1.frame.(links := m));
    var s3 := TakesCursor(t, s2, next, move);
    s' := if change then WithSwitches(s3, s3.frame.switches.(cursorVisible := on)) else s3;
    if change {
      TakesShow(t, s3, on);
    } else {
      TakesNothing(t, s3);
    }
    TakesThen(t, s2, CursorBytes(next, move), s3, VisibleBytes(on, change), s');
    TakesThen(t, s1, LinkDiff(p.link, ActiveLink(next)), s2, CursorBytes(next, move) + VisibleBytes(on, change), s');
    TakesThen(t, s, ResetDiff(p.attr), s1,
              LinkDiff(p.link, ActiveLink(next)) + (CursorBytes(next, move) + VisibleBytes(on, change)), s');
    TailShows(s, s', next, p, m);
  }

  lemma {:induction false} TakesCursor(t: Widths, s: Screen, next: Frame, move: bool) returns (s': Screen)
    requires Shaped(s.frame) && Shaped(next) && next.cols == s.frame.cols < U32_SIZE && next.rows == s.frame.rows < U32_SIZE
    requires !s.frame.modes.origin
    requires !move ==> s.frame.cursor == Cursor(next.cursor.x, next.cursor.y, false)
    ensures Takes(t, s, CursorBytes(next, move), s')
    ensures Addressed(s.frame, s'.frame, next.cursor.x, next.cursor.y) && s' == s.(frame := s'.frame)
  {
    hide Takes, Cup, MoveTo;
    if move {
      s' := s.(frame := MoveTo(s.frame, next.cursor.x, next.cursor.y));
      TakesCup(t, s, next.cursor.y, next.cursor.x);
      MoveAddresses(s.frame, next.cursor.x, next.cursor.y);
    } else {
      s' := s;
      TakesNothing(t, s);
    }
  }

  lemma {:induction false} TailShows(s: Screen, s': Screen, next: Frame, p: Pencil, m: Links)
    requires CellsDone(s, next, p) && Shaped(next)
    requires Grows(s.frame.links, m) && Resolve(m, m.active) == ActiveLink(next) && m.active <= |m.table|
    requires s'.attr == PLAIN
    requires s'.frame == s.frame.(links := m, cursor := Cursor(next.cursor.x, next.cursor.y, false),
                                  target := s'.frame.target,
                                  switches := s.frame.switches.(cursorVisible := next.switches.cursorVisible))
    ensures Displays(s', next)
  {
    hide RowShown, RowOk, TitlesShown;
    RowsOkMore(s.frame.grid, |s.frame.links.table|, |m.table|);
    forall y | 0 <= y < next.rows
      ensures RowShown(m, s.frame.grid[y], next.links, next.grid[y])
    {
      ReadyRow(s, y);
      RowShownGrows(s.frame.links, s.frame.grid[y], next.links, next.grid[y], m);
    }
  }

  lemma {:induction false} RowsOkMore(grid: seq<seq<Cell>>, n: nat, m: nat)
    requires RowsOk(grid, n) && n <= m
    ensures RowsOk(grid, m)
  {
    forall y | 0 <= y < |grid|
      ensures RowOk(grid[y], m)
    {
      LinksInMore(grid[y], n, m);
    }
  }

  // ------------------------------------------------------------- diffs of the same size

  lemma {:induction false} UnchangedRow(next: Frame, prev: Frame, y: nat, p: Pencil)
    requires SameSize(next, prev) && y < next.rows && !RowChanged(next, prev, y)
    ensures PaintRow(next, prev, y, p) == Painted([], p)
  {
    hide Changed;
  }

  lemma {:induction false} UnchangedRows(next: Frame, prev: Frame, y: nat, p: Pencil)
    requires SameSize(next, prev) && y <= next.rows && !CellsChanged(next, prev)
    ensures PaintRows(next, prev, y, p) == Painted([], p)
    decreases next.rows - y
  {
    hide RowChanged, PaintRow;
    if y < next.rows {
      UnchangedRow(next, prev, y, p);
      UnchangedRows(next, prev, y + 1, p);
    }
  }

  /** Metadata and the hidden cursor: all is as in `next` but cells, cursor and link. */
  predicate Prelude(s: Screen, s2: Screen, next: Frame, prev: Frame) {
    && Ready(s2) && ShownUpTo(s2, next, prev, 0) && PenAt(s2, Pencil(PLAIN, ActiveLink(prev), -1, -1))
    && s2.frame.margins == next.margins
    && s2.frame.switches == next.switches.(cursorVisible := s2.frame.switches.cursorVisible)
    && TitlesShown(s2.frame.effects, next.effects)
    && s2.frame.switches.cursorVisible == (prev.switches.cursorVisible && !CellsChanged(next, prev))
    && (next.margins == prev.margins ==> s2.frame.cursor == s.frame.cursor)
    && s2.frame.grid == s.frame.grid
  }

  lemma {:induction false} TakesPrelude(t: Widths, s: Screen, next: Frame, prev: Frame) returns (s2: Screen)
    requires Displays(s, prev) && Drawable(t, next) && SameSize(next, prev) && SwitchesOk(prev.switches)
    ensures Takes(t, s, Metadata(next, Some(prev), false) + if CellsChanged(next, prev) then CursorSwitch(false) else [], s2)
    ensures Prelude(s, s2, next, prev)
  {
    hide Takes, Metadata, CursorSwitch, CellsChanged, RowShown, RowsOk, GridDrawable, LinkOk, EffectsOk, TitlesShown, Grows, AfterMeta, ShownUpTo;
    var changed := CellsChanged(next, prev);
    var e := TakesMetadata(t, s, next, Some(prev), false);
    var s1 := AfterMeta(s, next, e, MarginsChanged(next, Some(prev), false));
    AfterMetaKeeps(s, next, e, MarginsChanged(next, Some(prev), false));
    s2 := if changed then WithSwitches(s1, s1.frame.switches.(cursorVisible := false)) else s1;
    if changed {
      TakesShow(t, s1, false);
    } else {
      TakesNothing(t, s1);
    }
    ShownStart(s, next, prev);
    KeepsReady(s, s2);
    KeepsShown(s, s2, next, prev, 0);
    TakesThen(t, s, Metadata(next, Some(prev), false), s1, if changed then CursorSwitch(false) else [], s2);
  }

  /** Metadata, the hidden cursor, and all changed cells. */
  lemma {:induction false} TakesChanges(t: Widths, s: Screen, next: Frame, prev: Frame) returns (s': Screen)
    requires Displays(s, prev) && Drawable(t, next) && SameSize(next, prev) && SwitchesOk(prev.switches)
    ensures var rows := PaintRows(next, prev, 0, Pencil(PLAIN, ActiveLink(prev), -1, -1));
            var changed := CellsChanged(next, prev);
      && Takes(t, s, (Metadata(next, Some(prev), false) + if changed then CursorSwitch(false) else []) + rows.bytes, s')
      && CellsDone(s', next, rows.pencil)
      && s'.frame.switches.cursorVisible == (prev.switches.cursorVisible && !changed)
      && (!changed && next.margins == prev.margins ==> s'.frame.cursor == s.frame.cursor)
      && RowsLeft(s.frame, s'.frame, next, 0)
  {
    hide Takes, Metadata, CursorSwitch, PaintRows, CellsChanged, RowShown, RowLeft, GridDrawable, TitlesShown, Grows, Ready, Displays, ShownUpTo, PenAt;
    var p := Pencil(PLAIN, ActiveLink(prev), -1, -1);
    var rows := PaintRows(next, prev, 0, p);
    var changed := CellsChanged(next, prev);
    var s2 := TakesPrelude(t, s, next, prev);
    s' := TakesRows(t, s2, next, prev, 0, p);
    if !changed {
      UnchangedRows(next, prev, 0, p);
      TakesSame(t, s2, s');
    }
    TakesThen(t, s, Metadata(next, Some(prev), false) + (if changed then CursorSwitch(false) else []), s2, rows.bytes, s');
    AllShown(s', next, prev);
  }

  lemma {:induction false} ShownStart(s: Screen, next: Frame, prev: Frame)
    requires Shows(s, prev) && SameSize(next, prev)
    ensures ShownUpTo(s, next, prev, 0)
  {}

  lemma {:induction false} AllShown(s: Screen, next: Frame, prev: Frame)
    requires ShownUpTo(s, next, prev, next.rows)
    ensures SameSize(next, s.frame)
    ensures forall y :: 0 <= y < next.rows ==> RowShown(s.frame.links, s.frame.grid[y], next.links, next.grid[y])
  {}

  lemma {:induction false} DiffShape(next: Frame, prev: Frame)
    requires SameSize(next, prev)
    ensures var rows := PaintRows(next, prev, 0, Pencil(PLAIN, ActiveLink(prev), -1, -1));
            var changed := CellsChanged(next, prev);
            var move := changed || next.margins != prev.margins || next.cursor.x != prev.cursor.x || next.cursor.y != prev.cursor.y;
            var on := next.switches.cursorVisible;
            var change := if changed then on else on != prev.switches.cursorVisible;
      Diff(next, prev)
        == ((Metadata(next, Some(prev), false) + if changed then CursorSwitch(false) else []) + rows.bytes)
           + (ResetDiff(rows.pencil.attr) + (LinkDiff(rows.pencil.link, ActiveLink(next))
              + (CursorBytes(next, move) + VisibleBytes(on, change))))
  {
    hide Metadata, PaintRows, CellsChanged, CursorSwitch, ResetDiff, LinkDiff, Cup;
  }

  /** The paint round trip: a terminal that shows `prev` shows `next` after the diff, and where
      `next` has nothing to show it keeps what it had, or a blank for half a glyph. */
  lemma {:induction false} DiffShows(t: Widths, s: Screen, next: Frame, prev: Frame) returns (s': Screen)
    requires Displays(s, prev) && Drawable(t, next) && SameSize(next, prev) && SwitchesOk(prev.switches)
    ensures Takes(t, s, Diff(next, prev), s') && Displays(s', next) && RowsLeft(s.frame, s'.frame, next, 0)
  {
    hide Takes, Metadata, CursorSwitch, PaintRows, CellsChanged, Drawable, RowLeft, CellsDone, Ready, LinkDiff, ResetDiff, Diff, CursorBytes, VisibleBytes, RowShown;
    var rows := PaintRows(next, prev, 0, Pencil(PLAIN, ActiveLink(prev), -1, -1));
    var changed := CellsChanged(next, prev);
    var s1 := TakesChanges(t, s, next, prev);
    var move := changed || next.margins != prev.margins || next.cursor.x != prev.cursor.x || next.cursor.y != prev.cursor.y;
    var on := next.switches.cursorVisible;
    var change := if changed then on else on != prev.switches.cursorVisible;
    s' := TakesTail(t, s1, next, rows.pencil, move, change);
    DiffShape(next, prev);
    TakesThen(t, s, (Metadata(next, Some(prev), false) + if changed then CursorSwitch(false) else []) + rows.bytes, s1,
              ResetDiff(rows.pencil.attr) + (LinkDiff(rows.pencil.link, ActiveLink(next))
                + (CursorBytes(next, move) + VisibleBytes(on, change))), s');
  }

  lemma {:induction false} TornSame(was: seq<Cell>, prev: seq<Cell>, next: seq<Cell>, x: nat)
    requires |was| == |prev| && x < |was| && was[x].width == prev[x].width
    ensures TornAt(was, next, x) == TornAt(prev, next, x)
  {
    hide Occupied;
  }

  /** What stays behind where `next` has a continuation without its glyph: the glyph that `prev`
      shows there, unless half of it is painted over, and then a blank. */
  lemma {:induction false} StaleColumn(t: Widths, s: Screen, next: Frame, prev: Frame, y: nat, x: nat) returns (s': Screen)
    requires Displays(s, prev) && WholeGlyphs(prev) && Drawable(t, next) && SameSize(next, prev) && SwitchesOk(prev.switches)
    requires y < next.rows && Bare(next.grid[y], x)
    ensures Takes(t, s, Diff(next, prev), s') && Displays(s', next)
    ensures var c, o := s'.frame.grid[y][x], prev.grid[y][x];
      if TornAt(prev.grid[y], next.grid[y], x) then IsErased(c)
      else c.width == o.width && (o.width != 0 ==> c.ch == o.ch && c.attr == o.attr && c.suffix == o.suffix)
  {
    hide Takes, Diff, Drawable, WholeGlyphs, Ready, TornAt, Occupied, RowShown;
    s' := DiffShows(t, s, next, prev);
    WholeShown(s, prev, y, x);
    assert RowLeft(s.frame.grid[y], s'.frame.grid[y], next.grid[y]);
    TornSame(s.frame.grid[y], prev.grid[y], next.grid[y], x);
  }

  // ---------------------------------------------------------------------- full redraws

  /** A terminal of the right size, whatever it shows. */
  predicate Clearable(s: Screen, next: Frame) {
    && Shaped(s.frame) && s.frame.cols == next.cols && s.frame.rows == next.rows
    && s.frame.modes == DEFAULT_MODES && s.attr == PLAIN
    && SwitchesOk(s.frame.switches)
  }

  function Cleared(f: Frame): Frame {
    f.(grid := BlankGrid(f.rows, f.cols, BLANK), links := Links([], 0))
  }

  lemma {:induction false} InkOutside(row: seq<Cell>, n: nat)
    requires n <= |row|
    ensures forall j :: InkEnd(row, n) <= j < n ==> !Visible(row)[j] || Plain(row[j])
  {
    hide Plain, Visible;
    if n > 0 {
      InkOutside(row, n - 1);
    }
  }

  lemma {:induction false} PlainMatches(l: Links, row: seq<Cell>, m: Links, next: seq<Cell>, t: Widths, j: nat)
    requires RowShown(l, row, Links([], 0), Blanks(|row|, BLANK)) && |row| == |next| && j < |row|
    requires SpaceIsNarrow(t) && GlyphOk(t, next[j]) && Plain(next[j])
    ensures Matches(l, row, m, next, j)
  {
    hide Visible;
    BlanksVisible(|row|, j);
    assert Matches(l, row, Links([], 0), Blanks(|row|, BLANK), j);
  }

  lemma {:induction false} BlanksVisible(n: nat, j: nat)
    requires j < n
    ensures Visible(Blanks(n, BLANK))[j]
  {
    hide Visible;
    VisibleTidy(Blanks(n, BLANK), j);
  }

  /** What a redraw leaves out of a row is blank on a cleared screen. */
  lemma {:induction false} BlankOutside(t: Widths, l: Links, row: seq<Cell>, m: Links, next: seq<Cell>)
    requires RowShown(l, row, Links([], 0), Blanks(|row|, BLANK)) && |row| == |next|
    requires SpaceIsNarrow(t) && RowDrawable(t, m, next)
    ensures ShownOutside(l, row, m, next, 0, InkEnd(next, |next|))
  {
    hide Plain, Visible, GlyphOk, LinkOk, RowShown;
    InkOutside(next, |next|);
    forall j | 0 <= j < |row| && j >= InkEnd(next, |next|)
      ensures Matches(l, row, m, next, j)
    {
      if Visible(next)[j] {
        VisibleWide(next, j);
        PlainMatches(l, row, m, next, t, j);
      }
    }
  }

  /** The cursor is at the start of row `y`, or of the row before it was on. */
  predicate LineAt(f: Frame, y: nat) {
    && f.margins.bottom + 1 == f.rows
    && (if y == 0 then f.cursor == Cursor(0, 0, false) else f.cursor.y == y - 1)
  }

  lemma {:induction false} TakesNewLine(t: Widths, s: Screen, y: nat)
    requires Shaped(s.frame) && 0 < y < s.frame.rows && LineAt(s.frame, y)
    ensures Takes(t, s, [0x0d, 0x0a], s.(frame := s.frame.(cursor := Cursor(0, y, false), target := Target(0, y, true))))
  {
    hide Takes;
    var s1 := ExecControl(s, 0x0d);
    TakesOne(t, s, [0x0d], Control(0x0d));
    TakesOne(t, s1, [0x0a], Control(0x0a));
    TakesThen(t, s, [0x0d], s1, [0x0a], ExecControl(s1, 0x0a));
    assert [0x0d] + [0x0a] == [0x0d, 0x0a];
  }

  lemma {:induction false} TakesLineStart(t: Widths, s: Screen, y: nat, p: Pencil) returns (s': Screen)
    requires Ready(s) && y < s.frame.rows && LineAt(s.frame, y) && PenAt(s, p)
    ensures Takes(t, s, if y == 0 then [] else [0x0d, 0x0a], s')
    ensures Addressed(s.frame, s'.frame, 0, y) && s' == s.(frame := s'.frame)
    ensures PenAt(s', p.(x := 0, y := y))
  {
    hide Takes;
    if y == 0 {
      s' := s;
      TakesNothing(t, s);
    } else {
      s' := s.(frame := s.frame.(cursor := Cursor(0, y, false), target := Target(0, y, true)));
      TakesNewLine(t, s, y);
    }
  }

  lemma {:induction false} AddressedReady(s: Screen, s': Screen, x: nat, y: nat)
    requires Ready(s) && Addressed(s.frame, s'.frame, x, y) && x < s.frame.cols && y < s.frame.rows
    ensures Ready(s')
  {}

  lemma {:induction false} AddressedGrid(f: Frame, g: Frame, x: nat, y: nat)
    requires Addressed(f, g, x, y)
    ensures OnlyGrid(f, g) && (y < |f.grid| ==> OnlyRow(f, g, y))
  {}

  lemma {:induction false} AddressedShown(s: Screen, s': Screen, x: nat, y: nat, next: Frame, prev: Frame, k: nat)
    requires ShownUpTo(s, next, prev, k) && Addressed(s.frame, s'.frame, x, y)
    ensures ShownUpTo(s', next, prev, k)
  {}

  lemma {:induction false} ClearedRow(s: Screen, next: Frame, y: nat)
    requires ShownUpTo(s, next, Cleared(next), y) && y < next.rows
    ensures |s.frame.grid| == next.rows == |next.grid| && |s.frame.grid[y]| == next.cols == |next.grid[y]|
    ensures RowShown(s.frame.links, s.frame.grid[y], Links([], 0), Blanks(|s.frame.grid[y]|, BLANK))
  {
    assert Cleared(next).grid[y] == Blanks(next.cols, BLANK);
  }

  lemma {:induction false} TakesRedrawRow(t: Widths, s: Screen, next: Frame, y: nat, p: Pencil) returns (s': Screen)
    requires Ready(s) && PenAt(s, p) && y < next.rows && LineAt(s.frame, y) && SpaceIsNarrow(t)
    requires GridDrawable(t, next) && ShownUpTo(s, next, Cleared(next), y) && Shaped(next)
    ensures var a := RedrawRow(next, y, p);
      && Takes(t, s, a.bytes, s') && PenAt(s', a.pencil) && s'.saved == s.saved
      && Ready(s') && OnlyGrid(s.frame, s'.frame) && ShownUpTo(s', next, Cleared(next), y + 1)
      && s'.frame.cursor.y == y
      && OnlyRow(s.frame, s'.frame, y) && RowLeft(s.frame.grid[y], s'.frame.grid[y], next.grid[y])
  {
    hide Takes, Ready, PenAt, PaintFrom, RowShown, RowLeft, GlyphOk, LinkOk, Matches, ShownOutside, Visible, Plain, OnlyRow, Grows, ShownUpTo, RowDrawable;
    var n := next.grid[y];
    ClearedRow(s, next, y);
    ShownSizes(s, next, Cleared(next), y);
    var s1 := TakesLineStart(t, s, y, p);
    AddressedReady(s, s1, 0, y);
    AddressedShown(s, s1, 0, y, next, Cleared(next), y);
    assert RowDrawable(t, next.links, n);
    BlankOutside(t, s1.frame.links, s1.frame.grid[y], next.links, n);
    s' := TakesRest(t, s1, next.links, n, y, 0, InkEnd(n, |n|), p.(x := 0, y := y));
    ReadyShaped(s');
    ShownNext(s1, s', next, Cleared(next), y);
    AddressedGrid(s.frame, s1.frame, 0, y);
    OnlyRowThen(s.frame, s1.frame, s'.frame, y);
    OnlyGridThen(s.frame, s1.frame, s'.frame);
    RedrawRowShape(next, y, p);
    TakesThen(t, s, if y == 0 then [] else [0x0d, 0x0a], s1, PaintFrom(next.links, n, y, 0, InkEnd(n, |n|), p.(x := 0, y := y)).bytes, s');
  }

  lemma {:induction false} RedrawRowShape(next: Frame, y: nat, p: Pencil)
    requires y < |next.grid|
    ensures var n := next.grid[y];
            var a := PaintFrom(next.links, n, y, 0, InkEnd(n, |n|), p.(x := 0, y := y));
      RedrawRow(next, y, p) == Painted((if y == 0 then [] else [0x0d, 0x0a]) + a.bytes, a.pencil)
  {
    hide PaintFrom;
    var n := next.grid[y];
    var bytes := PaintFrom(next.links, n, y, 0, InkEnd(n, |n|), p.(x := 0, y := y)).bytes;
    assert [] + bytes == bytes;
  }

  lemma {:induction false} ShownSizes(s: Screen, next: Frame, prev: Frame, y: nat)
    requires ShownUpTo(s, next, prev, y)
    ensures s.frame.cols == next.cols && s.frame.rows == next.rows == |next.grid|
  {}

  lemma {:induction false} TakesRedrawRows(t: Widths, s: Screen, next: Frame, y: nat, p: Pencil) returns (s': Screen)
    requires Ready(s) && PenAt(s, p) && y <= next.rows && SpaceIsNarrow(t) && (y < next.rows ==> LineAt(s.frame, y))
    requires GridDrawable(t, next) && ShownUpTo(s, next, Cleared(next), y) && Shaped(next)
    ensures var a := RedrawRows(next, y, p);
      && Takes(t, s, a.bytes, s') && PenAt(s', a.pencil) && s'.saved == s.saved
      && Ready(s') && OnlyGrid(s.frame, s'.frame) && ShownUpTo(s', next, Cleared(next), next.rows)
      && RowsLeft(s.frame, s'.frame, next, y)
    decreases next.rows - y
  {
    hide Takes, Ready, PenAt, RedrawRow, OnlyGrid, OnlyRow, ShownUpTo, GridDrawable, Cleared, RowLeft, RowsLeft;
    ShownSizes(s, next, Cleared(next), y);
    if y == next.rows {
      s' := s;
      TakesNothing(t, s);
      ShownGrid(s, next, Cleared(next), y);
      RowsLeftNone(s.frame, next);
      OnlyGridSame(s.frame);
    } else {
      var a := RedrawRow(next, y, p);
      var s1 := TakesRedrawRow(t, s, next, y, p);
      LineFollows(s.frame, s1.frame, y);
      s' := TakesRedrawRows(t, s1, next, y + 1, a.pencil);
      OnlyGridThen(s.frame, s1.frame, s'.frame);
      RowsLeftNext(s.frame, s1.frame, s'.frame, next, y);
      TakesThen(t, s, a.bytes, s1, RedrawRows(next, y + 1, a.pencil).bytes, s');
    }
  }

  lemma {:induction false} LineFollows(f: Frame, g: Frame, y: nat)
    requires OnlyGrid(f, g) && LineAt(f, y) && g.cursor.y == y
    ensures LineAt(g, y + 1)
  {}

  /** The screen after it has been cleared. */
  predicate CleanSlate(s: Screen, s6: Screen, next: Frame) {
    && Ready(s6) && ShownUpTo(s6, next, Cleared(next), 0)
    && PenAt(s6, Pencil(PLAIN, None, 0, 0)) && LineAt(s6.frame, 0)
    && s6.frame.margins == Margins(0, next.rows - 1)
    && s6.frame.switches == s.frame.switches.(cursorVisible := false)
    && s6.frame.effects == s.frame.effects
  }

  function AfterClear(s: Screen): Screen {
    var f := s.frame;
    var home := MoveTo(f.(margins := Margins(0, SatSub(f.rows, 1)), switches := f.switches.(cursorVisible := false)), 0, 0);
    s.(attr := PLAIN, frame := EraseAll(home, BLANK).(links := f.links.(active := 0)))
  }

  lemma {:induction false} MoveHome(f: Frame)
    ensures MoveTo(MoveTo(f, 0, 0), 0, 0) == MoveTo(f, 0, 0)
  {}

  lemma {:induction false} TakesClearing(t: Widths, s: Screen, next: Frame)
    requires Clearable(s, next) && next.rows < U32_SIZE
    ensures Takes(t, s, CLEARING, AfterClear(s))
  {
    hide Takes, MoveTo, Selected, EraseAll, ALL_ROWS, HOME, CLEAR, RESET, LinkBytes, CursorSwitch;
    var f := s.frame;
    var f1 := f.(switches := f.switches.(cursorVisible := false));
    var f2 := MoveTo(f1.(margins := Margins(0, f.rows - 1)), 0, 0);
    var f4 := EraseAll(f2, BLANK);
    var s1, s2, s4 := s.(frame := f1), s.(frame := f2), s.(frame := f4);
    TakesShow(t, s, false);
    TakesAllRows(t, s1);
    ClearingModes(s1, f2);
    TakesHome(t, s2);
    MoveHome(f1.(margins := Margins(0, f.rows - 1)));
    TakesClear(t, s2);
    TakesReset(t, s4);
    TakesLink(t, s4, None);
    ClearingLinks(f2);
    TakesThen(t, s4, RESET, s4, LinkBytes(None), AfterClear(s));
    TakesThen(t, s2, CLEAR, s4, RESET + LinkBytes(None), AfterClear(s));
    TakesThen(t, s2, HOME, s2, CLEAR + (RESET + LinkBytes(None)), AfterClear(s));
    TakesThen(t, s1, ALL_ROWS, s2, HOME + (CLEAR + (RESET + LinkBytes(None))), AfterClear(s));
    TakesThen(t, s, CursorSwitch(false), s1, ALL_ROWS + (HOME + (CLEAR + (RESET + LinkBytes(None)))), AfterClear(s));
  }

  lemma {:induction false} ClearingModes(s: Screen, f2: Frame)
    requires Shaped(s.frame) && s.frame.modes == DEFAULT_MODES
    requires f2 == MoveTo(s.frame.(margins := Margins(0, s.frame.rows - 1)), 0, 0)
    ensures Shaped(f2) && f2.modes == DEFAULT_MODES && f2.links == s.frame.links
  {}

  lemma {:induction false} ClearingLinks(f: Frame)
    ensures Selected(EraseAll(f, BLANK).links, None) == f.links.(active := 0)
    ensures Erased(PLAIN.bg) == BLANK
  {}

  lemma {:induction false} BlanksShown(l: Links, n: nat)
    ensures RowShown(l, Blanks(n, BLANK), Links([], 0), Blanks(n, BLANK))
    ensures RowOk(Blanks(n, BLANK), |l.table|)
  {}

  lemma {:induction false} BlankGridRows(rows: nat, cols: nat, y: nat)
    requires y < rows
    ensures BlankGrid(rows, cols, BLANK)[y] == Blanks(cols, BLANK)
  {}

  lemma {:induction false} ClearsSlate(s: Screen, next: Frame)
    requires Clearable(s, next) && Shaped(next) && next.rows < U32_SIZE && next.cols < U32_SIZE
    ensures CleanSlate(s, AfterClear(s), next)
  {
    hide RowShown, RowOk, BlankGrid, Blanks;
    var s6 := AfterClear(s);
    forall y | 0 <= y < next.rows
      ensures RowOk(s6.frame.grid[y], |s6.frame.links.table|)
      ensures RowShown(s6.frame.links, s6.frame.grid[y], Links([], 0), Cleared(next).grid[y])
    {
      BlankGridRows(next.rows, next.cols, y);
      BlanksShown(s6.frame.links, next.cols);
    }
  }

  /** From painted cells to the end of a redraw. */
  lemma {:induction false} TakesRedrawTail(t: Widths, s: Screen, next: Frame, prev: Option<Frame>, p: Pencil) returns (s': Screen)
    requires Ready(s) && PenAt(s, p) && ShownUpTo(s, next, Cleared(next), next.rows) && Drawable(t, next)
    requires s.frame.margins == Margins(0, next.rows - 1) && SwitchesOk(s.frame.switches) && !s.frame.switches.cursorVisible
    requires SwitchesOk(PrevSwitches(prev))
    ensures Takes(t, s, ResetDiff(p.attr) + (LinkDiff(p.link, ActiveLink(next)) + (Metadata(next, prev, true)
                        + (CursorBytes(next, true) + VisibleBytes(true, next.switches.cursorVisible)))), s')
    ensures Displays(s', next) && s'.frame.grid == s.frame.grid
  {
    hide Takes, LinkDiff, ResetDiff, Metadata, CursorBytes, VisibleBytes, GridDrawable, RowShown, RowsOk, LinkOk, EffectsOk, SwitchesOk, TitlesShown, Grows, ShownUpTo, Cleared, AfterMeta;
    var on := next.switches.cursorVisible;
    AllShown(s, next, Cleared(next));
    var s1 := s.(attr := PLAIN);
    TakesResetDiff(t, s);
    var m := TakesLinkDiff(t, s1, ActiveLink(next));
    var s2 := s1.(frame := s1.frame.(links := m));
    var e := TakesMetadata(t, s2, next, prev, true);
    var s3 := AfterMeta(s2, next, e, MarginsChanged(next, prev, true));
    LinksKeepShape(s1.frame, m);
    AfterMetaKeeps(s2, next, e, MarginsChanged(next, prev, true));
    var s4 := TakesCursor(t, s3, next, true);
    s' := TakesVisible(t, s4, on);
    var tail := CursorBytes(next, true) + VisibleBytes(true, on);
    TakesThen(t, s3, CursorBytes(next, true), s4, VisibleBytes(true, on), s');
    TakesThen(t, s2, Metadata(next, prev, true), s3, tail, s');
    TakesThen(t, s1, LinkDiff(p.link, ActiveLink(next)), s2, Metadata(next, prev, true) + tail, s');
    TakesThen(t, s, ResetDiff(p.attr), s1, LinkDiff(p.link, ActiveLink(next)) + (Metadata(next, prev, true) + tail), s');
    RedrawTailShows(s, s', next, p, m);
  }

  lemma {:induction false} TakesVisible(t: Widths, s: Screen, on: bool) returns (s': Screen)
    requires !s.frame.switches.cursorVisible
    ensures Takes(t, s, VisibleBytes(true, on), s')
    ensures s' == WithSwitches(s, s.frame.switches.(cursorVisible := on))
  {
    hide Takes, CursorSwitch;
    s' := WithSwitches(s, s.frame.switches.(cursorVisible := on));
    if on {
      TakesShow(t, s, true);
    } else {
      TakesNothing(t, s);
    }
  }

  lemma {:induction false} RedrawTailShows(s: Screen, s': Screen, next: Frame, p: Pencil, m: Links)
    requires Ready(s) && PenAt(s, p) && SameSize(next, s.frame) && Shaped(next) && MarginsOk(next.margins, next.rows)
    requires forall y :: 0 <= y < next.rows ==> RowShown(s.frame.links, s.frame.grid[y], next.links, next.grid[y])
    requires Grows(s.frame.links, m) && Resolve(m, m.active) == ActiveLink(next) && m.active <= |m.table|
    requires s'.attr == PLAIN && TitlesShown(s'.frame.effects, next.effects)
    requires s'.frame == s.frame.(links := m, cursor := Cursor(next.cursor.x, next.cursor.y, false), target := s'.frame.target,
                                  switches := next.switches, margins := next.margins, effects := s'.frame.effects)
    ensures Displays(s', next)
  {
    hide RowShown, RowsOk, TitlesShown, Grows;
    var q := s.(frame := s.frame.(effects := s'.frame.effects, switches := next.switches, margins := next.margins));
    KeepsReady(s, q);
    TailShows(q, s', next, p, m);
  }

  /** Where a cleared row has nothing to show it stays blank. */
  predicate BlankElsewhere(g: Frame, next: Frame) {
    && |g.grid| == |next.grid|
    && forall y :: 0 <= y < |g.grid| ==> RowLeft(Blanks(next.cols, BLANK), g.grid[y], next.grid[y])
  }

  lemma {:induction false} BareIsBlank(g: Frame, next: Frame, y: nat, x: nat)
    requires BlankElsewhere(g, next) && y < |next.grid| && Bare(next.grid[y], x)
    ensures x < |g.grid[y]| && g.grid[y][x] == BLANK
  {
    hide Occupied;
    assert RowLeft(Blanks(next.cols, BLANK), g.grid[y], next.grid[y]);
  }

  lemma {:induction false} SameGridLeft(f: Frame, g: Frame, h: Frame, next: Frame)
    requires RowsLeft(f, g, next, 0) && h.grid == g.grid
    ensures RowsLeft(f, h, next, 0)
  {}

  lemma {:induction false} ClearedLeft(s: Screen, g: Frame, next: Frame)
    requires Clearable(s, next) && RowsLeft(AfterClear(s).frame, g, next, 0)
    ensures BlankElsewhere(g, next)
  {
    hide RowLeft, BlankGrid, Blanks;
    forall y | 0 <= y < |g.grid|
      ensures RowLeft(Blanks(next.cols, BLANK), g.grid[y], next.grid[y])
    {
      BlankGridRows(next.rows, next.cols, y);
    }
  }

  /** A full redraw: whatever the terminal showed, it shows the frame, on a blank ground. */
  lemma {:induction false} RedrawShows(t: Widths, s: Screen, next: Frame, prev: Option<Frame>) returns (s': Screen)
    requires Clearable(s, next) && Drawable(t, next) && SpaceIsNarrow(t) && SwitchesOk(PrevSwitches(prev))
    ensures Takes(t, s, Redraw(next, prev), s') && Displays(s', next) && BlankElsewhere(s'.frame, next)
  {
    hide Displays, RowsLeft, BlankElsewhere, Takes, LinkDiff, ResetDiff, Metadata, GridDrawable, LinkOk, EffectsOk, TitlesShown, Grows, ShownUpTo, Cleared, RowsOk, CLEARING, AfterClear, RedrawRows, Cup, CursorSwitch, PenAt;
    var p := Pencil(PLAIN, None, 0, 0);
    var rows := RedrawRows(next, 0, p);
    var s6 := AfterClear(s);
    TakesClearing(t, s, next);
    ClearsSlate(s, next);
    var s7 := TakesRedrawRows(t, s6, next, 0, p);
    s' := TakesRedrawTail(t, s7, next, prev, rows.pencil);
    SameGridLeft(s6.frame, s7.frame, s'.frame, next);
    ClearedLeft(s, s'.frame, next);
    var tail := ResetDiff(rows.pencil.attr) + (LinkDiff(rows.pencil.link, ActiveLink(next)) + (Metadata(next, prev, true)
                + (CursorBytes(next, true) + VisibleBytes(true, next.switches.cursorVisible))));
    TakesThen(t, s6, rows.bytes, s7, tail, s');
    TakesThen(t, s, CLEARING, s6, rows.bytes + tail, s');
    assert Redraw(next, prev) == CLEARING + (rows.bytes + tail);
  }

  // -------------------------------------------------------------------------- any diff

  /** What a diff may be applied to: the frame it is relative to, or any cleared screen. */
  predicate Applicable(s: Screen, next: Frame, prev: Option<Frame>) {
    && SwitchesOk(PrevSwitches(prev))
    && if prev.Some? && SameSize(next, prev.value) then Displays(s, prev.value) else Clearable(s, next)
  }

  lemma {:induction false} FrameDiffShows(t: Widths, s: Screen, next: Frame, prev: Option<Frame>) returns (s': Screen)
    requires Drawable(t, next) && SpaceIsNarrow(t) && Applicable(s, next, prev)
    ensures Takes(t, s, FrameDiff(next, prev), s') && Displays(s', next)
  {
    hide Takes, Diff, Redraw, Displays, Drawable, SpaceIsNarrow, Clearable;
    if prev.Some? && SameSize(next, prev.value) {
      s' := DiffShows(t, s, next, prev.value);
    } else {
      s' := RedrawShows(t, s, next, prev);
    }
  }

  /** Everything written for a sequence of frames, each relative to the one before. */
  function Stream(frames: seq<Frame>): seq<byte> {
    if frames == [] then []
    else
      var n := |frames| - 1;
      Stream(frames[..n]) + FrameDiff(frames[n], if n > 0 then Some(frames[n - 1]) else None)
  }

  predicate AllDrawable(t: Widths, frames: seq<Frame>) {
    forall i :: 0 <= i < |frames| ==> Drawable(t, frames[i]) && SameSize(frames[i], frames[0])
  }

  lemma {:induction false} StreamShows(t: Widths, s: Screen, frames: seq<Frame>) returns (s': Screen)
    requires frames != [] && AllDrawable(t, frames) && SpaceIsNarrow(t) && Clearable(s, frames[0])
    ensures Takes(t, s, Stream(frames), s') && Displays(s', frames[|frames| - 1])
    decreases |frames|
  {
    hide Takes, FrameDiff, Displays, Clearable, SpaceIsNarrow;
    var n := |frames| - 1;
    assert Drawable(t, frames[n]);
    if n == 0 {
      s' := FrameDiffShows(t, s, frames[0], None);
      TakesNothing(t, s);
      TakesThen(t, s, [], s, FrameDiff(frames[0], None), s');
    } else {
      assert Drawable(t, frames[n - 1]) && SameSize(frames[n - 1], frames[0]) && SameSize(frames[n], frames[0]);
      var s1 := StreamShows(t, s, frames[..n]);
      s' := FrameDiffShows(t, s1, frames[n], Some(frames[n - 1]));
      TakesThen(t, s, Stream(frames[..n]), s1, FrameDiff(frames[n], Some(frames[n - 1])), s');
    }
  }

  /** The screen never drifts: after any number of diffs, delivered in any pieces, the
      terminal shows the last frame. */
  lemma {:induction false} GlassFollows(t: Widths, s: Screen, frames: seq<Frame>, pieces: seq<seq<byte>>) returns (s': Screen)
    requires frames != [] && AllDrawable(t, frames) && SpaceIsNarrow(t) && Clearable(s, frames[0])
    requires Flat(pieces) == Stream(frames)
    ensures FeedAll(Executing(t), Fed(s, []), pieces) == Fed(s', []) && Displays(s', frames[|frames| - 1])
  {
    hide Exec, Displays, Clearable, SpaceIsNarrow, AllDrawable, Stream, Run;
    s' := StreamShows(t, s, frames);
    AnySplit(Executing(t), Fed(s, []), pieces);
  }
}
