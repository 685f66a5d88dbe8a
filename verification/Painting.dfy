/** Painting a span of one row: the terminal's row becomes the printed one, column by column. */
module Painting {
  import opened Basics
  import opened Lexer
  import opened Sgr
  import opened Cells
  import opened Screen
  import opened Printer
  import opened Reading

  predicate LinksIn(row: seq<Cell>, n: nat) {
    forall x :: 0 <= x < |row| ==> row[x].link <= n
  }

  predicate RowOk(row: seq<Cell>, n: nat) { Tidy(row) && LinksIn(row, n) }

  predicate RowsOk(grid: seq<seq<Cell>>, n: nat) {
    forall y :: 0 <= y < |grid| ==> RowOk(grid[y], n)
  }

  /** A terminal that the printer may address: modes at their defaults, and no half glyph but a
      wide one that stands alone in the last column. */
  predicate Ready(s: Screen) {
    var f := s.frame;
    && Shaped(f) && f.cols < U32_SIZE && f.rows < U32_SIZE
    && f.modes == DEFAULT_MODES
    && f.links.active <= |f.links.table|
    && RowsOk(f.grid, |f.links.table|)
  }

  /** Every cell but a continuation can be printed on its own. */
  predicate RowPrintable(t: Widths, l: Links, row: seq<Cell>) {
    forall x :: 0 <= x < |row| && row[x].width != 0 ==> GlyphOk(t, row[x]) && LinkOk(Resolve(l, row[x].link))
  }

  /** The row ends in a wide glyph that a terminal moves to the next line instead of writing
      it in the last column. */
  predicate Wraps(t: Widths, row: seq<Cell>) {
    row != [] && Visible(row)[|row| - 1] && row[|row| - 1].width == 2 && StandaloneWidth(t, row[|row| - 1].ch) == 2
  }

  /** A row that can be printed and stays on its line. */
  predicate RowDrawable(t: Widths, l: Links, row: seq<Cell>) {
    RowPrintable(t, l, row) && !Wraps(t, row)
  }

  /** What the printer believes is so. */
  predicate PenAt(s: Screen, p: Pencil) {
    && s.attr == p.attr
    && ActiveLink(s.frame) == p.link
    && (0 <= p.x < s.frame.cols && 0 <= p.y ==> s.frame.cursor == Cursor(p.x, p.y, false))
  }

  /** All but row `y`, cursor, combining target and link table is as before. */
  predicate OnlyRow(f: Frame, g: Frame, y: nat) {
    && y < |f.grid| == |g.grid|
    && g == f.(grid := g.grid, cursor := g.cursor, target := g.target, links := g.links)
    && g.grid == f.grid[y := g.grid[y]]
    && Grows(f.links, g.links)
  }

  lemma {:induction false} OnlyRowThen(f: Frame, g: Frame, h: Frame, y: nat)
    requires OnlyRow(f, g, y) && OnlyRow(g, h, y)
    ensures OnlyRow(f, h, y)
  {
    assert f.grid[y := g.grid[y]][y := h.grid[y]] == f.grid[y := h.grid[y]];
  }

  // ------------------------------------------------------------------- one row's cells

  /** Column `j` shows what is to be shown there, if anything. */
  predicate Matches(l: Links, row: seq<Cell>, m: Links, next: seq<Cell>, j: nat)
    requires j < |row| == |next|
  {
    Visible(next)[j] ==> Alike(l, row[j], m, next[j])
  }

  /** Column `j` is taken up by the glyphs painted from column `from` up to column `x`. */
  predicate Inked(next: seq<Cell>, from: nat, x: nat, j: nat) { from <= j < x && Occupied(next, j) }

  /** Column `j` held half of a wide glyph of which the other half is painted over. */
  predicate Torn(was: seq<Cell>, next: seq<Cell>, from: nat, x: nat, j: nat)
    requires j < |was|
  {
    (was[j].width == 2 && Inked(next, from, x, j + 1)) || (was[j].width == 0 && 0 < j && Inked(next, from, x, j - 1))
  }

  /** Column `j` is not painted: it is as it was, or blank if the other half of its glyph is
      gone. */
  predicate Spared(row: seq<Cell>, was: seq<Cell>, next: seq<Cell>, from: nat, x: nat, j: nat)
    requires j < |row| == |was|
  {
    if Torn(was, next, from, x, j) then IsErased(row[j]) else row[j] == was[j]
  }

  /** The glyphs of `from` to `x` are painted, and the rest is spared. */
  predicate RowPainted(l: Links, row: seq<Cell>, m: Links, next: seq<Cell>, was: seq<Cell>, from: nat, x: nat) {
    && |row| == |next| == |was| && from <= x <= |row|
    && (forall j :: from <= j < x ==> Matches(l, row, m, next, j))
    && (forall j :: 0 <= j < |row| && !Inked(next, from, x, j) ==> Spared(row, was, next, from, x, j))
  }

  lemma {:induction false} NothingPainted(l: Links, row: seq<Cell>, m: Links, next: seq<Cell>, x: nat)
    requires |row| == |next| && x <= |row|
    ensures RowPainted(l, row, m, next, row, x, x)
  {}

  lemma {:induction false} AlikeGrows(l: Links, a: Cell, m: Links, b: Cell, l': Links)
    requires Alike(l, a, m, b) && Grows(l, l') && a.link <= |l.table|
    ensures Alike(l', a, m, b)
  {}

  lemma {:induction false} RowPaintedGrows(l: Links, row: seq<Cell>, m: Links, next: seq<Cell>, was: seq<Cell>, from: nat, x: nat, l': Links)
    requires RowPainted(l, row, m, next, was, from, x) && Grows(l, l') && LinksIn(row, |l.table|)
    ensures RowPainted(l', row, m, next, was, from, x)
  {
    hide Spared, Inked, Visible;
    forall j | from <= j < x
      ensures Matches(l', row, m, next, j)
    {
      assert Matches(l, row, m, next, j);
      if Visible(next)[j] {
        AlikeGrows(l, row[j], m, next[j], l');
      }
    }
  }

  /** A column without glyph is passed over. */
  lemma {:induction false} RowSkip(l: Links, row: seq<Cell>, m: Links, next: seq<Cell>, was: seq<Cell>, from: nat, x: nat)
    requires RowPainted(l, row, m, next, was, from, x) && Bare(next, x)
    ensures RowPainted(l, row, m, next, was, from, x + 1)
  {
    hide Visible, UnderWide, Alike;
    assert Matches(l, row, m, next, x);
    var e := x + 1;
    forall j | 0 <= j < |row| && !Inked(next, from, e, j)
      ensures Spared(row, was, next, from, e, j)
    {
      assert Spared(row, was, next, from, x, j);
      assert Inked(next, from, e, j + 1) == Inked(next, from, x, j + 1);
      assert j > 0 ==> Inked(next, from, e, j - 1) == Inked(next, from, x, j - 1);
    }
  }

  function PastGlyph(x: nat, w: nat, n: nat): nat { if x + w <= n then x + w else n }

  /** Writing a glyph does not split the glyphs painted before it. */
  lemma {:induction false} PaintedStays(l: Links, row: seq<Cell>, m: Links, next: seq<Cell>, from: nat, x: nat, j: nat)
    requires |row| == |next| && Tidy(row) && x < |row| && Visible(next)[x] && j < x && Visible(next)[j] && Matches(l, row, m, next, j)
    ensures forall w: nat :: !Split(row, x, w, j)
  {
    hide Visible;
    assert TidyAt(row, x);
    VisibleAt(next, x);
  }

  lemma {:induction false} InkedHere(next: seq<Cell>, from: nat, x: nat)
    requires from <= x < |next| && Visible(next)[x] && 1 <= next[x].width <= 2
    ensures forall j: nat :: Inked(next, from, PastGlyph(x, next[x].width, |next|), j) <==>
      Inked(next, from, x, j) || (x <= j < x + next[x].width && j < |next|)
  {
    hide Visible;
    if next[x].width == 2 && x + 1 < |next| {
      assert Occupied(next, x + 1);
    }
  }

  /** What the write does to a column that is not painted. */
  lemma {:induction false} SparedStep(row: seq<Cell>, was: seq<Cell>, next: seq<Cell>, from: nat, x: nat, glyph: Cell, j: nat)
    requires |row| == |was| == |next| && Tidy(row) && from <= x < |row| && j < |row|
    requires Visible(next)[x] && glyph.width == next[x].width && 1 <= glyph.width <= 2
    requires (j < x || j >= x + glyph.width) && !Inked(next, from, x, j) && Spared(row, was, next, from, x, j)
    requires x > 0 ==> Inked(next, from, x, x - 1) || Spared(row, was, next, from, x, x - 1)
    ensures Spared(PutRow(row, x, glyph.width, glyph), was, next, from, PastGlyph(x, glyph.width, |row|), j)
  {
    hide PutRow, Visible, Occupied, Inked;
    var w := glyph.width;
    PutChangesOnly(row, x, w, glyph, j);
    InkedHere(next, from, x);
    InkedBefore(next, from, x);
    assert TidyAt(row, x) && TidyAt(row, j);
  }

  lemma {:induction false} InkedBefore(next: seq<Cell>, from: nat, x: nat)
    ensures forall j: nat :: Inked(next, from, x, j) ==> j < x
  {}

  /** Writing the glyph of column `x` paints its one or two columns. */
  lemma {:induction false} RowStep(l: Links, row: seq<Cell>, m: Links, next: seq<Cell>, was: seq<Cell>, from: nat, x: nat, glyph: Cell)
    requires RowPainted(l, row, m, next, was, from, x) && Tidy(row)
    requires x < |row| && Visible(next)[x] && Alike(l, glyph, m, next[x]) && 1 <= glyph.width <= 2
    ensures var w := glyph.width;
      && RowPainted(l, PutRow(row, x, w, glyph), m, next, was, from, PastGlyph(x, w, |row|))
      && Tidy(PutRow(row, x, w, glyph))
  {
    hide PutRow, Visible, Alike, Spared, Tidy, Inked, Split;
    ShowsWidth(l, glyph, m, next[x]);
    var w, e := glyph.width, PastGlyph(x, glyph.width, |row|);
    var r := PutRow(row, x, w, glyph);
    PutKeepsTidy(row, x, w, glyph);
    InkedHere(next, from, x);
    forall j | 0 <= j < |r|
      ensures from <= j < e ==> Matches(l, r, m, next, j)
      ensures !Inked(next, from, e, j) ==> Spared(r, was, next, from, e, j)
    {
      PutChangesOnly(row, x, w, glyph, j);
      if j < x || j >= x + w {
        if !Inked(next, from, x, j) {
          SparedStep(row, was, next, from, x, glyph, j);
        }
        if from <= j < x && Visible(next)[j] {
          assert Matches(l, row, m, next, j);
          PaintedStays(l, row, m, next, from, x, j);
        }
      } else {
        VisibleAt(next, j);
      }
    }
  }

  lemma {:induction false} ShowsWidth(l: Links, a: Cell, m: Links, b: Cell)
    requires Alike(l, a, m, b)
    ensures a.width == b.width
  {}

  // -------------------------------------------------------------------- one glyph

  lemma {:induction false} RowsOkSet(grid: seq<seq<Cell>>, y: nat, row: seq<Cell>, n: nat, n': nat)
    requires RowsOk(grid, n) && y < |grid| && n <= n' && RowOk(row, n')
    ensures RowsOk(grid[y := row], n')
  {}

  lemma {:induction false} PutLinks(row: seq<Cell>, x: nat, w: nat, glyph: Cell, n: nat)
    requires LinksIn(row, n) && glyph.link <= n && x < |row|
    ensures LinksIn(PutRow(row, x, w, glyph), n)
  {}

  /** The suffix does not matter to the cells around it. */
  lemma {:induction false} PutWithSuffix(row: seq<Cell>, x: nat, w: nat, glyph: Cell, suffix: seq<char>)
    requires x < |row| && glyph.suffix == []
    ensures PutRow(row, x, w, glyph)[x] == glyph
    ensures PutRow(row, x, w, glyph)[x := glyph.(suffix := suffix)] == PutRow(row, x, w, glyph.(suffix := suffix))
  {}

  function AfterGlyph(f: Frame, c: Cell): Frame
    requires Inside(f, f.cursor.x, f.cursor.y)
  {
    var x, y := f.cursor.x, f.cursor.y;
    var glyph := Glyph(c.ch, c.width, c.attr, f.links.active).(suffix := c.suffix);
    f.(grid := f.grid[y := PutRow(f.grid[y], x, c.width, glyph)],
       target := Target(x, y, true),
       cursor := if x + c.width >= f.cols then Cursor(SatSub(f.cols, 1), y, f.modes.autoWrap)
                 else Cursor(x + c.width, y, false))
  }

  /** The glyph can be written at the cursor without wrapping. */
  predicate Fits(t: Widths, f: Frame, c: Cell) {
    && Shaped(f) && f.modes == DEFAULT_MODES && !f.cursor.wrap
    && (f.cursor.x + c.width <= f.cols || StandaloneWidth(t, c.ch) != 2)
  }

  lemma {:induction false} PlacedFrame(t: Widths, f: Frame, c: Cell, attr: Attr)
    requires Fits(t, f, c) && attr == c.attr
    ensures var x, y := f.cursor.x, f.cursor.y;
            var g := Place(f, c.ch, c.width, attr);
      && Inside(f, x, y)
      && Inside(g, x, y) && g.target == Target(x, y, true)
      && g.grid[y][x] == Glyph(c.ch, c.width, c.attr, f.links.active)
      && WithSuffix(g, x, y, c.suffix) == AfterGlyph(f, c)
  {
    hide PutRow;
    var x, y := f.cursor.x, f.cursor.y;
    var glyph := Glyph(c.ch, c.width, c.attr, f.links.active);
    PutWithSuffix(f.grid[y], x, c.width, glyph, c.suffix);
    var g := Place(f, c.ch, c.width, attr);
    assert g.grid[y] == PutRow(f.grid[y], x, c.width, glyph);
    assert g.grid[y := g.grid[y][x := g.grid[y][x].(suffix := c.suffix)]] == AfterGlyph(f, c).grid;
  }

  lemma {:induction false} CellBytesOf(c: Cell)
    requires c.ch as nat >= 0x20
    ensures CellBytes(c) == EncodeChar(c.ch) + Characters(c.suffix)
  {
    assert EncodeChar(' ') == [' ' as byte];
    assert Characters([]) == [];
  }

  /** A printed cell is written where the cursor is, suffix and all. */
  lemma {:induction false} TakesCell(t: Widths, s: Screen, c: Cell)
    requires GlyphOk(t, c) && Fits(t, s.frame, c) && s.attr == c.attr
    ensures Takes(t, s, CellBytes(c), s.(frame := AfterGlyph(s.frame, c)))
  {
    hide Takes, CellBytes, DisplayWidth, StandaloneWidth, CanonicalAttr, Shaped, AfterGlyph, Place, WithSuffix, ContentLength;
    var x, y := s.frame.cursor.x, s.frame.cursor.y;
    var g := Place(s.frame, c.ch, c.width, s.attr);
    var s1 := s.(frame := g);
    PlacedFrame(t, s.frame, c, s.attr);
    CellBytesOf(c);
    TakesChar(t, s, c.ch);
    PrintPlaces(t, s, c.ch, c.width);
    assert c.suffix[..|c.suffix|] == c.suffix;
    TakesSuffix(t, s1, c, x, y, |c.suffix|);
    TakesThen(t, s, EncodeChar(c.ch), s1, Characters(c.suffix), s.(frame := AfterGlyph(s.frame, c)));
  }

  // ------------------------------------------------------------------ addressed cells

  /** Same but for cursor and combining target, with the cursor now at (x, y). */
  predicate Addressed(f: Frame, g: Frame, x: nat, y: nat) {
    g == f.(cursor := Cursor(x, y, false), target := g.target)
  }

  lemma {:induction false} MoveAddresses(f: Frame, x: nat, y: nat)
    requires x < f.cols && y < f.rows
    ensures Addressed(f, MoveTo(f, x, y), x, y)
  {}

  lemma {:induction false} PenKnows(s: Screen, p: Pencil, x: nat, y: nat)
    requires PenAt(s, p) && p.x == x && p.y == y && x < s.frame.cols
    ensures Addressed(s.frame, s.frame, x, y)
  {}

  lemma {:induction false} TakesAddress(t: Widths, s: Screen, p: Pencil, x: nat, y: nat) returns (s': Screen)
    requires Shaped(s.frame) && s.frame.cols < U32_SIZE && s.frame.rows < U32_SIZE && !s.frame.modes.origin
    requires PenAt(s, p) && x < s.frame.cols && y < s.frame.rows
    ensures Takes(t, s, if p.x != x || p.y != y then Cup(y, x) else [], s')
    ensures Addressed(s.frame, s'.frame, x, y) && s' == s.(frame := s'.frame)
  {
    hide Takes, Cup, MoveTo;
    if p.x != x || p.y != y {
      s' := s.(frame := MoveTo(s.frame, x, y));
      TakesCup(t, s, y, x);
      MoveAddresses(s.frame, x, y);
    } else {
      s' := s;
      TakesNothing(t, s);
      PenKnows(s, p, x, y);
    }
  }

  /** Link, attributes and glyph at the cursor. */
  lemma {:induction false} TakesDressedCell(t: Widths, s: Screen, c: Cell, link: Option<Hyperlink>) returns (s': Screen)
    requires GlyphOk(t, c) && LinkOk(link) && Fits(t, s.frame, c) && s.frame.links.active <= |s.frame.links.table|
    ensures Takes(t, s, LinkDiff(ActiveLink(s.frame), link) + (AttrDiff(s.attr, c.attr) + CellBytes(c)), s')
    ensures var m := s'.frame.links;
      && Grows(s.frame.links, m) && Resolve(m, m.active) == link && m.active <= |m.table|
      && s' == s.(attr := c.attr, frame := AfterGlyph(s.frame.(links := m), c))
  {
    hide Takes, LinkDiff, AttrDiff, CellBytes, Shaped, AfterGlyph, DisplayWidth, StandaloneWidth, ContentLength;
    var m := TakesLinkDiff(t, s, link);
    var s1 := s.(frame := s.frame.(links := m));
    var s2 := s1.(attr := c.attr);
    LinksKeepShape(s.frame, m);
    FitsInside(t, s2.frame, c);
    s' := s2.(frame := AfterGlyph(s2.frame, c));
    TakesAttr(t, s1, c.attr);
    TakesCell(t, s2, c);
    AfterGlyphLinks(s2.frame, c);
    TakesThen(t, s1, AttrDiff(s.attr, c.attr), s2, CellBytes(c), s');
    TakesThen(t, s, LinkDiff(ActiveLink(s.frame), link), s1, AttrDiff(s.attr, c.attr) + CellBytes(c), s');
  }

  lemma {:induction false} FitsInside(t: Widths, f: Frame, c: Cell)
    requires Fits(t, f, c)
    ensures Inside(f, f.cursor.x, f.cursor.y)
  {}

  lemma {:induction false} LinksKeepShape(f: Frame, m: Links)
    ensures Shaped(f.(links := m)) == Shaped(f)
  {}

  lemma {:induction false} AfterGlyphLinks(f: Frame, c: Cell)
    requires Inside(f, f.cursor.x, f.cursor.y)
    ensures AfterGlyph(f, c).links == f.links
  {}

  /** What a cell painted at (x, y) leaves behind. */
  predicate CellPainted(s: Screen, s': Screen, l: Links, c: Cell, y: nat, x: nat, glyph: Cell) {
    && OnlyRow(s.frame, s'.frame, y) && x < |s.frame.grid[y]| && s'.frame.cursor.y == y
    && s' == s.(attr := c.attr, frame := s'.frame)
    && Alike(s'.frame.links, glyph, l, c)
    && glyph.link <= |s'.frame.links.table| && s'.frame.links.active <= |s'.frame.links.table|
    && s'.frame.grid[y] == PutRow(s.frame.grid[y], x, c.width, glyph)
  }

  lemma {:induction false} AfterGlyphPaints(s: Screen, s1: Screen, s': Screen, l: Links, c: Cell, y: nat, x: nat)
    requires Shaped(s.frame) && x < s.frame.cols && y < s.frame.rows && 1 <= c.width
    requires Addressed(s.frame, s1.frame, x, y) && s1 == s.(frame := s1.frame)
    requires var m := s'.frame.links;
      && Grows(s.frame.links, m) && Resolve(m, m.active) == Resolve(l, c.link) && m.active <= |m.table|
      && s' == s1.(attr := c.attr, frame := AfterGlyph(s1.frame.(links := m), c))
    ensures CellPainted(s, s', l, c, y, x, Glyph(c.ch, c.width, c.attr, s'.frame.links.active).(suffix := c.suffix))
    ensures PenAt(s', Pencil(c.attr, Resolve(l, c.link), NextColumn(c, x), y))
  {
    hide PutRow;
  }

  lemma {:induction false} TakesPaintCell(t: Widths, s: Screen, l: Links, c: Cell, y: nat, x: nat, p: Pencil) returns (s': Screen, glyph: Cell)
    requires Ready(s) && PenAt(s, p) && y < s.frame.rows && x < s.frame.cols
    requires x + c.width <= s.frame.cols || StandaloneWidth(t, c.ch) != 2
    requires GlyphOk(t, c) && LinkOk(Resolve(l, c.link))
    ensures var a := PaintCell(l, c, y, x, p);
      Takes(t, s, a.bytes, s') && PenAt(s', a.pencil) && CellPainted(s, s', l, c, y, x, glyph)
  {
    hide Takes, LinkDiff, AttrDiff, CellBytes, Cup, Shaped, AfterGlyph, RowsOk, DisplayWidth, StandaloneWidth, ContentLength, OnlyRow;
    var s1 := TakesAddress(t, s, p, x, y);
    AddressedKeepsShape(s.frame, s1.frame, x, y);
    s' := TakesDressedCell(t, s1, c, Resolve(l, c.link));
    glyph := Glyph(c.ch, c.width, c.attr, s'.frame.links.active).(suffix := c.suffix);
    AfterGlyphPaints(s, s1, s', l, c, y, x);
    TakesThen(t, s, if p.x != x || p.y != y then Cup(y, x) else [], s1,
              LinkDiff(p.link, Resolve(l, c.link)) + (AttrDiff(p.attr, c.attr) + CellBytes(c)), s');
  }

  lemma {:induction false} AddressedKeepsShape(f: Frame, g: Frame, x: nat, y: nat)
    requires Addressed(f, g, x, y) && x < f.cols && y < f.rows
    ensures Shaped(f) ==> Shaped(g)
  {}

  // --------------------------------------------------------------------- whole spans

  lemma {:induction false} OnlyRowReady(s: Screen, s': Screen, y: nat)
    requires Ready(s) && OnlyRow(s.frame, s'.frame, y) && Shaped(s'.frame)
    requires s'.frame.links.active <= |s'.frame.links.table|
    requires RowOk(s'.frame.grid[y], |s'.frame.links.table|)
    ensures Ready(s')
  {
    RowsOkSet(s.frame.grid, y, s'.frame.grid[y], |s.frame.links.table|, |s'.frame.links.table|);
  }

  lemma {:induction false} TakesKeepsShape(t: Widths, s: Screen, bytes: seq<byte>, s': Screen)
    requires Takes(t, s, bytes, s') && Shaped(s.frame)
    ensures Shaped(s'.frame)
  {
    hide Shaped, Run, Executing;
    RunKeepsShape(t, s, [] + bytes);
  }

  lemma {:induction false} CellStepRow(s: Screen, s': Screen, l: Links, next: seq<Cell>, was: seq<Cell>, y: nat, from: nat, x: nat, glyph: Cell)
    requires Ready(s) && y < s.frame.rows && x < |next| && CellPainted(s, s', l, next[x], y, x, glyph)
    requires RowPainted(s.frame.links, s.frame.grid[y], l, next, was, from, x)
    requires Visible(next)[x] && 1 <= next[x].width <= 2
    ensures RowPainted(s'.frame.links, s'.frame.grid[y], l, next, was, from, PastGlyph(x, next[x].width, |next|))
    ensures RowOk(s'.frame.grid[y], |s'.frame.links.table|)
  {
    hide Shaped, RowPainted, Tidy, LinksIn, PutRow, Visible, Alike, Resolve;
    var row, m := s.frame.grid[y], s'.frame.links;
    ReadyRow(s, y);
    ShowsWidth(m, glyph, l, next[x]);
    LinksInMore(row, |s.frame.links.table|, |m.table|);
    RowPaintedGrows(s.frame.links, row, l, next, was, from, x, m);
    PaintedLength(s.frame.links, row, l, next, was, from, x);
    RowStep(m, row, l, next, was, from, x, glyph);
    PutLinks(row, x, glyph.width, glyph, |m.table|);
  }

  lemma {:induction false} PaintedLength(l: Links, row: seq<Cell>, m: Links, next: seq<Cell>, was: seq<Cell>, from: nat, x: nat)
    requires RowPainted(l, row, m, next, was, from, x)
    ensures |row| == |next| == |was|
  {}

  lemma {:induction false} LinksInMore(row: seq<Cell>, n: nat, m: nat)
    requires LinksIn(row, n) && n <= m
    ensures LinksIn(row, m)
  {}

  lemma {:induction false} ReadyRow(s: Screen, y: nat)
    requires Ready(s) && y < s.frame.rows
    ensures y < |s.frame.grid| && |s.frame.grid[y]| == s.frame.cols
    ensures Tidy(s.frame.grid[y]) && LinksIn(s.frame.grid[y], |s.frame.links.table|)
  {
    assert RowOk(s.frame.grid[y], |s.frame.links.table|);
  }

  /** One glyph of the printed row. */
  lemma {:induction false} TakesColumn(t: Widths, s: Screen, l: Links, next: seq<Cell>, was: seq<Cell>, y: nat, from: nat, x: nat, p: Pencil) returns (s': Screen)
    requires Ready(s) && PenAt(s, p) && y < s.frame.rows && x < |next| == s.frame.cols
    requires RowDrawable(t, l, next) && Visible(next)[x]
    requires RowPainted(s.frame.links, s.frame.grid[y], l, next, was, from, x)
    ensures var a := PaintCell(l, next[x], y, x, p);
      && Takes(t, s, a.bytes, s') && PenAt(s', a.pencil)
      && Ready(s') && OnlyRow(s.frame, s'.frame, y) && s'.saved == s.saved && s'.frame.cursor.y == y
      && RowPainted(s'.frame.links, s'.frame.grid[y], l, next, was, from, PastGlyph(x, next[x].width, |next|))
  {
    hide Takes, PaintCell, Ready, PenAt, RowPainted, OnlyRow, GlyphOk, LinkOk, RowOk, Resolve, Alike, PutRow, RowDrawable, StandaloneWidth, Visible;
    GlyphInRow(t, l, next, x);
    var glyph: Cell;
    s', glyph := TakesPaintCell(t, s, l, next[x], y, x, p);
    CellStepRow(s, s', l, next, was, y, from, x, glyph);
    ReadyShaped(s);
    TakesKeepsShape(t, s, PaintCell(l, next[x], y, x, p).bytes, s');
    OnlyRowReady(s, s', y);
  }

  lemma {:induction false} ReadyShaped(s: Screen)
    requires Ready(s)
    ensures Shaped(s.frame)
  {}

  lemma {:induction false} GlyphInRow(t: Widths, l: Links, row: seq<Cell>, x: nat)
    requires RowDrawable(t, l, row) && x < |row| && Visible(row)[x]
    ensures GlyphOk(t, row[x]) && LinkOk(Resolve(l, row[x].link)) && 1 <= row[x].width <= 2
    ensures x + row[x].width <= |row| || StandaloneWidth(t, row[x].ch) != 2
  {
    hide Visible, DisplayWidth, LinkOk, CanonicalAttr, ContentLength;
    VisibleAt(row, x);
  }

  /** Where the painting of columns up to `x` has got to. */
  function NextFree(row: seq<Cell>, x: nat): nat
    requires x <= |row|
  {
    if x < |row| && UnderWide(row, x) then x + 1 else x
  }

  /** A column without glyph is passed over. */
  lemma {:induction false} PaintSkips(l: Links, next: seq<Cell>, y: nat, x: nat, end: nat, p: Pencil)
    requires x < end <= |next|
    ensures !Visible(next)[x] ==> PaintFrom(l, next, y, x, end, p) == PaintFrom(l, next, y, x + 1, end, p)
    ensures Visible(next)[x] ==>
      var a := PaintCell(l, next[x], y, x, p);
      var b := PaintFrom(l, next, y, x + 1, end, a.pencil);
      PaintFrom(l, next, y, x, end, p) == Painted(a.bytes + b.bytes, b.pencil)
  {
    hide PaintCell, Visible;
  }

  /** After the glyph of column `x` comes the column past it. */
  lemma {:induction false} AfterWide(l: Links, next: seq<Cell>, y: nat, x: nat, end: nat, p: Pencil)
    requires x < end <= |next| && Visible(next)[x] && 1 <= next[x].width <= 2
    ensures var e := PastGlyph(x, next[x].width, |next|);
      && !(e < |next| && UnderWide(next, e))
      && (if e <= end then PaintFrom(l, next, y, x + 1, end, p) == PaintFrom(l, next, y, e, end, p)
          else x + 1 == end && NextFree(next, end) == e)
  {
    hide PaintFrom, Visible;
    if next[x].width == 2 && x + 1 < |next| {
      VisibleAt(next, x + 1);
      if x + 2 <= end {
        PaintSkips(l, next, y, x + 1, end, p);
      }
    }
  }

  lemma {:induction false} BareIs(next: seq<Cell>, x: nat)
    requires x < |next| && !Visible(next)[x] && !UnderWide(next, x)
    ensures Bare(next, x) && (x + 1 < |next| ==> !UnderWide(next, x + 1))
  {}

  lemma {:induction false} PaintNothing(l: Links, next: seq<Cell>, y: nat, end: nat, p: Pencil)
    requires end <= |next|
    ensures PaintFrom(l, next, y, end, end, p) == Painted([], p)
  {}

  /** Columns `x` to `end` of the printed row. */
  lemma {:induction false} TakesSpan(t: Widths, s: Screen, l: Links, next: seq<Cell>, was: seq<Cell>, y: nat, from: nat, x: nat, end: nat, p: Pencil) returns (s': Screen)
    requires Ready(s) && PenAt(s, p) && y < s.frame.rows && x <= end <= |next| == s.frame.cols
    requires RowDrawable(t, l, next) && (x < |next| ==> !UnderWide(next, x))
    requires RowPainted(s.frame.links, s.frame.grid[y], l, next, was, from, x)
    ensures var a := PaintFrom(l, next, y, x, end, p);
      && Takes(t, s, a.bytes, s') && PenAt(s', a.pencil)
      && Ready(s') && OnlyRow(s.frame, s'.frame, y) && s'.saved == s.saved
      && (s'.frame.cursor.y == y || s'.frame.cursor == s.frame.cursor)
      && RowPainted(s'.frame.links, s'.frame.grid[y], l, next, was, from, NextFree(next, end))
    decreases end - x
  {
    hide Takes, PaintCell, PaintFrom, Ready, PenAt, RowPainted, OnlyRow, RowDrawable, Visible, Bare, UnderWide;
    if x == end {
      s' := s;
      PaintNothing(l, next, y, end, p);
      TakesNothing(t, s);
      OnlyRowSame(s, y);
    } else if !Visible(next)[x] {
      ReadyRow(s, y);
      BareIs(next, x);
      PaintSkips(l, next, y, x, end, p);
      RowSkip(s.frame.links, s.frame.grid[y], l, next, was, from, x);
      s' := TakesSpan(t, s, l, next, was, y, from, x + 1, end, p);
    } else {
      var a, e := PaintCell(l, next[x], y, x, p), PastGlyph(x, next[x].width, |next|);
      GlyphInRow(t, l, next, x);
      var s1 := TakesColumn(t, s, l, next, was, y, from, x, p);
      PaintSkips(l, next, y, x, end, p);
      AfterWide(l, next, y, x, end, a.pencil);
      if e <= end {
        OnlyRowSize(s.frame, s1.frame, y);
        s' := TakesSpan(t, s1, l, next, was, y, from, e, end, a.pencil);
        OnlyRowThen(s.frame, s1.frame, s'.frame, y);
        TakesThen(t, s, a.bytes, s1, PaintFrom(l, next, y, e, end, a.pencil).bytes, s');
      } else {
        s' := s1;
        PaintNothing(l, next, y, end, a.pencil);
        assert a.bytes + [] == a.bytes;
      }
    }
  }

  lemma {:induction false} OnlyRowSame(s: Screen, y: nat)
    requires Ready(s) && y < s.frame.rows
    ensures OnlyRow(s.frame, s.frame, y)
  {}

  lemma {:induction false} OnlyRowSize(f: Frame, g: Frame, y: nat)
    requires OnlyRow(f, g, y)
    ensures g.cols == f.cols && g.rows == f.rows
  {}
}
