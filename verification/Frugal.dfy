/** The printer prints nothing exactly when nothing that it shows has changed. */
module Frugal {
  import opened Basics
  import opened Lexer
  import opened Sgr
  import opened Cells
  import opened Screen
  import opened Printer

  /** Every glyph that is to be seen is there already. */
  predicate RowStands(next: Frame, prev: Frame, y: nat)
    requires SameSize(next, prev) && y < next.rows
  {
    forall x :: 0 <= x < next.cols && Visible(next.grid[y])[x] ==>
      && Visible(prev.grid[y])[x]
      && var a, b := next.grid[y][x], prev.grid[y][x];
         && a.ch == b.ch && a.width == b.width && a.attr == b.attr && a.suffix == b.suffix
         && Resolve(next.links, a.link) == Resolve(prev.links, b.link)
  }

  /** A title that is taken away is not printed: there is no command for it. */
  predicate TitleStands(next: Option<seq<byte>>, prev: Option<seq<byte>>) { next == prev || next == None }

  predicate AllStands(next: Frame, prev: Frame)
    requires SameSize(next, prev)
  {
    && (forall y :: 0 <= y < next.rows ==> RowStands(next, prev, y))
    && next.effects.bells == prev.effects.bells && next.effects.clipboard == prev.effects.clipboard
    && TitleStands(next.effects.icon, prev.effects.icon) && TitleStands(next.effects.title, prev.effects.title)
    && next.switches == prev.switches && next.margins == prev.margins
    && next.cursor.x == prev.cursor.x && next.cursor.y == prev.cursor.y
    && Resolve(next.links, next.links.active) == Resolve(prev.links, prev.links.active)
  }

  lemma {:induction false} NoChange(next: Frame, prev: Frame, y: nat)
    requires SameSize(next, prev) && y < next.rows
    ensures !RowChanged(next, prev, y) <==> RowStands(next, prev, y)
    ensures RowChanged(next, prev, y) <==>
      FirstChanged(next.links, next.grid[y], prev.links, prev.grid[y], 0) <= LastChanged(next.links, next.grid[y], prev.links, prev.grid[y], next.cols)
  {
    var k := FirstChanged(next.links, next.grid[y], prev.links, prev.grid[y], 0);
    if k < next.cols {
      assert Changed(next.links, next.grid[y], prev.links, prev.grid[y], k);
    } else {
      forall x | 0 <= x < next.cols && Visible(next.grid[y])[x]
        ensures Visible(prev.grid[y])[x] && Alike(next.links, next.grid[y][x], prev.links, prev.grid[y][x])
      {
        assert !Changed(next.links, next.grid[y], prev.links, prev.grid[y], x);
      }
    }
  }

  lemma {:induction false} SomeBytes(c: Cell)
    ensures CellBytes(c) != []
  {
    if !(c.ch == '\0' || (c.ch == ' ' && c.suffix == [])) {
      assert |EncodeChar(c.ch)| > 0;
    }
  }

  lemma {:induction false} SpanPrinted(l: Links, row: seq<Cell>, y: nat, x: nat, end: nat, p: Pencil)
    requires x < end <= |row| && Visible(row)[x]
    ensures PaintFrom(l, row, y, x, end, p).bytes != []
  {
    hide CellBytes, AttrDiff, LinkDiff, Cup;
    SomeBytes(row[x]);
  }

  /** A row is painted exactly if something to be seen on it is new. */
  lemma {:induction false} RowPrinted(next: Frame, prev: Frame, y: nat, p: Pencil)
    requires SameSize(next, prev) && y < next.rows
    ensures PaintRow(next, prev, y, p).bytes == [] <==> RowStands(next, prev, y)
    ensures RowStands(next, prev, y) ==> PaintRow(next, prev, y, p) == Painted([], p)
  {
    hide RowStands, PaintFrom;
    NoChange(next, prev, y);
    if RowChanged(next, prev, y) {
      var first := FirstChanged(next.links, next.grid[y], prev.links, prev.grid[y], 0);
      var last := LastChanged(next.links, next.grid[y], prev.links, prev.grid[y], next.cols);
      assert Changed(next.links, next.grid[y], prev.links, prev.grid[y], first);
      SpanPrinted(next.links, next.grid[y], y, first, last + 1, p);
    }
  }

  lemma {:induction false} RowsPrinted(next: Frame, prev: Frame, y: nat, p: Pencil)
    requires SameSize(next, prev) && y <= next.rows
    ensures PaintRows(next, prev, y, p).bytes == [] <==> forall j :: y <= j < next.rows ==> RowStands(next, prev, j)
    ensures PaintRows(next, prev, y, p).bytes == [] ==> PaintRows(next, prev, y, p) == Painted([], p)
    decreases next.rows - y
  {
    hide RowStands, PaintRow;
    if y < next.rows {
      RowPrinted(next, prev, y, p);
      RowsPrinted(next, prev, y + 1, PaintRow(next, prev, y, p).pencil);
    }
  }

  lemma {:induction false} ChangedRows(next: Frame, prev: Frame)
    requires SameSize(next, prev)
    ensures !CellsChanged(next, prev) <==> forall j :: 0 <= j < next.rows ==> RowStands(next, prev, j)
  {
    hide RowStands, RowChanged;
    forall y | 0 <= y < next.rows ensures !RowChanged(next, prev, y) <==> RowStands(next, prev, y) {
      NoChange(next, prev, y);
    }
  }

  lemma {:induction false} EffectsPrinted(next: Frame, prev: Frame)
    ensures EffectBytes(next, Some(prev), false) == [] <==>
      && next.effects.bells == prev.effects.bells && next.effects.clipboard == prev.effects.clipboard
      && TitleStands(next.effects.icon, prev.effects.icon) && TitleStands(next.effects.title, prev.effects.title)
  {
    hide ValueOr;
  }

  lemma {:induction false} ModePrinted(mode: nat, on: bool)
    ensures PrivateMode(mode, on) != []
  {}

  lemma {:induction false} SwitchPrinted(mode: nat, next: bool, prev: bool)
    ensures SwitchDiff(mode, next, prev, false) == [] <==> next == prev
  {
    ModePrinted(mode, next);
  }

  lemma {:induction false} ChoicePrinted(next: nat, prev: nat, all: seq<nat>)
    ensures ChoiceDiff(next, prev, all, false) == [] <==> next == prev
  {
    ModePrinted(next, true);
    ModePrinted(prev, false);
  }

  lemma {:induction false} SwitchesPrinted(n: Switches, p: Switches)
    ensures SwitchBytes(n, p, false) == [] <==> n == p.(cursorVisible := n.cursorVisible)
  {
    hide SwitchDiff, ChoiceDiff;
    SwitchPrinted(5, n.reverseVideo, p.reverseVideo);
    SwitchPrinted(2004, n.bracketedPaste, p.bracketedPaste);
    ChoicePrinted(n.mouseReporting, p.mouseReporting, REPORTING_MODES);
    SwitchPrinted(1004, n.mouseFocus, p.mouseFocus);
    ChoicePrinted(n.mouseEncoding, p.mouseEncoding, ENCODING_MODES);
  }

  lemma {:induction false} MetadataPrinted(next: Frame, prev: Frame)
    ensures Metadata(next, Some(prev), false) == [] <==>
      && EffectBytes(next, Some(prev), false) == []
      && SwitchBytes(next.switches, prev.switches, false) == [] && next.margins == prev.margins
  {
    hide EffectBytes, SwitchBytes;
  }

  lemma {:induction false} ClosingPrinted(next: Frame, prev: Frame)
    ensures Closing(next, prev, false, Pencil(PLAIN, ActiveLink(prev), -1, -1)) == [] <==>
      && ActiveLink(next) == ActiveLink(prev) && next.margins == prev.margins
      && next.cursor.x == prev.cursor.x && next.cursor.y == prev.cursor.y
      && next.switches.cursorVisible == prev.switches.cursorVisible
  {
    ModePrinted(25, next.switches.cursorVisible);
    LinkPrinted(ActiveLink(prev), ActiveLink(next));
    hide PrivateMode, LinkDiff;
  }

  lemma {:induction false} LinkPrinted(cur: Option<Hyperlink>, next: Option<Hyperlink>)
    ensures LinkDiff(cur, next) == [] <==> cur == next
  {}

  /** The difference of two frames of one size is empty exactly if all that is to be seen, rung, named,
      copied or switched stands already. */
  lemma {:induction false} NothingToPrint(next: Frame, prev: Frame)
    requires SameSize(next, prev)
    ensures FrameDiff(next, Some(prev)) == [] <==> AllStands(next, prev)
  {
    hide RowStands, PaintRows, EffectBytes, SwitchBytes, Closing, Metadata, CellsChanged, TitleStands;
    var p := Pencil(PLAIN, ActiveLink(prev), -1, -1);
    RowsPrinted(next, prev, 0, p);
    ChangedRows(next, prev);
    EffectsPrinted(next, prev);
    SwitchesPrinted(next.switches, prev.switches);
    MetadataPrinted(next, prev);
    ClosingPrinted(next, prev);
    ModePrinted(25, false);
    assert next.switches == prev.switches <==>
      next.switches == prev.switches.(cursorVisible := next.switches.cursorVisible) && next.switches.cursorVisible == prev.switches.cursorVisible;
  }

  /** A frame that is shown already takes no bytes. */
  lemma {:induction false} SameFrame(f: Frame)
    requires Shaped(f)
    ensures FrameDiff(f, Some(f)) == []
  {
    NothingToPrint(f, f);
  }

  // --------------------------------------------------------------------- cursor addresses

  /** Terminals disagree about the width of wide glyphs, unless another one is to join it. */
  predicate Doubtful(c: Cell) {
    c.width == 2 && (c.suffix == [] || c.suffix[|c.suffix| - 1] != '\U{200D}')
  }

  lemma {:induction false} SkipsHidden(l: Links, row: seq<Cell>, y: nat, x: nat, n: nat, end: nat, p: Pencil)
    requires x <= n <= end <= |row| && forall j :: x <= j < n ==> !Visible(row)[j]
    ensures PaintFrom(l, row, y, x, end, p) == PaintFrom(l, row, y, n, end, p)
    decreases n - x
  {
    hide Visible, PaintCell;
    if x < n {
      SkipsHidden(l, row, y, x + 1, n, end, p);
    }
  }

  /** The cursor is known at column `n`, or addressed there first. */
  lemma {:induction false} AddressFirst(l: Links, row: seq<Cell>, y: nat, n: nat, end: nat, p: Pencil)
    requires n < end <= |row| && Visible(row)[n]
    ensures PaintFrom(l, row, y, n, end, p).bytes
         == (if p.x == n && p.y == y then [] else Cup(y, n)) + PaintFrom(l, row, y, n, end, p.(x := n, y := y)).bytes
  {
    hide Visible, LinkDiff, AttrDiff, CellBytes, Cup;
    var a, b := PaintCell(l, row[n], y, n, p), PaintCell(l, row[n], y, n, p.(x := n, y := y));
    var head := if p.x == n && p.y == y then [] else Cup(y, n);
    assert a.pencil == b.pencil && a.bytes == head + b.bytes;
    assert head + b.bytes + PaintFrom(l, row, y, n + 1, end, a.pencil).bytes == head + (b.bytes + PaintFrom(l, row, y, n + 1, end, a.pencil).bytes);
  }

  lemma {:induction false} OneGlyph(l: Links, row: seq<Cell>, y: nat, x: nat, p: Pencil)
    requires x < |row| && Visible(row)[x]
    ensures PaintFrom(l, row, y, x, x + 1, p) == PaintCell(l, row[x], y, x, p)
  {
    hide Visible, PaintCell;
    var a := PaintCell(l, row[x], y, x, p);
    assert a.bytes + [] == a.bytes;
  }

  /** Between a glyph and the next one to its right the cursor is addressed exactly after a doubtful glyph,
      or if there are columns in between that nothing is written on. */
  lemma {:induction false} AddressedBetween(l: Links, row: seq<Cell>, y: nat, x: nat, n: nat, end: nat, p: Pencil)
    requires x < n < end <= |row| && Visible(row)[x] && Visible(row)[n] && forall j :: x < j < n ==> !Visible(row)[j]
    ensures var a, c := PaintFrom(l, row, y, x, x + 1, p), row[x];
      PaintFrom(l, row, y, x, end, p).bytes
        == a.bytes + ((if Doubtful(c) || n != x + Taken(c.width) then Cup(y, n) else [])
                      + PaintFrom(l, row, y, n, end, Pencil(c.attr, Resolve(l, c.link), n, y)).bytes)
  {
    hide Visible, LinkDiff, AttrDiff, CellBytes, Cup;
    OneGlyph(l, row, y, x, p);
    var a := PaintCell(l, row[x], y, x, p);
    assert a.pencil == Pencil(row[x].attr, Resolve(l, row[x].link), if Doubtful(row[x]) then -1 else x + Taken(row[x].width), y);
    hide PaintCell;
    SkipsHidden(l, row, y, x + 1, n, end, a.pencil);
    AddressFirst(l, row, y, n, end, a.pencil);
  }

  /** How many columns a glyph takes. */
  function Taken(width: nat): nat { if width > 1 then width else 1 }

  // -------------------------------------------------------------------------- attributes

  /** Something of the pen is to go: then all of it goes first, and else nothing does. */
  predicate TakenAway(cur: Attr, next: Attr) {
    || (cur.bold && !next.bold) || (cur.dim && !next.dim) || (cur.italic && !next.italic) || (cur.under && !next.under)
    || (cur.blink && !next.blink) || (cur.reverse && !next.reverse) || (cur.conceal && !next.conceal)
    || (cur.strike && !next.strike) || (cur.fg != Default && next.fg == Default) || (cur.bg != Default && next.bg == Default)
  }

  lemma {:induction false} FlagsFirst(cur: Attr, next: Attr, k: nat, rest: seq<nat>)
    requires k <= FLAGS && (rest != [] ==> rest[0] != 0)
    ensures var codes := FlagCodes(cur, next, k, rest); codes != [] ==> codes[0] != 0
    decreases FLAGS - k
  {
    hide Flag;
    if k < FLAGS {
      FlagsFirst(cur, next, k + 1, rest);
    }
  }

  lemma {:induction false} ColorsFirst(cur: Attr, next: Attr)
    ensures var codes := Colors(cur, next); codes != [] ==> codes[0] != 0
  {
    ColorFirst(next.fg, true);
    ColorFirst(next.bg, false);
    hide ColorCodes;
  }

  lemma {:induction false} ColorFirst(c: Color, foreground: bool)
    ensures ColorCodes(c, foreground)[0] != 0
  {}

  /** The codes for a change of the pen start with a reset exactly if something is taken away. */
  lemma {:induction false} ResetFirst(cur: Attr, next: Attr)
    ensures TakenAway(cur, next) ==> DiffCodes(cur, next) != [] && DiffCodes(cur, next)[0] == 0
    ensures !TakenAway(cur, next) && DiffCodes(cur, next) != [] ==> DiffCodes(cur, next)[0] != 0
  {
    ColorsFirst(cur, next);
    FlagsFirst(cur, next, 0, Colors(cur, next));
    hide FlagCodes, Colors;
    assert TakenAway(cur, next) == NeedsReset(cur, next);
  }

  // ------------------------------------------------------------------------ full redraws

  predicate BareBlank(c: Cell) { (c.ch == ' ' || c.ch == '\0') && c.suffix == [] && c.attr == PLAIN && c.link == 0 }

  /** A redrawn row is printed up to its last visible cell that is not bare, and no further. */
  lemma {:induction false} InkEndIs(row: seq<Cell>, n: nat)
    requires n <= |row|
    ensures var k := InkEnd(row, n);
      && (forall x :: k <= x < n && Visible(row)[x] ==> BareBlank(row[x]))
      && (k > 0 ==> Visible(row)[k - 1] && !BareBlank(row[k - 1]))
  {
    hide Visible;
    if n > 0 {
      InkEndIs(row, n - 1);
    }
  }
}
