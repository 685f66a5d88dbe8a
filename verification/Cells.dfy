/** Cells and rows of the character grid, and how single glyphs change a row. */
module Cells {
  import opened Basics
  import opened Lexer
  import opened Sgr

  const NBSP: char := '\U{A0}'
  const JOINER: char := '\U{200D}'
  const MAX_GRAPHEME_BYTES: nat := 32

  /** The Unicode width table: no width for control characters, else 0, 1 or 2 columns. */
  type Widths = char -> Option<nat>

  predicate XtermNarrow(cp: nat) {
    || cp in {0x17a4, 0x17d8, 0x31ef}
    || 0x2630 <= cp <= 0x2637 || 0x268a <= cp <= 0x268f || 0x2ffc <= cp <= 0x2fff
    || 0x31e4 <= cp <= 0x31e5 || 0x4dc0 <= cp <= 0x4dff
  }

  function DisplayWidth(t: Widths, ch: char): Option<nat> {
    var cp := ch as nat;
    if cp == 0x3164 then Some(2)
    else if XtermNarrow(cp) then Some(1)
    else match t(ch)
      case None => None
      case Some(w) => Some(if w < 2 then w else 2)
  }

  predicate SpaceIsNarrow(t: Widths) { DisplayWidth(t, ' ') == Some(1) }

  /** Width of the character on its own at the right margin of xterm.js. */
  function StandaloneWidth(t: Widths, ch: char): nat {
    var w := DisplayWidth(t, ch);
    if w.None? then 0 else if ch as nat > 0xffff && w.value > 1 then 1 else w.value
  }

  /** A cell; `suffix` extends `ch` to one grapheme. The continuation of a wide glyph has
      width 0. */
  datatype Cell = Cell(ch: char, width: nat, attr: Attr, link: nat, suffix: seq<char>, empty: bool)

  const BLANK := Cell(' ', 1, PLAIN, 0, [], true)

  function Erased(background: Color): Cell {
    BLANK.(attr := PLAIN.(bg := background))
  }

  function Continuation(background: Color): Cell {
    Erased(background).(width := 0)
  }

  function Utf8Length(s: seq<char>): nat {
    if s == [] then 0 else Utf8Length(s[..|s| - 1]) + |EncodeChar(s[|s| - 1])|
  }

  function ContentLength(c: Cell): nat {
    if c.empty then 0
    else (if c.ch == NBSP && c.suffix != [] then 0 else |EncodeChar(c.ch)|) + Utf8Length(c.suffix)
  }

  /** Starts a cell with a combining character on a no-break space. */
  function StartFallback(c: Cell, ch: char): Cell {
    c.(ch := NBSP, width := 1, suffix := [ch], empty := false)
  }

  function AppendChar(c: Cell, ch: char): Cell {
    if ContentLength(c) >= MAX_GRAPHEME_BYTES then c else c.(suffix := c.suffix + [ch])
  }

  // ---------------------------------------------------------------------------- rows

  predicate Wide(row: seq<Cell>, x: nat) { x < |row| && row[x].width == 2 }

  predicate Hidden(row: seq<Cell>, x: nat) { x < |row| && row[x].width == 0 }

  /** The wide owner of a continuation about to be overwritten is cleared. */
  function ClearOwner(row: seq<Cell>, x: nat, background: Color): seq<Cell> {
    if Hidden(row, x) && x > 0 && Wide(row, x - 1) then row[x - 1 := Erased(background)] else row
  }

  /** The continuation of a wide glyph about to lose its owner is uncovered. */
  function UncoverRight(row: seq<Cell>, x: nat, w: nat): seq<Cell> {
    if w == 2 && Wide(row, x + 1) && Hidden(row, x + 2)
    then row[x + 2 := Erased(row[x + 2].attr.bg)] else row
  }

  function Cover(row: seq<Cell>, x: nat, w: nat, oldWidth: nat, background: Color): seq<Cell> {
    if x + 1 >= |row| then row
    else if w == 2 then row[x + 1 := Continuation(background)]
    else if oldWidth == 2 && Hidden(row, x + 1) then row[x + 1 := Erased(row[x + 1].attr.bg)]
    else row
  }

  function Glyph(ch: char, w: nat, attr: Attr, link: nat): Cell {
    Cell(ch, w, attr, link, [], false)
  }

  /** Writes a glyph of width `w` at column `x`. */
  function PutRow(row: seq<Cell>, x: nat, w: nat, glyph: Cell): (r: seq<Cell>)
    requires x < |row|
    ensures |r| == |row|
  {
    var r := UncoverRight(ClearOwner(row, x, glyph.attr.bg), x, w);
    Cover(r[x := glyph], x, w, r[x].width, glyph.attr.bg)
  }

  predicate PairedAt(row: seq<Cell>, x: nat)
    requires x < |row|
  {
    && row[x].width <= 2
    && (row[x].width == 2 ==> x + 1 < |row| && row[x + 1].width == 0)
    && (row[x].width == 0 ==> 0 < x && row[x - 1].width == 2)
  }

  /** Every wide glyph has its continuation, and every continuation its wide glyph. */
  predicate Paired(row: seq<Cell>) {
    forall x :: 0 <= x < |row| ==> PairedAt(row, x)
  }

  predicate TidyAt(row: seq<Cell>, x: nat)
    requires x < |row|
  {
    && row[x].width <= 2
    && (row[x].width == 2 && x + 1 < |row| ==> row[x + 1].width == 0)
    && (row[x].width == 0 ==> 0 < x && row[x - 1].width == 2)
  }

  /** The same, but that a wide glyph in the last column has no room for its continuation. */
  predicate Tidy(row: seq<Cell>) {
    forall x :: 0 <= x < |row| ==> TidyAt(row, x)
  }

  lemma {:induction false} PairedIsTidy(row: seq<Cell>)
    ensures Paired(row) <==> Tidy(row) && (row != [] ==> row[|row| - 1].width != 2)
  {
    if Paired(row) {
      forall x | 0 <= x < |row|
        ensures TidyAt(row, x)
      {
        assert PairedAt(row, x);
      }
      assert row != [] ==> PairedAt(row, |row| - 1);
    } else if Tidy(row) {
      var x :| 0 <= x < |row| && !PairedAt(row, x);
      assert TidyAt(row, x);
    }
  }

  predicate IsErased(c: Cell) { c == Erased(c.attr.bg) }

  /** Whether writing `w` columns at `x` splits a wide glyph that reaches column `j`. */
  predicate Split(row: seq<Cell>, x: nat, w: nat, j: nat)
    requires x < |row|
  {
    (j + 1 == x && row[x].width == 0) || (j == x + w && j < |row| && row[j].width == 0)
  }

  /** Only what is written and the halves of split glyphs change, and those become blank. */
  lemma {:induction false} PutChangesOnly(row: seq<Cell>, x: nat, w: nat, glyph: Cell, j: nat)
    requires Tidy(row) && 1 <= w <= 2 && x < |row| && glyph.width == w && j < |row|
    ensures j == x ==> PutRow(row, x, w, glyph)[j] == glyph
    ensures j == x + 1 && w == 2 ==> PutRow(row, x, w, glyph)[j].width == 0
    ensures j < x || j >= x + w ==>
      if Split(row, x, w, j) then IsErased(PutRow(row, x, w, glyph)[j]) else PutRow(row, x, w, glyph)[j] == row[j]
  {
    assert TidyAt(row, x);
    if x + 1 < |row| {
      assert TidyAt(row, x + 1);
    }
    if x + 2 < |row| {
      assert TidyAt(row, x + 2);
    }
  }

  /** Writing a glyph anywhere keeps a row tidy, a wide one in the last column included. */
  lemma {:induction false} PutKeepsTidy(row: seq<Cell>, x: nat, w: nat, glyph: Cell)
    requires Tidy(row) && 1 <= w <= 2 && x < |row| && glyph.width == w
    ensures Tidy(PutRow(row, x, w, glyph))
  {
    hide PutRow;
    var r := PutRow(row, x, w, glyph);
    assert TidyAt(row, x) && (x + w < |row| ==> TidyAt(row, x + w));
    forall j | 0 <= j < |r|
      ensures TidyAt(r, j)
    {
      PutChangesOnly(row, x, w, glyph, j);
      assert TidyAt(row, j);
      if j > 0 {
        PutChangesOnly(row, x, w, glyph, j - 1);
        assert TidyAt(row, j - 1);
      }
      if j + 1 < |r| {
        PutChangesOnly(row, x, w, glyph, j + 1);
        assert TidyAt(row, j + 1);
      }
    }
  }

  /** Writing a glyph over any part of wide glyphs leaves no half of one. */
  lemma {:induction false} PutKeepsPairs(row: seq<Cell>, x: nat, w: nat, glyph: Cell)
    requires Paired(row) && 1 <= w <= 2 && x + w <= |row| && glyph.width == w
    ensures Paired(PutRow(row, x, w, glyph))
  {
    hide PutRow, Paired, Tidy;
    PairedIsTidy(row);
    PutKeepsTidy(row, x, w, glyph);
    PutChangesOnly(row, x, w, glyph, |row| - 1);
    PairedIsTidy(PutRow(row, x, w, glyph));
  }

  // ------------------------------------------------------------------ erasing, shifting

  function Blanks(n: nat, blank: Cell): (s: seq<Cell>)
    ensures |s| == n && forall i :: 0 <= i < n ==> s[i] == blank
  {
    seq(n, _ => blank)
  }

  function Fill(row: seq<Cell>, start: nat, end: nat, blank: Cell): (r: seq<Cell>)
    requires start <= end <= |row|
    ensures |r| == |row|
  {
    row[..start] + Blanks(end - start, blank) + row[end..]
  }

  function EraseStart(row: seq<Cell>, start: nat): nat {
    if 0 < start && Hidden(row, start) && Wide(row, start - 1) then start - 1 else start
  }

  function EraseEnd(row: seq<Cell>, end: nat): nat {
    if 0 < end < |row| && Wide(row, end - 1) && Hidden(row, end) then end + 1 else end
  }

  /** Erases columns, and the other half of a wide glyph cut at either edge. */
  function EraseRow(row: seq<Cell>, start: nat, end: nat, blank: Cell): (r: seq<Cell>)
    ensures |r| == |row|
  {
    if start >= end || start >= |row| then row
    else Fill(row, EraseStart(row, start), EraseEnd(row, if end < |row| then end else |row|), blank)
  }

  lemma {:induction false} FillAt(row: seq<Cell>, start: nat, end: nat, blank: Cell, i: nat)
    requires start <= end <= |row| && i < |row|
    ensures Fill(row, start, end, blank)[i] == if start <= i < end then blank else row[i]
  {}

  lemma {:induction false} FillKeepsPairs(row: seq<Cell>, a: nat, b: nat, blank: Cell)
    requires Paired(row) && blank.width == 1 && a <= b <= |row|
    requires a < |row| ==> row[a].width != 0
    requires b < |row| ==> row[b].width != 0
    ensures Paired(Fill(row, a, b, blank))
  {
    hide Fill;
    var r := Fill(row, a, b, blank);
    forall j | 0 <= j < |r|
      ensures PairedAt(r, j)
    {
      FillAt(row, a, b, blank, j);
      assert PairedAt(row, j);
      if j > 0 {
        FillAt(row, a, b, blank, j - 1);
      }
      if j + 1 < |r| {
        FillAt(row, a, b, blank, j + 1);
      }
    }
  }

  lemma {:induction false} EraseKeepsPairs(row: seq<Cell>, start: nat, end: nat, blank: Cell)
    requires Paired(row) && blank.width == 1
    ensures Paired(EraseRow(row, start, end, blank))
  {
    hide Fill;
    if start < end && start < |row| {
      var a, b := EraseStart(row, start), EraseEnd(row, if end < |row| then end else |row|);
      assert PairedAt(row, start) && PairedAt(row, a);
      if b < |row| {
        assert PairedAt(row, b) && PairedAt(row, b - 1);
      }
      FillKeepsPairs(row, a, b, blank);
    }
  }

  function InsertCells(row: seq<Cell>, x: nat, n: nat, blank: Cell): (r: seq<Cell>)
    ensures |r| == |row|
  {
    if x >= |row| then row
    else
      var k := if n < |row| - x then n else |row| - x;
      row[..x] + Blanks(k, blank) + row[x..|row| - k]
  }

  function DeleteCells(row: seq<Cell>, x: nat, n: nat, blank: Cell): (r: seq<Cell>)
    ensures |r| == |row|
  {
    if x >= |row| then row
    else
      var k := if n < |row| - x then n else |row| - x;
      row[..x] + row[x + k..] + Blanks(k, blank)
  }
}
