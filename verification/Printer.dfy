/** The screen printer: the bytes that turn what a terminal shows into another frame. */
module Printer {
  import opened Basics
  import opened Lexer
  import opened Sgr
  import opened Cells
  import opened Screen

  function Resolve(l: Links, id: nat): Option<Hyperlink> {
    if 0 < id <= |l.table| then Some(l.table[id - 1]) else None
  }

  function ActiveLink(f: Frame): Option<Hyperlink> { Resolve(f.links, f.links.active) }

  /** Cells that look alike, each in its own frame's table of links. */
  predicate Alike(l: Links, a: Cell, m: Links, b: Cell) {
    && a.ch == b.ch && a.width == b.width && a.attr == b.attr && a.suffix == b.suffix
    && Resolve(l, a.link) == Resolve(m, b.link)
  }

  // ----------------------------------------------------------------- visible columns

  /** Which columns from `x` on start a visible cell: a wide cell hides the next column. */
  function VisibleFrom(row: seq<Cell>, x: nat): (v: seq<bool>)
    requires x <= |row|
    ensures |v| == |row| - x
    decreases |row| - x
  {
    if x == |row| then []
    else if row[x].width == 0 then [false] + VisibleFrom(row, x + 1)
    else if row[x].width >= 2 && x + 1 < |row| then [true, false] + VisibleFrom(row, x + 2)
    else [true] + VisibleFrom(row, x + 1)
  }

  function Visible(row: seq<Cell>): (v: seq<bool>)
    ensures |v| == |row|
  {
    VisibleFrom(row, 0)
  }

  lemma {:induction false} VisibleStep(row: seq<Cell>, x: nat, j: nat)
    requires x <= j < |row|
    ensures VisibleFrom(row, x)[j - x] ==
      if j == x then row[x].width != 0
      else if row[x].width >= 2 then j > x + 1 && VisibleFrom(row, x + 2)[j - (x + 2)]
      else VisibleFrom(row, x + 1)[j - (x + 1)]
  {}

  lemma {:induction false} VisibleFromTidy(row: seq<Cell>, x: nat, j: nat)
    requires Tidy(row) && x <= j < |row|
    ensures VisibleFrom(row, x)[j - x] == (row[j].width != 0)
    decreases |row| - x
  {
    hide VisibleFrom;
    VisibleStep(row, x, j);
    if row[x].width >= 2 {
      assert TidyAt(row, x);
      if j > x + 1 {
        VisibleFromTidy(row, x + 2, j);
      }
    } else if j > x {
      VisibleFromTidy(row, x + 1, j);
    }
  }

  /** On a well-formed row the visible columns are those that are no continuation. */
  lemma {:induction false} VisibleTidy(row: seq<Cell>, j: nat)
    requires Tidy(row) && j < |row|
    ensures Visible(row)[j] == (row[j].width != 0)
  {
    VisibleFromTidy(row, 0, j);
  }

  /** A visible wide glyph reaches over from the column before. */
  predicate UnderWide(row: seq<Cell>, x: nat)
    requires x <= |row|
  {
    0 < x && Visible(row)[x - 1] && row[x - 1].width >= 2
  }

  lemma {:induction false} VisibleFromAt(row: seq<Cell>, x: nat, j: nat)
    requires x <= j < |row|
    ensures VisibleFrom(row, x)[j - x] <==>
      row[j].width != 0 && !(x < j && VisibleFrom(row, x)[j - 1 - x] && row[j - 1].width >= 2)
    decreases |row| - x
  {
    hide VisibleFrom;
    VisibleStep(row, x, j);
    if j > x {
      VisibleStep(row, x, j - 1);
      if row[x].width < 2 {
        VisibleFromAt(row, x + 1, j);
      } else if j > x + 1 {
        VisibleFromAt(row, x + 2, j);
      }
    }
  }

  /** On any row whatever, a column is visible unless it is a continuation or lies under a
      visible wide glyph. */
  lemma {:induction false} VisibleAt(row: seq<Cell>, j: nat)
    requires j < |row|
    ensures Visible(row)[j] <==> row[j].width != 0 && !UnderWide(row, j)
  {
    VisibleFromAt(row, 0, j);
  }

  /** A column that some visible glyph takes up. */
  predicate Occupied(row: seq<Cell>, x: nat) {
    x < |row| && (Visible(row)[x] || UnderWide(row, x))
  }

  /** A continuation that no visible wide glyph covers. */
  predicate Bare(row: seq<Cell>, x: nat) { x < |row| && !Occupied(row, x) }

  /** On any row whatever, a continuation is never printed, with or without an owner. */
  lemma {:induction false} ContinuationsHidden(row: seq<Cell>, j: nat)
    requires j < |row| && row[j].width == 0
    ensures !Visible(row)[j]
  {
    VisibleAt(row, j);
  }

  // -------------------------------------------------------------------- change spans

  predicate Changed(l: Links, next: seq<Cell>, m: Links, prev: seq<Cell>, x: nat)
    requires x < |next| == |prev|
  {
    Visible(next)[x] && (!Visible(prev)[x] || !Alike(l, next[x], m, prev[x]))
  }

  /** First changed column from `x` on, or the length. */
  function FirstChanged(l: Links, next: seq<Cell>, m: Links, prev: seq<Cell>, x: nat): (k: nat)
    requires x <= |next| == |prev|
    ensures x <= k <= |next|
    ensures forall j :: x <= j < k ==> !Changed(l, next, m, prev, j)
    ensures k < |next| ==> Changed(l, next, m, prev, k)
    decreases |next| - x
  {
    if x == |next| || Changed(l, next, m, prev, x) then x else FirstChanged(l, next, m, prev, x + 1)
  }

  /** Last changed column before `n`, or -1. */
  function LastChanged(l: Links, next: seq<Cell>, m: Links, prev: seq<Cell>, n: nat): (k: int)
    requires n <= |next| == |prev|
    ensures -1 <= k < n
    ensures forall j :: k < j < n ==> !Changed(l, next, m, prev, j)
    ensures k >= 0 ==> Changed(l, next, m, prev, k)
  {
    if n == 0 then -1 else if Changed(l, next, m, prev, n - 1) then n - 1 else LastChanged(l, next, m, prev, n - 1)
  }

  // ---------------------------------------------------------------------- small parts

  function Cup(y: nat, x: nat): seq<byte> { CsiBytes(Joined([y + 1, x + 1]), 'H' as byte) }

  function PrivateMode(mode: nat, on: bool): seq<byte> {
    CsiBytes(['?' as byte] + Joined([mode]), if on then 'h' as byte else 'l' as byte)
  }

  const RESET: seq<byte> := CsiBytes([], 'm' as byte)

  function LinkBytes(link: Option<Hyperlink>): seq<byte> {
    OscPrefix(OSC_LINK) + (if link.Some? then link.value.params + [SEMICOLON] + link.value.uri else [SEMICOLON])
    + [ESC, '\\' as byte]
  }

  function LinkDiff(cur: Option<Hyperlink>, next: Option<Hyperlink>): seq<byte> {
    if cur == next then [] else LinkBytes(next)
  }

  function Characters(s: seq<char>): seq<byte> {
    if s == [] then [] else Characters(s[..|s| - 1]) + EncodeChar(s[|s| - 1])
  }

  function CellBytes(c: Cell): seq<byte> {
    if c.ch == '\0' || (c.ch == ' ' && c.suffix == []) then [' ' as byte]
    else EncodeChar(c.ch) + Characters(c.suffix)
  }

  /** Where the printer takes the cursor to be after `c` at column `x`: nowhere after a wide
      glyph, because terminals disagree about widths, unless the next one joins it. */
  function NextColumn(c: Cell, x: nat): int {
    if c.width == 2 && !(c.suffix != [] && c.suffix[|c.suffix| - 1] == JOINER) then -1
    else x + if c.width > 1 then c.width else 1
  }

  // ------------------------------------------------------------------------- painting

  /** What the printer believes of the terminal: attributes, link, and cursor if known. */
  datatype Pencil = Pencil(attr: Attr, link: Option<Hyperlink>, x: int, y: int)

  datatype Painted = Painted(bytes: seq<byte>, pencil: Pencil)

  function PaintCell(l: Links, c: Cell, y: nat, x: nat, p: Pencil): Painted {
    var link := Resolve(l, c.link);
    Painted((if p.x != x || p.y != y then Cup(y, x) else [])
            + (LinkDiff(p.link, link) + (AttrDiff(p.attr, c.attr) + CellBytes(c))),
            Pencil(c.attr, link, NextColumn(c, x), y))
  }

  /** Columns `x` to `end` of a row. */
  function PaintFrom(l: Links, row: seq<Cell>, y: nat, x: nat, end: nat, p: Pencil): Painted
    requires x <= end <= |row|
    decreases end - x
  {
    if x == end then Painted([], p)
    else if !Visible(row)[x] then PaintFrom(l, row, y, x + 1, end, p)
    else
      var a := PaintCell(l, row[x], y, x, p);
      var b := PaintFrom(l, row, y, x + 1, end, a.pencil);
      Painted(a.bytes + b.bytes, b.pencil)
  }

  /** The changed span of row `y`. */
  function PaintRow(next: Frame, prev: Frame, y: nat, p: Pencil): Painted
    requires y < |next.grid| == |prev.grid| && |next.grid[y]| == |prev.grid[y]|
  {
    var first := FirstChanged(next.links, next.grid[y], prev.links, prev.grid[y], 0);
    var last := LastChanged(next.links, next.grid[y], prev.links, prev.grid[y], |next.grid[y]|);
    if last < first then Painted([], p) else PaintFrom(next.links, next.grid[y], y, first, last + 1, p)
  }

  predicate SameSize(a: Frame, b: Frame) {
    a.cols == b.cols && a.rows == b.rows && GridOk(a.grid, a.rows, a.cols) && GridOk(b.grid, b.rows, b.cols)
  }

  function PaintRows(next: Frame, prev: Frame, y: nat, p: Pencil): Painted
    requires SameSize(next, prev) && y <= next.rows
    decreases next.rows - y
  {
    if y == next.rows then Painted([], p)
    else
      var a := PaintRow(next, prev, y, p);
      var b := PaintRows(next, prev, y + 1, a.pencil);
      Painted(a.bytes + b.bytes, b.pencil)
  }

  predicate RowChanged(next: Frame, prev: Frame, y: nat)
    requires SameSize(next, prev) && y < next.rows
  {
    FirstChanged(next.links, next.grid[y], prev.links, prev.grid[y], 0) < next.cols
  }

  predicate CellsChanged(next: Frame, prev: Frame)
    requires SameSize(next, prev)
  {
    exists y :: 0 <= y < next.rows && RowChanged(next, prev, y)
  }

  // ------------------------------------------------------------------------- metadata

  function OscPrefix(prefix: seq<byte>): seq<byte> { [ESC, ']' as byte] + prefix }

  function OscBytes(prefix: seq<byte>, value: seq<byte>): seq<byte> {
    OscPrefix(prefix) + value + [BEL]
  }

  function ValueOr(o: Option<seq<byte>>): seq<byte> { if o.Some? then o.value else [] }

  function Titles(next: Effects, icon: bool, title: bool): seq<byte> {
    if (icon || title) && next.icon.Some? && next.icon == next.title then OscBytes(OSC_BOTH, next.icon.value)
    else
      (if icon && next.icon.Some? then OscBytes(OSC_ICON, next.icon.value) else [])
      + if title && next.title.Some? then OscBytes(OSC_TITLE, next.title.value) else []
  }

  function SwitchDiff(mode: nat, next: bool, prev: bool, force: bool): seq<byte> {
    if force || next != prev then PrivateMode(mode, next) else []
  }

  function SwitchOff(modes: seq<nat>): seq<byte> {
    if modes == [] then [] else PrivateMode(modes[0], false) + SwitchOff(modes[1..])
  }

  const REPORTING_MODES: seq<nat> := [1003, 1002, 1001, 1000, 9]
  const ENCODING_MODES: seq<nat> := [1015, 1006, 1005]

  /** A mode of which at most one value is on: the old ones go off, the next comes on. */
  function ChoiceDiff(next: nat, prev: nat, all: seq<nat>, force: bool): seq<byte> {
    if force || next != prev then
      (if force then SwitchOff(all) else if prev != 0 then PrivateMode(prev, false) else [])
      + if next != 0 then PrivateMode(next, true) else []
    else []
  }

  function MarginBytes(m: Margins, rows: nat): seq<byte> {
    CsiBytes(if m.top == 0 && m.bottom + 1 == rows then [] else Joined([m.top + 1, m.bottom + 1]), 'r' as byte)
  }

  const NO_EFFECTS := Effects(0, None, None, None)
  const NO_SWITCHES := Switches(true, false, false, 0, false, 0)

  /** What a diff is relative to; a terminal seen for the first time has nothing set. */
  function PrevEffects(prev: Option<Frame>): Effects { if prev.Some? then prev.value.effects else NO_EFFECTS }

  function PrevSwitches(prev: Option<Frame>): Switches { if prev.Some? then prev.value.switches else NO_SWITCHES }

  function EffectBytes(next: Frame, prev: Option<Frame>, force: bool): seq<byte> {
    var e := PrevEffects(prev);
    (if next.effects.bells != e.bells then [BEL] else [])
    + (Titles(next.effects, force || next.effects.icon != e.icon, force || next.effects.title != e.title)
    + if next.effects.clipboard != e.clipboard then OscBytes(OSC_CLIPBOARD, ValueOr(next.effects.clipboard)) else [])
  }

  function SwitchBytes(n: Switches, p: Switches, force: bool): seq<byte> {
    SwitchDiff(5, n.reverseVideo, p.reverseVideo, force)
    + (SwitchDiff(2004, n.bracketedPaste, p.bracketedPaste, force)
    + (ChoiceDiff(n.mouseReporting, p.mouseReporting, REPORTING_MODES, force)
    + (SwitchDiff(1004, n.mouseFocus, p.mouseFocus, force)
    + ChoiceDiff(n.mouseEncoding, p.mouseEncoding, ENCODING_MODES, force))))
  }

  predicate MarginsChanged(next: Frame, prev: Option<Frame>, force: bool) {
    if force then next.margins.top != 0 || next.margins.bottom + 1 != next.rows
    else prev.Some? && prev.value.margins != next.margins
  }

  function Metadata(next: Frame, prev: Option<Frame>, force: bool): seq<byte> {
    EffectBytes(next, prev, force)
    + (SwitchBytes(next.switches, PrevSwitches(prev), force)
    + if MarginsChanged(next, prev, force) then MarginBytes(next.margins, next.rows) else [])
  }

  // ------------------------------------------------------------------------ whole diffs

  function CursorSwitch(on: bool): seq<byte> { PrivateMode(25, on) }

  function ResetDiff(cur: Attr): seq<byte> { if cur == PLAIN then [] else RESET }

  /** What follows the cells: plain attributes, the active link, cursor and visibility. */
  function Closing(next: Frame, prev: Frame, changed: bool, p: Pencil): seq<byte> {
    ResetDiff(p.attr)
    + (LinkDiff(p.link, ActiveLink(next))
    + ((if changed || next.margins != prev.margins || next.cursor.x != prev.cursor.x || next.cursor.y != prev.cursor.y
        then Cup(next.cursor.y, next.cursor.x) else [])
    + if changed then (if next.switches.cursorVisible then CursorSwitch(true) else [])
      else if next.switches.cursorVisible != prev.switches.cursorVisible then CursorSwitch(next.switches.cursorVisible)
      else []))
  }

  function Diff(next: Frame, prev: Frame): seq<byte>
    requires SameSize(next, prev)
  {
    var rows := PaintRows(next, prev, 0, Pencil(PLAIN, ActiveLink(prev), -1, -1));
    Metadata(next, Some(prev), false)
    + ((if CellsChanged(next, prev) then CursorSwitch(false) else [])
    + (rows.bytes + Closing(next, prev, CellsChanged(next, prev), rows.pencil)))
  }

  // ---------------------------------------------------------------------- full redraws

  predicate Plain(c: Cell) {
    (c.ch == ' ' || c.ch == '\0') && c.suffix == [] && c.attr == PLAIN && c.link == 0
  }

  /** One past the last visible column before `n` that is not plain. */
  function InkEnd(row: seq<Cell>, n: nat): (k: nat)
    requires n <= |row|
    ensures k <= n
    ensures k > 0 ==> Visible(row)[k - 1]
  {
    if n == 0 then 0
    else if Visible(row)[n - 1] && !Plain(row[n - 1]) then n
    else InkEnd(row, n - 1)
  }

  function RedrawRow(f: Frame, y: nat, p: Pencil): Painted
    requires y < |f.grid|
  {
    var start := p.(x := 0, y := y);
    var a := PaintFrom(f.links, f.grid[y], y, 0, InkEnd(f.grid[y], |f.grid[y]|), start);
    if y == 0 then a else Painted([0x0d, 0x0a] + a.bytes, a.pencil)
  }

  function RedrawRows(f: Frame, y: nat, p: Pencil): Painted
    requires y <= |f.grid|
    decreases |f.grid| - y
  {
    if y == |f.grid| then Painted([], p)
    else
      var a := RedrawRow(f, y, p);
      var b := RedrawRows(f, y + 1, a.pencil);
      Painted(a.bytes + b.bytes, b.pencil)
  }

  const HOME: seq<byte> := CsiBytes([], 'H' as byte)
  const CLEAR: seq<byte> := CsiBytes([0x32], 'J' as byte)
  const ALL_ROWS: seq<byte> := CsiBytes([], 'r' as byte)

  /** Hides the cursor and clears margins, screen, attributes and link. */
  const CLEARING: seq<byte> :=
    CursorSwitch(false) + (ALL_ROWS + (HOME + (CLEAR + (RESET + LinkBytes(None)))))

  function Redraw(next: Frame, prev: Option<Frame>): seq<byte> {
    var rows := RedrawRows(next, 0, Pencil(PLAIN, None, 0, 0));
    CLEARING
    + (rows.bytes
    + (ResetDiff(rows.pencil.attr)
    + (LinkDiff(rows.pencil.link, ActiveLink(next))
    + (Metadata(next, prev, true)
    + (Cup(next.cursor.y, next.cursor.x)
    + if next.switches.cursorVisible then CursorSwitch(true) else [])))))
  }

  /** `Framebuffer::diff`. */
  function FrameDiff(next: Frame, prev: Option<Frame>): seq<byte> {
    if prev.Some? && SameSize(next, prev.value) then Diff(next, prev.value) else Redraw(next, prev)
  }
}
