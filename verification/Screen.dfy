/** The terminal: what each command of the host's output does to the screen and the pen. */
module Screen {
  import opened Basics
  import opened Lexer
  import opened Sgr
  import opened Cells

  datatype Cursor = Cursor(x: nat, y: nat, wrap: bool)

  /** The cell that a combining character extends. */
  datatype Target = Target(x: nat, y: nat, valid: bool)

  datatype Margins = Margins(top: nat, bottom: nat)

  datatype Modes = Modes(insert: bool, autoWrap: bool, origin: bool)

  datatype Switches = Switches(
    cursorVisible: bool, reverseVideo: bool, bracketedPaste: bool,
    mouseReporting: nat, mouseFocus: bool, mouseEncoding: nat)

  datatype Effects = Effects(
    bells: nat, icon: Option<seq<byte>>, title: Option<seq<byte>>, clipboard: Option<seq<byte>>)

  datatype Hyperlink = Hyperlink(params: seq<byte>, uri: seq<byte>)

  /** Interned hyperlinks; link `n` is entry `n - 1`, and 0 is none. */
  datatype Links = Links(table: seq<Hyperlink>, active: nat)

  datatype Frame = Frame(
    cols: nat, rows: nat, grid: seq<seq<Cell>>, cursor: Cursor, target: Target, margins: Margins,
    modes: Modes, tabs: seq<bool>, switches: Switches, effects: Effects, links: Links, scrolls: nat)

  datatype Saved = Saved(x: nat, y: nat, attr: Attr, autoWrap: bool, origin: bool)

  datatype Screen = Screen(frame: Frame, attr: Attr, saved: Saved)

  const DEFAULT_MODES := Modes(false, true, false)
  const UNSAVED := Saved(0, 0, PLAIN, true, false)

  function BlankRow(cols: nat, blank: Cell): seq<Cell> { Blanks(cols, blank) }

  function BlankGrid(rows: nat, cols: nat, blank: Cell): (g: seq<seq<Cell>>)
    ensures GridOk(g, rows, cols)
  {
    seq(rows, _ => BlankRow(cols, blank))
  }

  predicate GridOk(grid: seq<seq<Cell>>, rows: nat, cols: nat) {
    |grid| == rows && forall y :: 0 <= y < |grid| ==> |grid[y]| == cols
  }

  /** The shape every command keeps: a rectangle, with cursor and margins inside it. */
  predicate Shaped(f: Frame) {
    && 0 < f.cols && 0 < f.rows
    && GridOk(f.grid, f.rows, f.cols)
    && f.cursor.x < f.cols && f.cursor.y < f.rows
    && f.margins.top <= f.margins.bottom < f.rows
    && |f.tabs| == f.cols
  }

  function NewFrame(cols: nat, rows: nat): (f: Frame)
    ensures Shaped(f)
  {
    var w, h := if cols == 0 then 1 else cols, if rows == 0 then 1 else rows;
    Frame(w, h, BlankGrid(h, w, BLANK), Cursor(0, 0, false), Target(0, 0, true), Margins(0, h - 1),
          DEFAULT_MODES, seq(w, x => x > 0 && x % 8 == 0), Switches(true, false, false, 0, false, 0),
          Effects(0, None, None, None), Links([], 0), 0)
  }

  // ---------------------------------------------------------------- cursor movement

  function Retargeted(f: Frame): (r: Frame)
    ensures Shaped(f) ==> Shaped(r)
  {
    f.(target := Target(f.cursor.x, f.cursor.y, f.cursor.x < f.cols && f.cursor.y < f.rows))
  }

  function Least(a: nat, b: nat): nat { if a < b then a else b }

  /** Moves the cursor, within the screen, and ends a pending wrap. */
  function MoveTo(f: Frame, x: nat, y: nat): (r: Frame)
    ensures Shaped(f) ==> Shaped(r)
  {
    Retargeted(f.(cursor := Cursor(Least(x, SatSub(f.cols, 1)), Least(y, SatSub(f.rows, 1)), false)))
  }

  function TopLimit(f: Frame): nat { if f.modes.origin then f.margins.top else 0 }

  function BottomLimit(f: Frame): nat { if f.modes.origin then f.margins.bottom else SatSub(f.rows, 1) }

  /** The number at `i`, if there is one, and then at least 1. */
  function Count(nums: seq<nat>, i: nat): (n: nat)
    ensures n >= 1
  {
    if i < |nums| && nums[i] > 0 then nums[i] else 1
  }

  function First(nums: seq<nat>): nat { if nums == [] then 0 else nums[0] }

  // ---------------------------------------------------------------------- scrolling

  function WrapInc(n: nat): nat { (n + 1) % (U64_MAX + 1) }

  function BlankRows(n: nat, cols: nat, blank: Cell): (g: seq<seq<Cell>>)
    ensures GridOk(g, n, cols)
  {
    BlankGrid(n, cols, blank)
  }

  /** Rotates the rows of a region up and blanks the ones that come in. */
  function RowsUp(f: Frame, top: nat, bottom: nat, lines: nat, blank: Cell): (r: Frame)
    ensures Shaped(f) ==> Shaped(r)
  {
    if !(top <= bottom < f.rows && f.rows == |f.grid|) || lines == 0 then f
    else
      var n := Least(lines, bottom - top + 1);
      f.(grid := f.grid[..top] + f.grid[top + n..bottom + 1] + BlankRows(n, f.cols, blank) + f.grid[bottom + 1..])
  }

  function RowsDown(f: Frame, top: nat, bottom: nat, lines: nat, blank: Cell): (r: Frame)
    ensures Shaped(f) ==> Shaped(r)
  {
    if !(top <= bottom < f.rows && f.rows == |f.grid|) || lines == 0 then f
    else
      var n := Least(lines, bottom - top + 1);
      f.(grid := f.grid[..top] + BlankRows(n, f.cols, blank) + f.grid[top..bottom + 1 - n] + f.grid[bottom + 1..])
  }

  function ScrollUp(f: Frame, blank: Cell): (r: Frame)
    ensures Shaped(f) ==> Shaped(r)
  {
    if f.margins.top <= f.margins.bottom < f.rows
    then RowsUp(f.(scrolls := WrapInc(f.scrolls)), f.margins.top, f.margins.bottom, 1, blank)
    else f
  }

  /** The next row, scrolling the region at its bottom margin. */
  function NextLine(f: Frame, blank: Cell): (r: Frame)
    ensures Shaped(f) ==> Shaped(r)
  {
    if f.cursor.y == f.margins.bottom then ScrollUp(f, blank)
    else f.(cursor := f.cursor.(y := Least(f.cursor.y + 1, SatSub(f.rows, 1))))
  }

  function IndexDown(f: Frame, blank: Cell): (r: Frame)
    ensures Shaped(f) ==> Shaped(r)
  {
    var g := NextLine(f, blank);
    Retargeted(g.(cursor := g.cursor.(wrap := false)))
  }

  function ReverseIndex(f: Frame, blank: Cell): (r: Frame)
    ensures Shaped(f) ==> Shaped(r)
  {
    var g := if f.cursor.y == f.margins.top
             then RowsDown(f.(scrolls := WrapInc(f.scrolls)), f.margins.top, f.margins.bottom, 1, blank)
             else f.(cursor := f.cursor.(y := SatSub(f.cursor.y, 1)));
    Retargeted(g.(cursor := g.cursor.(wrap := false)))
  }

  // --------------------------------------------------------------- changing one row

  function RowSet(f: Frame, y: nat, row: seq<Cell>): (r: Frame)
    requires y < |f.grid| && |row| == |f.grid[y]|
    ensures Shaped(f) ==> Shaped(r)
  {
    f.(grid := f.grid[y := row])
  }

  predicate Inside(f: Frame, x: nat, y: nat) { y < |f.grid| && x < |f.grid[y]| }

  function EraseSpan(f: Frame, y: nat, start: nat, end: nat, blank: Cell): (r: Frame)
    ensures Shaped(f) ==> Shaped(r)
    ensures r.cursor == f.cursor && |r.grid| == |f.grid|
  {
    if y < |f.grid| then RowSet(f, y, EraseRow(f.grid[y], start, end, blank)) else f
  }

  /** Erases whole rows from `y` on, up to `end`. */
  function EraseRows(f: Frame, y: nat, end: nat, blank: Cell): (r: Frame)
    ensures Shaped(f) ==> Shaped(r)
    decreases if y < end then end - y else 0
  {
    if y >= end then f else EraseRows(EraseSpan(f, y, 0, f.cols, blank), y + 1, end, blank)
  }

  function EraseAll(f: Frame, blank: Cell): (r: Frame)
    ensures Shaped(f) ==> Shaped(r)
  {
    f.(grid := BlankGrid(f.rows, f.cols, blank), scrolls := WrapInc(f.scrolls))
  }

  function EraseDisplay(f: Frame, mode: nat, blank: Cell): (r: Frame)
    ensures Shaped(f) ==> Shaped(r)
  {
    var c := f.cursor;
    if mode == 2 || mode == 3 then EraseAll(f, blank)
    else if mode == 0 then EraseRows(EraseSpan(f, c.y, c.x, f.cols, blank), c.y + 1, f.rows, blank)
    else if mode == 1 then EraseSpan(EraseRows(f, 0, c.y, blank), c.y, 0, Least(c.x, SatSub(f.cols, 1)) + 1, blank)
    else f
  }

  function EraseLine(f: Frame, mode: nat, blank: Cell): (r: Frame)
    ensures Shaped(f) ==> Shaped(r)
  {
    var c := f.cursor;
    if mode == 0 then EraseSpan(f, c.y, c.x, f.cols, blank)
    else if mode == 1 then EraseSpan(f, c.y, 0, c.x + 1, blank)
    else if mode == 2 then EraseSpan(f, c.y, 0, f.cols, blank)
    else f
  }

  function InsertAtCursor(f: Frame, n: nat, blank: Cell): (r: Frame)
    ensures Shaped(f) ==> Shaped(r)
    ensures r.cursor == f.cursor
  {
    if f.cursor.y < |f.grid| then RowSet(f, f.cursor.y, InsertCells(f.grid[f.cursor.y], f.cursor.x, n, blank)) else f
  }

  function DeleteAtCursor(f: Frame, n: nat, blank: Cell): (r: Frame)
    ensures Shaped(f) ==> Shaped(r)
  {
    if f.cursor.y < |f.grid| then RowSet(f, f.cursor.y, DeleteCells(f.grid[f.cursor.y], f.cursor.x, n, blank)) else f
  }

  predicate InRegion(f: Frame) { f.margins.top <= f.cursor.y <= f.margins.bottom }

  function InsertLines(f: Frame, n: nat, blank: Cell): (r: Frame)
    ensures Shaped(f) ==> Shaped(r)
  {
    var g := if InRegion(f)
             then RowsDown(f.(scrolls := WrapInc(f.scrolls)), f.cursor.y, f.margins.bottom, n, blank) else f;
    MoveTo(g, 0, f.cursor.y)
  }

  function DeleteLines(f: Frame, n: nat, blank: Cell): (r: Frame)
    ensures Shaped(f) ==> Shaped(r)
  {
    var g := if InRegion(f)
             then RowsUp(f.(scrolls := WrapInc(f.scrolls)), f.cursor.y, f.margins.bottom, n, blank) else f;
    MoveTo(g, 0, f.cursor.y)
  }

  // ----------------------------------------------------------------------- tab stops

  function StopAfter(tabs: seq<bool>, x: nat): (k: nat)
    ensures k < |tabs| || k == SatSub(|tabs|, 1)
    decreases if x < |tabs| then |tabs| - x else 0
  {
    if x + 1 >= |tabs| then SatSub(|tabs|, 1) else if tabs[x + 1] then x + 1 else StopAfter(tabs, x + 1)
  }

  function StopBefore(tabs: seq<bool>, x: nat): (k: nat)
    ensures k <= x
  {
    if x == 0 then 0 else if x - 1 < |tabs| && tabs[x - 1] then x - 1 else StopBefore(tabs, x - 1)
  }

  function TabForward(tabs: seq<bool>, x: nat, n: nat): (k: nat)
    decreases n
  {
    if n == 0 then x else TabForward(tabs, StopAfter(tabs, x), n - 1)
  }

  function TabBack(tabs: seq<bool>, x: nat, n: nat): (k: nat)
    decreases n
  {
    if n == 0 then x else TabBack(tabs, StopBefore(tabs, x), n - 1)
  }

  function SetStop(f: Frame, x: nat, on: bool): (r: Frame)
    ensures Shaped(f) ==> Shaped(r)
  {
    if x < |f.tabs| then f.(tabs := f.tabs[x := on]) else f
  }

  // ------------------------------------------------------------------------ printing

  /** A zero-width character joins the target cell. */
  function Extend(f: Frame, ch: char): (r: Frame)
    ensures Shaped(f) ==> Shaped(r)
  {
    var p := f.target;
    if !p.valid then f
    else if !Inside(f, p.x, p.y) then f.(target := p.(valid := false))
    else
      var row := f.grid[p.y];
      if row[p.x].empty then
        RowSet(f, p.y, row[p.x := StartFallback(row[p.x], ch)])
          .(cursor := if f.cursor.x + 1 >= f.cols then Cursor(SatSub(f.cols, 1), f.cursor.y, true)
                      else Cursor(f.cursor.x + 1, f.cursor.y, false))
      else RowSet(f, p.y, row[p.x := AppendChar(row[p.x], ch)])
  }

  /** Makes room for the next glyph: the pending wrap, or a wide glyph at the right margin. */
  function MakeRoom(t: Widths, f: Frame, ch: char, blank: Cell): (r: Frame)
    ensures Shaped(f) ==> Shaped(r)
  {
    if f.modes.autoWrap && f.cursor.wrap then
      var g := NextLine(f.(cursor := f.cursor.(wrap := false)), blank);
      g.(cursor := g.cursor.(x := 0))
    else if f.modes.autoWrap && StandaloneWidth(t, ch) == 2 && f.cursor.x + 1 >= f.cols then
      var e := if Inside(f, f.cursor.x, f.cursor.y)
               then RowSet(f, f.cursor.y, f.grid[f.cursor.y][f.cursor.x := blank]) else f;
      var g := NextLine(e, blank);
      g.(cursor := g.cursor.(x := 0))
    else f
  }

  /** Writes a glyph at the cursor and advances it, leaving a wrap pending at the margin. */
  function Place(f: Frame, ch: char, w: nat, attr: Attr): (r: Frame)
    ensures Shaped(f) ==> Shaped(r)
  {
    var c := f.cursor;
    if !Inside(f, c.x, c.y) then f
    else
      var g := RowSet(f, c.y, PutRow(f.grid[c.y], c.x, w, Glyph(ch, w, attr, f.links.active)));
      g.(target := Target(c.x, c.y, true),
         cursor := if c.x + w >= f.cols then Cursor(SatSub(f.cols, 1), c.y, f.modes.autoWrap)
                   else Cursor(c.x + w, c.y, false))
  }

  function Print(t: Widths, s: Screen, ch: char): (r: Screen)
    ensures Shaped(s.frame) ==> Shaped(r.frame)
  {
    var width := DisplayWidth(t, ch);
    if ch == '\0' || width.None? then s
    else if width.value == 0 then s.(frame := Extend(s.frame, ch))
    else
      var blank := Erased(s.attr.bg);
      var f := MakeRoom(t, s.frame, ch, blank);
      var g := if f.modes.insert then InsertAtCursor(f, width.value, blank) else f;
      s.(frame := Place(g, ch, width.value, s.attr))
  }

  // -------------------------------------------------------------- controls and escapes

  function ExecControl(s: Screen, code: byte): (r: Screen)
    ensures Shaped(s.frame) ==> Shaped(r.frame)
  {
    var f := s.frame;
    var c := f.cursor;
    if code == 0x0d then s.(frame := Retargeted(f.(cursor := Cursor(0, c.y, false))))
    else if 0x0a <= code <= 0x0c then s.(frame := IndexDown(f, Erased(s.attr.bg)))
    else if code == 0x08 then
      s.(frame := Retargeted(f.(cursor := Cursor(if c.wrap then c.x else SatSub(c.x, 1), c.y, false))))
    else if code == 0x09 then s.(frame := Retargeted(f.(cursor := c.(x := StopAfter(f.tabs, c.x)))))
    else if code == BEL then s.(frame := f.(effects := f.effects.(bells := WrapInc(f.effects.bells))))
    else s
  }

  function ExecEscape(s: Screen, kind: byte): (r: Screen)
    ensures Shaped(s.frame) ==> Shaped(r.frame)
  {
    var f := s.frame;
    var blank := Erased(s.attr.bg);
    if kind == 'M' as byte then s.(frame := ReverseIndex(f, blank))
    else if kind == 'D' as byte then s.(frame := IndexDown(f, blank))
    else if kind == 'E' as byte then s.(frame := IndexDown(f.(cursor := f.cursor.(x := 0)), blank))
    else if kind == 'H' as byte then s.(frame := SetStop(f, f.cursor.x, true))
    else if kind == '7' as byte then
      s.(saved := Saved(f.cursor.x, f.cursor.y, s.attr, f.modes.autoWrap, f.modes.origin))
    else if kind == '8' as byte then s.(frame := Restore(f, s.saved), attr := s.saved.attr)
    else s
  }

  function Restore(f: Frame, saved: Saved): (r: Frame)
    ensures Shaped(f) ==> Shaped(r)
  {
    var y := Least(saved.y, SatSub(f.rows, 1));
    var y' := if !saved.origin then y else if y < f.margins.top then f.margins.top else Least(y, f.margins.bottom);
    MoveTo(f.(modes := f.modes.(autoWrap := saved.autoWrap, origin := saved.origin)), saved.x, y')
  }

  // ---------------------------------------------------------------- control sequences

  function SetPrivateMode(f: Frame, mode: nat, on: bool): (r: Frame)
    ensures Shaped(f) ==> Shaped(r)
  {
    var s := f.switches;
    if mode == 5 then f.(switches := s.(reverseVideo := on))
    else if mode == 6 then
      var g := f.(modes := f.modes.(origin := on));
      MoveTo(g, 0, TopLimit(g))
    else if mode == 7 then f.(modes := f.modes.(autoWrap := on))
    else if mode == 25 then f.(switches := s.(cursorVisible := on))
    else if mode == 2004 then f.(switches := s.(bracketedPaste := on))
    else if mode == 9 || 1000 <= mode <= 1003 then
      f.(switches := s.(mouseReporting := if on then mode else if s.mouseReporting == mode then 0 else s.mouseReporting))
    else if mode == 1004 then f.(switches := s.(mouseFocus := on))
    else if mode == 1005 || mode == 1006 || mode == 1015 then
      f.(switches := s.(mouseEncoding := if on then mode else if s.mouseEncoding == mode then 0 else s.mouseEncoding))
    else f
  }

  function SetPrivateModes(f: Frame, modes: seq<nat>, on: bool): (r: Frame)
    ensures Shaped(f) ==> Shaped(r)
    decreases |modes|
  {
    if modes == [] then f else SetPrivateModes(SetPrivateMode(f, modes[0], on), modes[1..], on)
  }

  function SetMargins(f: Frame, nums: seq<nat>): (r: Frame)
    ensures Shaped(f) ==> Shaped(r)
  {
    var top := Count(nums, 0) - 1;
    var bottom := (if |nums| > 1 then Count(nums, 1) else if f.rows % U32_SIZE > 0 then f.rows % U32_SIZE else 1) - 1;
    if top < bottom < f.rows then
      var g := f.(margins := Margins(top, bottom));
      MoveTo(g, 0, TopLimit(g))
    else if nums == [] then
      var g := f.(margins := Margins(0, SatSub(f.rows, 1)));
      MoveTo(g, 0, TopLimit(g))
    else f
  }

  function CursorUp(f: Frame, n: nat): (r: Frame)
    ensures Shaped(f) ==> Shaped(r)
  {
    var y := SatSub(f.cursor.y, n);
    MoveTo(f, f.cursor.x, if y < TopLimit(f) then TopLimit(f) else y)
  }

  function Moves(f: Frame, final: char, nums: seq<nat>): (r: Option<Frame>)
    ensures Shaped(f) && r.Some? ==> Shaped(r.value)
  {
    var n := Count(nums, 0);
    var c := f.cursor;
    match final
    case 'H' => Some(MoveTo(f, Count(nums, 1) - 1, Least(TopLimit(f) + n - 1, BottomLimit(f))))
    case 'f' => Some(MoveTo(f, Count(nums, 1) - 1, Least(TopLimit(f) + n - 1, BottomLimit(f))))
    case 'A' => Some(CursorUp(f, n))
    case 'B' => Some(MoveTo(f, c.x, Least(c.y + n, BottomLimit(f))))
    case 'C' => Some(MoveTo(f, c.x + n, c.y))
    case 'D' => Some(MoveTo(f, SatSub(c.x, n), c.y))
    case 'G' => Some(MoveTo(f, n - 1, c.y))
    case 'I' => Some(MoveTo(f, TabForward(f.tabs, c.x, n), c.y))
    case 'Z' => Some(MoveTo(f, TabBack(f.tabs, c.x, n), c.y))
    case 'd' => Some(MoveTo(f, c.x, Least(TopLimit(f) + n - 1, BottomLimit(f))))
    case _ => None
  }

  function Edits(f: Frame, final: char, nums: seq<nat>, blank: Cell): (r: Option<Frame>)
    ensures Shaped(f) && r.Some? ==> Shaped(r.value)
  {
    var n := Count(nums, 0);
    var c := f.cursor;
    match final
    case 'J' => Some(EraseDisplay(f, First(nums), blank))
    case 'K' => Some(EraseLine(f, First(nums), blank))
    case 'X' => Some(EraseSpan(f, c.y, c.x, c.x + n, blank))
    case '@' => Some(InsertAtCursor(f, n, blank))
    case 'P' => Some(DeleteAtCursor(f, n, blank))
    case 'L' => Some(InsertLines(f, n, blank))
    case 'M' => Some(DeleteLines(f, n, blank))
    case _ => None
  }

  function Settings(f: Frame, final: char, private: bool, nums: seq<nat>): (r: Frame)
    ensures Shaped(f) ==> Shaped(r)
  {
    match final
    case 'g' =>
      if First(nums) == 0 then SetStop(f, f.cursor.x, false)
      else if First(nums) == 3 then f.(tabs := seq(|f.tabs|, _ => false))
      else f
    case 'r' => if private then f else SetMargins(f, nums)
    case 'h' =>
      if private then SetPrivateModes(f, nums, true)
      else if 4 in nums then f.(modes := f.modes.(insert := true)) else f
    case 'l' =>
      if private then SetPrivateModes(f, nums, false)
      else if 4 in nums then f.(modes := f.modes.(insert := false)) else f
    case _ => f
  }

  function ExecCsi(s: Screen, params: seq<byte>, final: char): (r: Screen)
    ensures Shaped(s.frame) ==> Shaped(r.frame)
  {
    var nums := ParseParams(params);
    var moved := Moves(s.frame, final, nums);
    var edited := Edits(s.frame, final, nums, Erased(s.attr.bg));
    if final == 'm' then s.(attr := ApplySgr(s.attr, nums))
    else if moved.Some? then s.(frame := moved.value)
    else if edited.Some? then s.(frame := edited.value)
    else s.(frame := Settings(s.frame, final, Private(params), nums))
  }

  // -------------------------------------------------------- operating system commands

  function Find<T(==)>(s: seq<T>, x: T, i: nat): (k: nat)
    requires i <= |s|
    ensures i <= k <= |s|
    ensures k < |s| ==> s[k] == x
    ensures x in s[i..] ==> k < |s|
    decreases |s| - i
  {
    if i == |s| || s[i] == x then i else Find(s, x, i + 1)
  }

  /** Selects a hyperlink, interning it if it is new. */
  function SelectLink(l: Links, params: seq<byte>, uri: seq<byte>): Links {
    if uri == [] then l.(active := 0)
    else
      var link := Hyperlink(params, uri);
      var k := Find(l.table, link, 0);
      if k < |l.table| then l.(active := k + 1) else Links(l.table + [link], |l.table| + 1)
  }

  const OSC_BOTH: seq<byte> := [0x30, 0x3b]
  const OSC_ICON: seq<byte> := [0x31, 0x3b]
  const OSC_TITLE: seq<byte> := [0x32, 0x3b]
  const OSC_CLIPBOARD: seq<byte> := [0x35, 0x32, 0x3b, 0x63, 0x3b]
  const OSC_LINK: seq<byte> := [0x38, 0x3b]

  function ApplyOsc(f: Frame, payload: seq<byte>): (r: Frame)
    ensures Shaped(f) ==> Shaped(r)
  {
    var e := f.effects;
    if OSC_BOTH <= payload then f.(effects := e.(icon := Some(payload[2..]), title := Some(payload[2..])))
    else if OSC_ICON <= payload then f.(effects := e.(icon := Some(payload[2..])))
    else if OSC_TITLE <= payload then f.(effects := e.(title := Some(payload[2..])))
    else if OSC_CLIPBOARD <= payload then f.(effects := e.(clipboard := Some(payload[5..])))
    else if OSC_LINK <= payload then
      var value := payload[2..];
      var k := FieldEnd(value, 0);
      f.(links := SelectLink(f.links, value[..k], if k < |value| then value[k + 1..] else []))
    else f
  }

  function Exec(t: Widths, s: Screen, cmd: Command): (r: Screen)
    ensures Shaped(s.frame) ==> Shaped(r.frame)
  {
    match cmd
    case Ignored => s
    case Control(code) => ExecControl(s, code)
    case Rune(ch) => Print(t, s, ch)
    case Escape(kind) => ExecEscape(s, kind)
    case Csi(params, final) => if final < 0x80 then ExecCsi(s, params, final as char) else s
    case Osc(payload) => s.(frame := ApplyOsc(s.frame, payload))
  }

  function Executing(t: Widths): (Screen, Command) -> Screen {
    (s: Screen, cmd: Command) => Exec(t, s, cmd)
  }

  /** Whatever bytes arrive, the screen stays a rectangle with cursor and margins inside. */
  lemma {:induction false} RunKeepsShape(t: Widths, s: Screen, data: seq<byte>)
    requires Shaped(s.frame)
    ensures Shaped(Run(Executing(t), s, data).state.frame)
    decreases |data|
  {
    hide Lex, Exec, Shaped;
    if data != [] && Lex(data).Item? {
      RunKeepsShape(t, Exec(t, s, Lex(data).cmd), data[Lex(data).len..]);
    }
  }
}
