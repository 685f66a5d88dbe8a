/** What the host's commands do to the screen, row by row and cell by cell. */
module Commands {
  import opened Basics
  import opened Lexer
  import opened Sgr
  import opened Cells
  import opened Screen

  /** A blank with the background of the pen. */
  function Empty(background: Color): Cell {
    Cell(' ', 1, Attr(false, false, false, false, false, false, false, false, Default, background), 0, [], true)
  }

  lemma {:induction false} EmptyIs(background: Color)
    ensures Erased(background) == Empty(background)
  {}

  predicate EmptyRow(row: seq<Cell>, cols: nat, background: Color) {
    |row| == cols && forall x :: 0 <= x < |row| ==> row[x] == Empty(background)
  }

  /** Only rows, cursor, combining target and scroll count may differ. */
  predicate OnlyText(f: Frame, g: Frame) {
    g == f.(grid := g.grid, cursor := g.cursor, target := g.target, scrolls := g.scrolls) && |g.grid| == |f.grid|
  }

  /** The cursor, with no wrap pending, is where the next combining character goes too. */
  predicate CursorAt(g: Frame, x: nat, y: nat) { g.cursor == Cursor(x, y, false) && g.target == Target(x, y, true) }

  function Next64(n: nat): nat { (n + 1) % 0x1_0000_0000_0000_0000 }

  // ---------------------------------------------------------------------------- scrolling

  /** Rows `top` to `bottom` are `n` rows further up, and blanks come in below. */
  predicate MovedUp(f: Frame, g: Frame, top: nat, bottom: nat, n: nat, background: Color) {
    && |g.grid| == |f.grid|
    && (forall y :: 0 <= y < |f.grid| && (y < top || y > bottom) ==> g.grid[y] == f.grid[y])
    && (forall y :: top <= y <= bottom && y < |f.grid| && y + n <= bottom && y + n < |f.grid| ==> g.grid[y] == f.grid[y + n])
    && (forall y :: top <= y <= bottom && y < |f.grid| && y + n > bottom ==> EmptyRow(g.grid[y], f.cols, background))
  }

  /** Rows `top` to `bottom` are `n` rows further down, and blanks come in above. */
  predicate MovedDown(f: Frame, g: Frame, top: nat, bottom: nat, n: nat, background: Color) {
    && |g.grid| == |f.grid|
    && (forall y :: 0 <= y < |f.grid| && (y < top || y > bottom) ==> g.grid[y] == f.grid[y])
    && (forall y :: top + n <= y <= bottom && y < |f.grid| ==> g.grid[y] == f.grid[y - n])
    && (forall y :: top <= y <= bottom && y < |f.grid| && y < top + n ==> EmptyRow(g.grid[y], f.cols, background))
  }

  lemma {:induction false} RowsUpIs(f: Frame, top: nat, bottom: nat, n: nat, background: Color)
    requires top <= bottom < f.rows == |f.grid|
    ensures MovedUp(f, RowsUp(f, top, bottom, n, Erased(background)), top, bottom, n, background)
    ensures RowsUp(f, top, bottom, n, Erased(background)) == f.(grid := RowsUp(f, top, bottom, n, Erased(background)).grid)
  {
    EmptyIs(background);
    hide Erased;
  }

  lemma {:induction false} RowsDownIs(f: Frame, top: nat, bottom: nat, n: nat, background: Color)
    requires top <= bottom < f.rows == |f.grid|
    ensures MovedDown(f, RowsDown(f, top, bottom, n, Erased(background)), top, bottom, n, background)
    ensures RowsDown(f, top, bottom, n, Erased(background)) == f.(grid := RowsDown(f, top, bottom, n, Erased(background)).grid)
  {
    EmptyIs(background);
    hide Erased;
  }

  /** From column `x`: down one row, and at the bottom margin the region moves up instead. */
  predicate IndexedFrom(f: Frame, g: Frame, x: nat, background: Color) {
    && OnlyText(f, g)
    && (if f.cursor.y == f.margins.bottom then
          && MovedUp(f, g, f.margins.top, f.margins.bottom, 1, background)
          && CursorAt(g, x, f.cursor.y) && g.scrolls == Next64(f.scrolls)
        else
          && g.grid == f.grid && g.scrolls == f.scrolls
          && CursorAt(g, x, if f.cursor.y + 1 < f.rows then f.cursor.y + 1 else f.cursor.y))
  }

  lemma {:induction false} IndexDownIs(f: Frame, x: nat, background: Color)
    requires Shaped(f) && x < f.cols
    ensures IndexedFrom(f, IndexDown(f.(cursor := f.cursor.(x := x)), Erased(background)), x, background)
  {
    hide Erased, RowsUp, MovedUp;
    var e := f.(cursor := f.cursor.(x := x), scrolls := WrapInc(f.scrolls));
    if f.cursor.y == f.margins.bottom {
      RowsUpIs(e, f.margins.top, f.margins.bottom, 1, background);
      SameMoved(f, e, IndexDown(f.(cursor := f.cursor.(x := x)), Erased(background)), f.margins.top, f.margins.bottom, 1, background);
    }
  }

  lemma {:induction false} SameMoved(f: Frame, e: Frame, g: Frame, top: nat, bottom: nat, n: nat, background: Color)
    requires e.grid == f.grid && e.cols == f.cols
    requires MovedUp(e, RowsUp(e, top, bottom, n, Erased(background)), top, bottom, n, background)
    requires g.grid == RowsUp(e, top, bottom, n, Erased(background)).grid
    ensures MovedUp(f, g, top, bottom, n, background)
  {
    hide RowsUp, Erased;
  }

  lemma {:induction false} SameMovedDown(f: Frame, e: Frame, g: Frame, top: nat, bottom: nat, n: nat, background: Color)
    requires e.grid == f.grid && e.cols == f.cols
    requires MovedDown(e, RowsDown(e, top, bottom, n, Erased(background)), top, bottom, n, background)
    requires g.grid == RowsDown(e, top, bottom, n, Erased(background)).grid
    ensures MovedDown(f, g, top, bottom, n, background)
  {
    hide RowsDown, Erased;
  }

  lemma {:induction false} SameCursor(f: Frame)
    ensures f.(cursor := f.cursor.(x := f.cursor.x)) == f
  {}

  /** Line feed, vertical tab and form feed. */
  lemma {:induction false} LineFeed(s: Screen, code: byte)
    requires Shaped(s.frame) && 0x0a <= code <= 0x0c
    ensures var r := ExecControl(s, code);
      r == s.(frame := r.frame) && IndexedFrom(s.frame, r.frame, s.frame.cursor.x, s.attr.bg)
  {
    hide IndexDown, Erased, IndexedFrom;
    SameCursor(s.frame);
    IndexDownIs(s.frame, s.frame.cursor.x, s.attr.bg);
  }

  /** IND and NEL. */
  lemma {:induction false} Index(s: Screen)
    requires Shaped(s.frame)
    ensures var r := ExecEscape(s, 'D' as byte);
      r == s.(frame := r.frame) && IndexedFrom(s.frame, r.frame, s.frame.cursor.x, s.attr.bg)
    ensures var r := ExecEscape(s, 'E' as byte);
      r == s.(frame := r.frame) && IndexedFrom(s.frame, r.frame, 0, s.attr.bg)
  {
    hide IndexDown, Erased, IndexedFrom;
    SameCursor(s.frame);
    IndexDownIs(s.frame, s.frame.cursor.x, s.attr.bg);
    IndexDownIs(s.frame, 0, s.attr.bg);
  }

  /** RI: up one row, and at the top margin the region moves down instead. */
  lemma {:induction false} ReverseIndexed(s: Screen)
    requires Shaped(s.frame)
    ensures var r, f := ExecEscape(s, 'M' as byte), s.frame;
      && r == s.(frame := r.frame) && OnlyText(f, r.frame)
      && (if f.cursor.y == f.margins.top then
            && MovedDown(f, r.frame, f.margins.top, f.margins.bottom, 1, s.attr.bg)
            && CursorAt(r.frame, f.cursor.x, f.cursor.y) && r.frame.scrolls == Next64(f.scrolls)
          else
            && r.frame.grid == f.grid && r.frame.scrolls == f.scrolls
            && CursorAt(r.frame, f.cursor.x, if f.cursor.y > 0 then f.cursor.y - 1 else 0))
  {
    hide Erased, RowsDown, MovedDown;
    var f := s.frame;
    var e := f.(scrolls := WrapInc(f.scrolls));
    if f.cursor.y == f.margins.top {
      RowsDownIs(e, f.margins.top, f.margins.bottom, 1, s.attr.bg);
      SameMovedDown(f, e, ExecEscape(s, 'M' as byte).frame, f.margins.top, f.margins.bottom, 1, s.attr.bg);
    }
  }

  // -------------------------------------------------------------------------- parameters

  /** The number at place `i`, where none, or zero, counts as one. */
  function Number(params: seq<byte>, i: nat): nat {
    var nums := ParseParams(params);
    if i < |nums| && nums[i] != 0 then nums[i] else 1
  }

  function Mode(params: seq<byte>): nat {
    var nums := ParseParams(params);
    if nums == [] then 0 else nums[0]
  }

  /** IL and DL: within the margins the rows from the cursor on move down or up, and the cursor goes
      to the start of its row. */
  lemma {:induction false} LinesMoved(s: Screen, params: seq<byte>)
    requires Shaped(s.frame)
    ensures var r, f := ExecCsi(s, params, 'L'), s.frame;
      && r == s.(frame := r.frame) && OnlyText(f, r.frame) && CursorAt(r.frame, 0, f.cursor.y)
      && (if f.margins.top <= f.cursor.y <= f.margins.bottom
          then MovedDown(f, r.frame, f.cursor.y, f.margins.bottom, Number(params, 0), s.attr.bg) && r.frame.scrolls == Next64(f.scrolls)
          else r.frame.grid == f.grid && r.frame.scrolls == f.scrolls)
    ensures var r, f := ExecCsi(s, params, 'M'), s.frame;
      && r == s.(frame := r.frame) && OnlyText(f, r.frame) && CursorAt(r.frame, 0, f.cursor.y)
      && (if f.margins.top <= f.cursor.y <= f.margins.bottom
          then MovedUp(f, r.frame, f.cursor.y, f.margins.bottom, Number(params, 0), s.attr.bg) && r.frame.scrolls == Next64(f.scrolls)
          else r.frame.grid == f.grid && r.frame.scrolls == f.scrolls)
  {
    hide Erased, RowsDown, RowsUp, MovedDown, MovedUp, ParseParams, ApplySgr, Settings, EraseDisplay, EraseLine;
    var f, n := s.frame, Number(params, 0);
    var e := f.(scrolls := WrapInc(f.scrolls));
    if f.margins.top <= f.cursor.y <= f.margins.bottom {
      RowsDownIs(e, f.cursor.y, f.margins.bottom, n, s.attr.bg);
      RowsUpIs(e, f.cursor.y, f.margins.bottom, n, s.attr.bg);
      SameMovedDown(f, e, ExecCsi(s, params, 'L').frame, f.cursor.y, f.margins.bottom, n, s.attr.bg);
      SameMoved(f, e, ExecCsi(s, params, 'M').frame, f.cursor.y, f.margins.bottom, n, s.attr.bg);
    }
  }

  // ------------------------------------------------------------------------------ moving

  /** Only the cursor moves, to column `x` of row `y` or as far as the screen goes. */
  predicate MovedTo(s: Screen, r: Screen, x: nat, y: nat) {
    var f := s.frame;
    && r == s.(frame := f.(cursor := r.frame.cursor, target := r.frame.target))
    && CursorAt(r.frame, if x < f.cols then x else SatSub(f.cols, 1), if y < f.rows then y else SatSub(f.rows, 1))
  }

  /** The rows the cursor may be sent to: within the margins in origin mode. */
  function Highest(f: Frame): nat { if f.modes.origin then f.margins.top else 0 }

  function Lowest(f: Frame): nat { if f.modes.origin then f.margins.bottom else SatSub(f.rows, 1) }

  function Lower(a: nat, b: nat): nat { if a < b then a else b }

  function Higher(a: nat, b: nat): nat { if a < b then b else a }

  /** CUP, VPA and CHA. */
  lemma {:induction false} Addressed(s: Screen, params: seq<byte>)
    requires Shaped(s.frame)
    ensures var f, row, column := s.frame, Number(params, 0) - 1, Number(params, 1) - 1;
      && MovedTo(s, ExecCsi(s, params, 'H'), column, Lower(Highest(f) + row, Lowest(f)))
      && MovedTo(s, ExecCsi(s, params, 'f'), column, Lower(Highest(f) + row, Lowest(f)))
      && MovedTo(s, ExecCsi(s, params, 'd'), f.cursor.x, Lower(Highest(f) + row, Lowest(f)))
      && MovedTo(s, ExecCsi(s, params, 'G'), row, f.cursor.y)
  {
    hide ParseParams, ApplySgr, Settings, Edits, TabForward, TabBack;
  }

  /** CUU and CUD. */
  lemma {:induction false} SteppedRows(s: Screen, params: seq<byte>)
    requires Shaped(s.frame)
    ensures var f, n := s.frame, Number(params, 0);
      && MovedTo(s, ExecCsi(s, params, 'A'), f.cursor.x, Higher(SatSub(f.cursor.y, n), Highest(f)))
      && MovedTo(s, ExecCsi(s, params, 'B'), f.cursor.x, Lower(f.cursor.y + n, Lowest(f)))
  {
    hide ParseParams, ApplySgr, Settings, Edits, TabForward, TabBack;
  }

  /** CUF and CUB. */
  lemma {:induction false} SteppedColumns(s: Screen, params: seq<byte>)
    requires Shaped(s.frame)
    ensures var f, n := s.frame, Number(params, 0);
      && MovedTo(s, ExecCsi(s, params, 'C'), f.cursor.x + n, f.cursor.y)
      && MovedTo(s, ExecCsi(s, params, 'D'), SatSub(f.cursor.x, n), f.cursor.y)
  {
    hide ParseParams, ApplySgr, Settings, Edits, TabForward, TabBack;
  }

  /** Column `k` is the next stop after `x`, or the last column if there is none. */
  predicate StopNext(tabs: seq<bool>, x: nat, k: nat) {
    && (forall i :: x < i < k && i < |tabs| ==> !tabs[i])
    && (if k < |tabs| && x < k && tabs[k] then true else k == SatSub(|tabs|, 1) && forall i :: x < i < |tabs| ==> !tabs[i])
  }

  /** Column `k` is the stop before `x`, or the first column if there is none. */
  predicate StopPrevious(tabs: seq<bool>, x: nat, k: nat) {
    && k <= x && (forall i :: k < i < x && i < |tabs| ==> !tabs[i])
    && ((k < x && k < |tabs| && tabs[k]) || k == 0)
  }

  lemma {:induction false} StopAfterIs(tabs: seq<bool>, x: nat)
    ensures StopNext(tabs, x, StopAfter(tabs, x))
    decreases if x < |tabs| then |tabs| - x else 0
  {
    if x + 1 < |tabs| && !tabs[x + 1] {
      StopAfterIs(tabs, x + 1);
    }
  }

  lemma {:induction false} StopBeforeIs(tabs: seq<bool>, x: nat)
    ensures StopPrevious(tabs, x, StopBefore(tabs, x))
  {
    if x > 0 && !(x - 1 < |tabs| && tabs[x - 1]) {
      StopBeforeIs(tabs, x - 1);
    }
  }

  /** Each of the columns is the next stop after the one before. */
  predicate StopsForward(tabs: seq<bool>, columns: seq<nat>) {
    forall i :: 1 <= i < |columns| ==> StopNext(tabs, columns[i - 1], columns[i])
  }

  predicate StopsBack(tabs: seq<bool>, columns: seq<nat>) {
    forall i :: 1 <= i < |columns| ==> StopPrevious(tabs, columns[i - 1], columns[i])
  }

  lemma {:induction false} ForwardStops(tabs: seq<bool>, x: nat, n: nat) returns (columns: seq<nat>)
    ensures |columns| == n + 1 && columns[0] == x && StopsForward(tabs, columns) && columns[n] == TabForward(tabs, x, n)
    decreases n
  {
    hide StopNext, StopAfter;
    if n == 0 {
      columns := [x];
    } else {
      StopAfterIs(tabs, x);
      var more := ForwardStops(tabs, StopAfter(tabs, x), n - 1);
      columns := [x] + more;
    }
  }

  lemma {:induction false} BackStops(tabs: seq<bool>, x: nat, n: nat) returns (columns: seq<nat>)
    ensures |columns| == n + 1 && columns[0] == x && StopsBack(tabs, columns) && columns[n] == TabBack(tabs, x, n)
    decreases n
  {
    hide StopPrevious, StopBefore;
    if n == 0 {
      columns := [x];
    } else {
      StopBeforeIs(tabs, x);
      var more := BackStops(tabs, StopBefore(tabs, x), n - 1);
      columns := [x] + more;
    }
  }

  /** CHT and CBT go through that many tab stops. */
  lemma {:induction false} Tabbed(s: Screen, params: seq<byte>) returns (forward: seq<nat>, back: seq<nat>)
    requires Shaped(s.frame)
    ensures var f, n := s.frame, Number(params, 0);
      && |forward| == |back| == n + 1 && forward[0] == back[0] == f.cursor.x
      && StopsForward(f.tabs, forward) && StopsBack(f.tabs, back)
      && MovedTo(s, ExecCsi(s, params, 'I'), forward[n], f.cursor.y)
      && MovedTo(s, ExecCsi(s, params, 'Z'), back[n], f.cursor.y)
  {
    hide ParseParams, ApplySgr, Settings, Edits, TabForward, TabBack, StopNext, StopPrevious;
    forward := ForwardStops(s.frame.tabs, s.frame.cursor.x, Number(params, 0));
    back := BackStops(s.frame.tabs, s.frame.cursor.x, Number(params, 0));
  }

  /** Carriage return, backspace and horizontal tab. */
  lemma {:induction false} ControlMoves(s: Screen)
    requires Shaped(s.frame)
    ensures var f := s.frame;
      && MovedTo(s, ExecControl(s, 0x0d), 0, f.cursor.y)
      && MovedTo(s, ExecControl(s, 0x08), if f.cursor.wrap then f.cursor.x else SatSub(f.cursor.x, 1), f.cursor.y)
      && StopNext(f.tabs, f.cursor.x, ExecControl(s, 0x09).frame.cursor.x)
      && ExecControl(s, 0x09).frame.cursor == f.cursor.(x := ExecControl(s, 0x09).frame.cursor.x)
      && ExecControl(s, 0x09) == s.(frame := f.(cursor := ExecControl(s, 0x09).frame.cursor, target := ExecControl(s, 0x09).frame.target))
  {
    hide StopAfter, StopNext;
    StopAfterIs(s.frame.tabs, s.frame.cursor.x);
  }

  // ----------------------------------------------------------------------------- erasing

  /** Column `x` is erased with columns `start` to `end`: it is one of them, or the other half of a
      wide glyph cut at either edge. */
  predicate ErasedWith(row: seq<Cell>, start: nat, end: nat, x: nat)
    requires x < |row|
  {
    start < end && start < |row| &&
    (start <= x < end
     || (x + 1 == start && row[x].width == 2 && row[start].width == 0)
     || (x == end && row[x].width == 0 && row[x - 1].width == 2))
  }

  predicate RowErased(row: seq<Cell>, r: seq<Cell>, start: nat, end: nat, background: Color) {
    |r| == |row| && forall x :: 0 <= x < |row| ==> r[x] == if ErasedWith(row, start, end, x) then Empty(background) else row[x]
  }

  lemma {:induction false} EraseRowIs(row: seq<Cell>, start: nat, end: nat, background: Color)
    ensures RowErased(row, EraseRow(row, start, end, Erased(background)), start, end, background)
  {
    hide Fill, Erased;
    EmptyIs(background);
    if start < end && start < |row| {
      var a, b := EraseStart(row, start), EraseEnd(row, if end < |row| then end else |row|);
      forall x | 0 <= x < |row|
        ensures EraseRow(row, start, end, Erased(background))[x] == if ErasedWith(row, start, end, x) then Empty(background) else row[x]
      {
        FillAt(row, a, b, Erased(background), x);
      }
    }
  }

  /** Only row `y` differs, and there columns `start` to `end` are erased. */
  predicate SpanErased(f: Frame, g: Frame, y: nat, start: nat, end: nat, background: Color) {
    && g == f.(grid := g.grid) && |g.grid| == |f.grid|
    && forall i :: 0 <= i < |f.grid| ==>
         if i == y then RowErased(f.grid[i], g.grid[i], start, end, background) else g.grid[i] == f.grid[i]
  }

  lemma {:induction false} EraseSpanIs(f: Frame, y: nat, start: nat, end: nat, background: Color)
    ensures SpanErased(f, EraseSpan(f, y, start, end, Erased(background)), y, start, end, background)
  {
    hide EraseRow, Erased, RowErased;
    if y < |f.grid| {
      EraseRowIs(f.grid[y], start, end, background);
    }
  }

  /** EL and ECH. */
  lemma {:induction false} LineErased(s: Screen, params: seq<byte>)
    requires Shaped(s.frame)
    ensures var f, c, r := s.frame, s.frame.cursor, ExecCsi(s, params, 'K');
      && r == s.(frame := r.frame)
      && (if Mode(params) == 0 then SpanErased(f, r.frame, c.y, c.x, f.cols, s.attr.bg)
          else if Mode(params) == 1 then SpanErased(f, r.frame, c.y, 0, c.x + 1, s.attr.bg)
          else if Mode(params) == 2 then SpanErased(f, r.frame, c.y, 0, f.cols, s.attr.bg)
          else r.frame == f)
    ensures var f, c, r := s.frame, s.frame.cursor, ExecCsi(s, params, 'X');
      r == s.(frame := r.frame) && SpanErased(f, r.frame, c.y, c.x, c.x + Number(params, 0), s.attr.bg)
  {
    hide ParseParams, ApplySgr, Settings, EraseSpan, SpanErased, Erased, EraseDisplay;
    var f, c := s.frame, s.frame.cursor;
    EraseSpanIs(f, c.y, c.x, f.cols, s.attr.bg);
    EraseSpanIs(f, c.y, 0, c.x + 1, s.attr.bg);
    EraseSpanIs(f, c.y, 0, f.cols, s.attr.bg);
    EraseSpanIs(f, c.y, c.x, c.x + Number(params, 0), s.attr.bg);
  }

  lemma {:induction false} WholeRowErased(row: seq<Cell>, r: seq<Cell>, cols: nat, background: Color)
    requires RowErased(row, r, 0, cols, background) && |row| == cols
    ensures EmptyRow(r, cols, background)
  {}

  /** Rows `top` to `end` are blank, and only they differ. */
  predicate RowsErased(f: Frame, g: Frame, top: nat, end: nat, background: Color) {
    && g == f.(grid := g.grid) && |g.grid| == |f.grid|
    && forall i :: 0 <= i < |f.grid| ==>
         if top <= i < end then EmptyRow(g.grid[i], f.cols, background) else g.grid[i] == f.grid[i]
  }

  lemma {:induction false} EraseRowsIs(f: Frame, y: nat, end: nat, background: Color)
    requires Shaped(f) && y <= end
    ensures RowsErased(f, EraseRows(f, y, end, Erased(background)), y, end, background)
    decreases end - y
  {
    hide EraseSpan, Erased, RowErased, EmptyRow;
    if y < end {
      EraseSpanIs(f, y, 0, f.cols, background);
      var g := EraseSpan(f, y, 0, f.cols, Erased(background));
      if y < |f.grid| {
        WholeRowErased(f.grid[y], g.grid[y], f.cols, background);
      }
      EraseRowsIs(g, y + 1, end, background);
    }
  }

  /** ED: the rest of the screen from the cursor, or up to it, or all of it. */
  lemma {:induction false} DisplayErased(s: Screen, params: seq<byte>)
    requires Shaped(s.frame)
    ensures var f, c, r, mode := s.frame, s.frame.cursor, ExecCsi(s, params, 'J'), Mode(params);
      && r == s.(frame := r.frame) && |r.frame.grid| == |f.grid|
      && (if mode == 2 || mode == 3 then
            && r.frame == f.(grid := r.frame.grid, scrolls := Next64(f.scrolls))
            && forall y :: 0 <= y < f.rows ==> EmptyRow(r.frame.grid[y], f.cols, s.attr.bg)
          else if mode == 0 || mode == 1 then
            && r.frame == f.(grid := r.frame.grid)
            && (forall y :: 0 <= y < f.rows ==>
                  if y == c.y then
                    RowErased(f.grid[y], r.frame.grid[y], if mode == 0 then c.x else 0, if mode == 0 then f.cols else c.x + 1, s.attr.bg)
                  else if (mode == 0 && y > c.y) || (mode == 1 && y < c.y) then EmptyRow(r.frame.grid[y], f.cols, s.attr.bg)
                  else r.frame.grid[y] == f.grid[y])
          else r.frame == f)
  {
    hide ParseParams, ApplySgr, Settings, EraseSpan, EraseRows, Erased, RowErased, BlankGrid, EmptyRow, EraseLine;
    var f, c, background := s.frame, s.frame.cursor, s.attr.bg;
    var blank := Erased(background);
    EraseSpanIs(f, c.y, c.x, f.cols, background);
    EraseRowsIs(EraseSpan(f, c.y, c.x, f.cols, blank), c.y + 1, f.rows, background);
    EraseRowsIs(f, 0, c.y, background);
    EraseSpanIs(EraseRows(f, 0, c.y, blank), c.y, 0, c.x + 1, background);
    forall y | 0 <= y < f.rows
      ensures EmptyRow(BlankGrid(f.rows, f.cols, blank)[y], f.cols, background)
    {
      BlankRowEmpty(f.rows, f.cols, background, y);
    }
  }

  lemma {:induction false} BlankRowEmpty(rows: nat, cols: nat, background: Color, y: nat)
    requires y < rows
    ensures EmptyRow(BlankGrid(rows, cols, Erased(background))[y], cols, background)
  {
    EmptyIs(background);
  }

  // ---------------------------------------------------------------------------- shifting

  /** From column `x` on the cells are `n` further right, and blanks come in before them. */
  predicate ShiftedRight(row: seq<Cell>, r: seq<Cell>, x: nat, n: nat, background: Color) {
    && |r| == |row|
    && forall i :: 0 <= i < |row| ==> r[i] == if i < x then row[i] else if i < x + n then Empty(background) else row[i - n]
  }

  /** From column `x` on the cells are `n` further left, and blanks come in at the end. */
  predicate ShiftedLeft(row: seq<Cell>, r: seq<Cell>, x: nat, n: nat, background: Color) {
    && |r| == |row|
    && forall i :: 0 <= i < |row| ==> r[i] == if i < x then row[i] else if i + n < |row| then row[i + n] else Empty(background)
  }

  lemma {:induction false} ShiftsAre(row: seq<Cell>, x: nat, n: nat, background: Color)
    requires x < |row|
    ensures ShiftedRight(row, InsertCells(row, x, n, Erased(background)), x, n, background)
    ensures ShiftedLeft(row, DeleteCells(row, x, n, Erased(background)), x, n, background)
  {
    EmptyIs(background);
    hide Erased;
  }

  /** Only row `y` differs. */
  predicate OnlyRowOf(f: Frame, g: Frame, y: nat) {
    && g == f.(grid := g.grid) && |g.grid| == |f.grid| && forall i :: 0 <= i < |f.grid| && i != y ==> g.grid[i] == f.grid[i]
  }

  /** ICH and DCH. */
  lemma {:induction false} CellsShifted(s: Screen, params: seq<byte>)
    requires Shaped(s.frame)
    ensures var f, c, r := s.frame, s.frame.cursor, ExecCsi(s, params, '@');
      && r == s.(frame := r.frame) && OnlyRowOf(f, r.frame, c.y)
      && ShiftedRight(f.grid[c.y], r.frame.grid[c.y], c.x, Number(params, 0), s.attr.bg)
    ensures var f, c, r := s.frame, s.frame.cursor, ExecCsi(s, params, 'P');
      && r == s.(frame := r.frame) && OnlyRowOf(f, r.frame, c.y)
      && ShiftedLeft(f.grid[c.y], r.frame.grid[c.y], c.x, Number(params, 0), s.attr.bg)
  {
    hide ParseParams, ApplySgr, Settings, Erased, EraseDisplay, EraseLine, InsertCells, DeleteCells, ShiftedRight, ShiftedLeft;
    ShiftsAre(s.frame.grid[s.frame.cursor.y], s.frame.cursor.x, Number(params, 0), s.attr.bg);
  }

  // ---------------------------------------------------------------------------- settings

  /** DECSTBM: rows numbered from one, the last row where no second is given; then the cursor goes
      home. Margins that do not fit are ignored. */
  lemma {:induction false} MarginsSet(s: Screen, params: seq<byte>)
    requires Shaped(s.frame) && s.frame.rows < U32_SIZE && !Private(params)
    ensures var f, r, nums := s.frame, ExecCsi(s, params, 'r'), ParseParams(params);
            var top, bottom := Number(params, 0) - 1, (if |nums| > 1 then Number(params, 1) else f.rows) - 1;
      if top < bottom < f.rows then
        MovedTo(s.(frame := f.(margins := Margins(top, bottom))), r, 0, if f.modes.origin then top else 0)
      else if nums == [] then
        MovedTo(s.(frame := f.(margins := Margins(0, SatSub(f.rows, 1)))), r, 0, 0)
      else r == s
  {
    hide ParseParams, ApplySgr, Moves, Edits;
    NoMoves(s.frame, ParseParams(params), Erased(s.attr.bg));
  }

  lemma {:induction false} NoMoves(f: Frame, nums: seq<nat>, blank: Cell)
    ensures forall final :: final in {'r', 'g', 'h', 'l'} ==> Moves(f, final, nums) == None && Edits(f, final, nums, blank) == None
  {}

  /** TBC: the stop at the cursor goes, or all of them. HTS sets one at the cursor. */
  lemma {:induction false} StopsSet(s: Screen, params: seq<byte>)
    requires Shaped(s.frame)
    ensures var f, r := s.frame, ExecCsi(s, params, 'g');
      r == s.(frame := f.(tabs := r.frame.tabs)) && |r.frame.tabs| == |f.tabs|
      && forall x :: 0 <= x < |f.tabs| ==>
           r.frame.tabs[x] == (f.tabs[x] && !(Mode(params) == 0 && x == f.cursor.x) && Mode(params) != 3)
    ensures var f, r := s.frame, ExecEscape(s, 'H' as byte);
      r == s.(frame := f.(tabs := r.frame.tabs)) && |r.frame.tabs| == |f.tabs|
      && forall x :: 0 <= x < |f.tabs| ==> r.frame.tabs[x] == (f.tabs[x] || x == f.cursor.x)
  {
    hide ParseParams, ApplySgr, Moves, Edits;
    NoMoves(s.frame, ParseParams(params), Erased(s.attr.bg));
  }

  /** SM and RM of insert mode. */
  lemma {:induction false} InsertModeSet(s: Screen, params: seq<byte>, on: bool)
    requires Shaped(s.frame) && !Private(params)
    ensures var f, r := s.frame, ExecCsi(s, params, if on then 'h' else 'l');
      r == if 4 in ParseParams(params) then s.(frame := f.(modes := f.modes.(insert := on))) else s
  {
    hide ParseParams, ApplySgr, Moves, Edits, SetPrivateModes;
    NoMoves(s.frame, ParseParams(params), Erased(s.attr.bg));
  }

  /** DECOM sends the cursor home, to the top margin if it is on; DECAWM does nothing else. */
  lemma {:induction false} OriginAndWrap(f: Frame, on: bool)
    requires Shaped(f)
    ensures var g := SetPrivateMode(f, 6, on);
      g == f.(modes := f.modes.(origin := on), cursor := g.cursor, target := g.target)
      && CursorAt(g, 0, if on then f.margins.top else 0)
    ensures SetPrivateMode(f, 7, on) == f.(modes := f.modes.(autoWrap := on))
  {}

  /** The frames of a list of private modes, set one after the other. */
  predicate SetOneByOne(f: Frame, modes: seq<nat>, on: bool, frames: seq<Frame>) {
    && |frames| == |modes| + 1 && frames[0] == f
    && forall i :: 0 <= i < |modes| ==> frames[i + 1] == SetPrivateMode(frames[i], modes[i], on)
  }

  lemma {:induction false} SetsOneByOne(f: Frame, modes: seq<nat>, on: bool) returns (frames: seq<Frame>)
    ensures SetOneByOne(f, modes, on, frames) && frames[|modes|] == SetPrivateModes(f, modes, on)
    decreases |modes|
  {
    hide SetPrivateMode;
    if modes == [] {
      frames := [f];
    } else {
      var more := SetsOneByOne(SetPrivateMode(f, modes[0], on), modes[1..], on);
      frames := [f] + more;
    }
  }

  lemma {:induction false} PrivateModesSet(s: Screen, params: seq<byte>, on: bool) returns (frames: seq<Frame>)
    requires Shaped(s.frame) && Private(params)
    ensures var modes := ParseParams(params);
      && SetOneByOne(s.frame, modes, on, frames)
      && ExecCsi(s, params, if on then 'h' else 'l') == s.(frame := frames[|modes|])
  {
    hide ParseParams, ApplySgr, Moves, Edits, SetPrivateModes, SetOneByOne;
    NoMoves(s.frame, ParseParams(params), Erased(s.attr.bg));
    frames := SetsOneByOne(s.frame, ParseParams(params), on);
    FramesLength(s.frame, ParseParams(params), on, frames);
  }

  lemma {:induction false} FramesLength(f: Frame, modes: seq<nat>, on: bool, frames: seq<Frame>)
    requires SetOneByOne(f, modes, on, frames)
    ensures |frames| == |modes| + 1
  {}

  /** DECSC and DECRC: cursor, pen, origin and wrap mode come back, whatever happened in between,
      as far as the screen and, in origin mode, the margins then allow. */
  lemma {:induction false} SavedIsRestored(s: Screen, later: Screen)
    requires Shaped(s.frame) && Shaped(later.frame) && later.saved == ExecEscape(s, '7' as byte).saved
    ensures ExecEscape(s, '7' as byte) == s.(saved := ExecEscape(s, '7' as byte).saved)
    ensures var f, g, r := s.frame, later.frame, ExecEscape(later, '8' as byte);
            var y := Lower(f.cursor.y, g.rows - 1);
      && r == later.(attr := s.attr, frame := r.frame)
      && r.frame == g.(modes := g.modes.(autoWrap := f.modes.autoWrap, origin := f.modes.origin),
                       cursor := r.frame.cursor, target := r.frame.target)
      && CursorAt(r.frame, Lower(f.cursor.x, g.cols - 1),
                  if f.modes.origin then Lower(Higher(y, g.margins.top), g.margins.bottom) else y)
  {}

  // ---------------------------------------------------------------------------- printing

  /** The glyph's own columns, and the halves of glyphs that it splits: what is left of one to its left takes
      on the glyph's background, what is left of one to its right keeps its own. */
  lemma {:induction false} PutIs(row: seq<Cell>, x: nat, w: nat, glyph: Cell, j: nat)
    requires Tidy(row) && 1 <= w <= 2 && x < |row| && glyph.width == w && j < |row|
    ensures PutRow(row, x, w, glyph)[j] ==
      if j == x then glyph
      else if j == x + 1 && w == 2 then Empty(glyph.attr.bg).(width := 0)
      else if j + 1 == x && row[x].width == 0 then Empty(glyph.attr.bg)
      else if j == x + w && row[j].width == 0 then Empty(row[j].attr.bg)
      else row[j]
  {
    assert TidyAt(row, x);
    if x + 1 < |row| {
      assert TidyAt(row, x + 1);
    }
    if x + 2 < |row| {
      assert TidyAt(row, x + 2);
    }
  }

  /** A glyph where there is room: it is put into the row, and the cursor moves past it, or stays in
      the last column with the wrap pending. */
  lemma {:induction false} GlyphPlaced(t: Widths, s: Screen, ch: char, w: nat)
    requires Shaped(s.frame) && ch != '\0' && DisplayWidth(t, ch) == Some(w) && w > 0
    requires !s.frame.modes.insert && !(s.frame.modes.autoWrap && s.frame.cursor.wrap)
    requires s.frame.cursor.x + 1 < s.frame.cols || StandaloneWidth(t, ch) != 2 || !s.frame.modes.autoWrap
    ensures var f, c, r := s.frame, s.frame.cursor, Print(t, s, ch);
      && r == s.(frame := f.(grid := r.frame.grid, cursor := r.frame.cursor, target := Target(c.x, c.y, true)))
      && r.frame.grid == f.grid[c.y := PutRow(f.grid[c.y], c.x, w, Cell(ch, w, s.attr, f.links.active, [], false))]
      && r.frame.cursor == if c.x + w < f.cols then Cursor(c.x + w, c.y, false) else Cursor(f.cols - 1, c.y, f.modes.autoWrap)
  {
    hide PutRow, DisplayWidth, StandaloneWidth;
  }

  /** What printing makes of a line break in front of the glyph does not depend on the combining
      target. */
  lemma {:induction false} BrokenLine(t: Widths, s: Screen, e: Screen, ch: char, w: nat)
    requires ch != '\0' && DisplayWidth(t, ch) == Some(w) && w > 0
    requires Shaped(e.frame) && e.frame.cursor == Cursor(0, e.frame.cursor.y, false) && e.frame.cols >= 2
    requires e.frame == MakeRoom(t, s.frame, ch, Erased(s.attr.bg)).(target := e.frame.target) && e == s.(frame := e.frame)
    ensures Print(t, s, ch) == Print(t, e, ch)
  {
    hide PutRow, DisplayWidth, StandaloneWidth, InsertCells, Erased, NextLine;
    var blank := Erased(s.attr.bg);
    assert MakeRoom(t, e.frame, ch, blank) == e.frame;
  }

  /** A pending wrap is a new line before the glyph. */
  lemma {:induction false} WrapIsNewLine(t: Widths, s: Screen, ch: char, w: nat)
    requires Shaped(s.frame) && ch != '\0' && DisplayWidth(t, ch) == Some(w) && w > 0
    requires s.frame.modes.autoWrap && s.frame.cursor.wrap && s.frame.cols >= 2
    ensures Print(t, s, ch) == Print(t, ExecEscape(s, 'E' as byte), ch)
  {
    hide DisplayWidth, StandaloneWidth, Erased, NextLine, Print, IndexDown;
    NewLineThenStart(s.frame, Erased(s.attr.bg));
    EscapeLine(s);
    BrokenLine(t, s, ExecEscape(s, 'E' as byte), ch, w);
  }

  lemma {:induction false} EscapeLine(s: Screen)
    requires Shaped(s.frame)
    ensures var e := ExecEscape(s, 'E' as byte);
      && e == s.(frame := IndexDown(s.frame.(cursor := s.frame.cursor.(x := 0)), Erased(s.attr.bg)))
      && e.frame.cursor == Cursor(0, e.frame.cursor.y, false) && e.frame.cols == s.frame.cols && Shaped(e.frame)
      && e.frame.modes == s.frame.modes
  {
    hide Erased;
  }

  lemma {:induction false} NewLineThenStart(f: Frame, blank: Cell)
    ensures var g := NextLine(f.(cursor := f.cursor.(wrap := false)), blank);
            var h := IndexDown(f.(cursor := f.cursor.(x := 0)), blank);
      h == g.(cursor := g.cursor.(x := 0), target := h.target)
  {}

  /** A wide glyph that does not fit the line blanks the last column and starts the next one. */
  lemma {:induction false} WideStartsLine(t: Widths, s: Screen, ch: char, w: nat)
    requires Shaped(s.frame) && ch != '\0' && DisplayWidth(t, ch) == Some(w) && StandaloneWidth(t, ch) == 2
    requires s.frame.modes.autoWrap && !s.frame.cursor.wrap && s.frame.cursor.x + 1 == s.frame.cols && s.frame.cols >= 2
    ensures var f, c := s.frame, s.frame.cursor;
            var blanked := s.(frame := f.(grid := f.grid[c.y := f.grid[c.y][c.x := Empty(s.attr.bg)]]));
      Print(t, s, ch) == Print(t, ExecEscape(blanked, 'E' as byte), ch)
  {
    hide DisplayWidth, StandaloneWidth, Erased, Empty, NextLine, Print, IndexDown;
    EmptyIs(s.attr.bg);
    var f, c := s.frame, s.frame.cursor;
    var b := RowSet(f, c.y, f.grid[c.y][c.x := Erased(s.attr.bg)]);
    NewLineThenStart(b, Erased(s.attr.bg));
    SameWrap(b);
    EscapeLine(s.(frame := b));
    WidthIsWide(t, ch);
    BrokenLine(t, s, ExecEscape(s.(frame := b), 'E' as byte), ch, w);
  }

  lemma {:induction false} WidthIsWide(t: Widths, ch: char)
    ensures StandaloneWidth(t, ch) == 2 ==> DisplayWidth(t, ch) == Some(2)
  {}

  lemma {:induction false} SameWrap(f: Frame)
    ensures !f.cursor.wrap ==> f.(cursor := f.cursor.(wrap := false)) == f
  {}

  /** In insert mode the cells from the cursor on move over first. */
  lemma {:induction false} InsertModeShifts(t: Widths, s: Screen, ch: char, w: nat)
    requires Shaped(s.frame) && ch != '\0' && DisplayWidth(t, ch) == Some(w) && w > 0
    requires s.frame.modes.insert && !(s.frame.modes.autoWrap && s.frame.cursor.wrap)
    requires s.frame.cursor.x + 1 < s.frame.cols || StandaloneWidth(t, ch) != 2 || !s.frame.modes.autoWrap
    ensures var f, c := s.frame, s.frame.cursor;
            var shifted := InsertCells(f.grid[c.y], c.x, w, Erased(s.attr.bg));
            var r := Print(t, s.(frame := f.(grid := f.grid[c.y := shifted], modes := f.modes.(insert := false))), ch);
      && ShiftedRight(f.grid[c.y], shifted, c.x, w, s.attr.bg)
      && Print(t, s, ch) == r.(frame := r.frame.(modes := f.modes))
  {
    hide PutRow, DisplayWidth, StandaloneWidth, InsertCells, Erased, ShiftedRight;
    ShiftsAre(s.frame.grid[s.frame.cursor.y], s.frame.cursor.x, w, s.attr.bg);
  }

  /** A combining character joins the cell printed last: after its other ones while there is room for
      32 bytes, or, in a cell without a glyph, on a no-break space past which the cursor moves. */
  lemma {:induction false} Combines(t: Widths, s: Screen, ch: char)
    requires Shaped(s.frame) && ch != '\0' && DisplayWidth(t, ch) == Some(0)
    requires var p := s.frame.target; p.valid && Inside(s.frame, p.x, p.y)
    ensures var f, p, r := s.frame, s.frame.target, Print(t, s, ch);
            var c, d := f.grid[p.y][p.x], r.frame.grid[p.y][p.x];
      && OnlyRowOf(f.(cursor := r.frame.cursor), r.frame, p.y) && r == s.(frame := r.frame)
      && r.frame.grid[p.y] == f.grid[p.y][p.x := d]
      && (if c.empty then
            && d == c.(ch := '\U{A0}', width := 1, suffix := [ch], empty := false)
            && r.frame.cursor == (if f.cursor.x + 1 < f.cols then Cursor(f.cursor.x + 1, f.cursor.y, false)
                                  else Cursor(f.cols - 1, f.cursor.y, true))
          else
            && r.frame.cursor == f.cursor
            && d == if ContentLength(c) < 32 then c.(suffix := c.suffix + [ch]) else c)
  {
    hide DisplayWidth, ContentLength;
  }

  // ------------------------------------------------------------ operating system commands

  /** No address ends the link; any other is looked up in the table, and added if it is new. */
  predicate Selected(l: Links, m: Links, params: seq<byte>, uri: seq<byte>) {
    var link := Hyperlink(params, uri);
    && (uri == [] ==> m == l.(active := 0))
    && (uri != [] ==>
          && 0 < m.active <= |m.table| && m.table[m.active - 1] == link
          && m.table == (if link in l.table then l.table else l.table + [link])
          && forall i :: 0 <= i < m.active - 1 ==> m.table[i] != link)
  }

  lemma {:induction false} SelectedIs(l: Links, params: seq<byte>, uri: seq<byte>)
    ensures Selected(l, SelectLink(l, params, uri), params, uri)
  {
    FindFirst(l.table, Hyperlink(params, uri), 0);
  }

  /** OSC 8. */
  lemma {:induction false} LinkSelected(t: Widths, s: Screen, params: seq<byte>, uri: seq<byte>)
    requires forall i :: 0 <= i < |params| ==> params[i] != 0x3b
    ensures var r := Exec(t, s, Osc([0x38, 0x3b] + params + [0x3b] + uri));
      r == s.(frame := s.frame.(links := r.frame.links)) && Selected(s.frame.links, r.frame.links, params, uri)
  {
    hide SelectLink, FieldEnd, Selected;
    var payload := [0x38, 0x3b] + params + [0x3b] + uri;
    var value := payload[2..];
    assert payload[0] == 0x38 && payload[..2] == OSC_LINK;
    assert value == params + [0x3b] + uri;
    LinkFieldEnds(value, 0, |params|);
    assert value[..|params|] == params && value[|params| + 1..] == uri;
    SelectedIs(s.frame.links, params, uri);
  }

  lemma {:induction false} LinkFieldEnds(s: seq<byte>, i: nat, n: nat)
    requires i <= n < |s| && s[n] == 0x3b && forall j :: i <= j < n ==> s[j] != 0x3b
    ensures FieldEnd(s, i) == n
    decreases n - i
  {
    if i < n {
      LinkFieldEnds(s, i + 1, n);
    }
  }

  lemma {:induction false} FindFirst(s: seq<Hyperlink>, x: Hyperlink, i: nat)
    requires i <= |s|
    ensures forall j :: i <= j < Find(s, x, i) ==> s[j] != x
    ensures (Find(s, x, i) < |s|) == (x in s[i..])
    decreases |s| - i
  {
    if i < |s| && s[i] != x {
      FindFirst(s, x, i + 1);
      assert s[i..] == [s[i]] + s[i + 1..];
    }
  }

  /** OSC 0, 1, 2 and 52;c set the icon name, the title, both, or the clipboard. */
  lemma {:induction false} EffectsSet(t: Widths, s: Screen, value: seq<byte>)
    ensures var e := s.frame.effects;
      && Exec(t, s, Osc([0x30, 0x3b] + value)) == s.(frame := s.frame.(effects := e.(icon := Some(value), title := Some(value))))
      && Exec(t, s, Osc([0x31, 0x3b] + value)) == s.(frame := s.frame.(effects := e.(icon := Some(value))))
      && Exec(t, s, Osc([0x32, 0x3b] + value)) == s.(frame := s.frame.(effects := e.(title := Some(value))))
      && Exec(t, s, Osc([0x35, 0x32, 0x3b, 0x63, 0x3b] + value)) == s.(frame := s.frame.(effects := e.(clipboard := Some(value))))
  {
    var both, icon, title, clip := OSC_BOTH + value, OSC_ICON + value, OSC_TITLE + value, OSC_CLIPBOARD + value;
    assert both[..2] == OSC_BOTH && both[2..] == value;
    assert icon[0] == 0x31 && icon[..2] == OSC_ICON && icon[2..] == value;
    assert title[0] == 0x32 && title[..2] == OSC_TITLE && title[2..] == value;
    assert clip[0] == 0x35 && clip[..5] == OSC_CLIPBOARD && clip[5..] == value;
  }

  /** Any other does nothing, nor do other controls, escapes and control sequences; a bell is counted. */
  lemma {:induction false} OthersIgnored(t: Widths, s: Screen, cmd: Command)
    requires match cmd
      case Ignored => true
      case Control(code) => code !in {0x07, 0x08, 0x09, 0x0a, 0x0b, 0x0c, 0x0d}
      case Rune(ch) => ch == '\0' || DisplayWidth(t, ch) == None
      case Escape(kind) => kind !in {0x37, 0x38, 0x44, 0x45, 0x48, 0x4d}
      case Csi(_, final) =>
        final !in {0x40, 0x41, 0x42, 0x43, 0x44, 0x47, 0x48, 0x49, 0x4a, 0x4b, 0x4c, 0x4d, 0x50, 0x58, 0x5a,
                   0x64, 0x66, 0x67, 0x68, 0x6c, 0x6d, 0x72}
      case Osc(payload) =>
        && !([0x30, 0x3b] <= payload) && !([0x31, 0x3b] <= payload) && !([0x32, 0x3b] <= payload) && !([0x38, 0x3b] <= payload)
        && !([0x35, 0x32, 0x3b, 0x63, 0x3b] <= payload)
    ensures Exec(t, s, cmd) == s
  {
    hide ParseParams, DisplayWidth, ApplySgr, EraseDisplay, EraseLine;
  }

  lemma {:induction false} BellCounted(t: Widths, s: Screen)
    ensures Exec(t, s, Control(0x07)) == s.(frame := s.frame.(effects := s.frame.effects.(bells := Next64(s.frame.effects.bells))))
  {}

  // ------------------------------------------------------------------------------- widths

  /** The marks that take one column whatever the table says: two of Khmer, trigrams, monograms and hexagrams,
      signs of ideographic description, and strokes. */
  predicate OneColumnMark(ch: char) {
    || ch in {'\U{17A4}', '\U{17D8}', '\U{31E4}', '\U{31E5}', '\U{31EF}', '\U{2FFC}', '\U{2FFD}', '\U{2FFE}', '\U{2FFF}'}
    || ('\U{2630}' <= ch < '\U{2638}') || ('\U{268A}' <= ch < '\U{2690}') || ('\U{4DC0}' <= ch < '\U{4E00}')
  }

  /** Apart from these and the Hangul filler the table decides, but two columns are the most. At the right
      margin a wide one of a supplementary plane counts as narrow. */
  lemma {:induction false} WidthsAre(t: Widths, ch: char)
    ensures DisplayWidth(t, ch) ==
      if ch == '\U{3164}' then Some(2)
      else if OneColumnMark(ch) then Some(1)
      else if t(ch).None? then None
      else Some(if t(ch).value >= 2 then 2 else t(ch).value)
    ensures StandaloneWidth(t, ch) ==
      if DisplayWidth(t, ch).None? then 0
      else if ch > '\U{FFFF}' && DisplayWidth(t, ch) == Some(2) then 1
      else DisplayWidth(t, ch).value
  {}
}
