/** Plain output: lines of text, each on its own row, and the last of them on the screen. */
module Paging {
  import opened Basics
  import opened Lexer
  import opened Sgr
  import opened Cells
  import opened Screen
  import opened Printer
  import opened Reading
  import opened Commands

  /** Characters of one column each, no more than fit a row. */
  predicate Line(t: Widths, text: seq<char>, cols: nat) {
    |text| <= cols && forall i :: 0 <= i < |text| ==> text[i] as nat >= 0x20 && DisplayWidth(t, text[i]) == Some(1)
  }

  /** The row that shows the text. */
  function LineCells(text: seq<char>, cols: nat): (row: seq<Cell>)
    ensures |row| == cols
    ensures forall x :: 0 <= x < cols ==> row[x] == if x < |text| then Cell(text[x], 1, PLAIN, 0, [], false) else BLANK
  {
    seq(cols, x requires 0 <= x => if x < |text| then Cell(text[x], 1, PLAIN, 0, [], false) else BLANK)
  }

  /** The lines with CR LF between them. */
  function LinesBytes(lines: seq<seq<char>>): seq<byte> {
    if lines == [] then []
    else if |lines| == 1 then Characters(lines[0])
    else LinesBytes(lines[..|lines| - 1]) + [0x0d, 0x0a] + Characters(lines[|lines| - 1])
  }

  /** How many of `k` lines fit `rows` rows. */
  function Fit(k: nat, rows: nat): nat { if k < rows then k else rows }

  /** The last lines, in order, and blank rows below them. */
  predicate Page(grid: seq<seq<Cell>>, lines: seq<seq<char>>, cols: nat) {
    var n := Fit(|lines|, |grid|);
    forall y :: 0 <= y < |grid| ==> grid[y] == LineCells(if y < n then lines[|lines| - n + y] else [], cols)
  }

  /** Nothing set that would make text behave otherwise. */
  predicate PlainScreen(s: Screen, cols: nat, rows: nat) {
    var f := s.frame;
    && Shaped(f) && f.cols == cols && f.rows == rows && s.attr == PLAIN
    && f.modes == DEFAULT_MODES && f.margins == Margins(0, rows - 1) && f.links == Links([], 0)
  }

  predicate SamePlain(s: Screen, r: Screen) { OnlyText(s.frame, r.frame) && r == s.(frame := r.frame) && Shaped(r.frame) }

  lemma {:induction false} PlainStays(s: Screen, r: Screen, cols: nat, rows: nat)
    requires PlainScreen(s, cols, rows) && SamePlain(s, r)
    ensures PlainScreen(r, cols, rows)
  {}

  // ----------------------------------------------------------------------------- one line

  lemma {:induction false} PutNarrowCell(text: seq<char>, cols: nat, i: nat)
    requires i < |text| <= cols
    ensures PutRow(LineCells(text[..i], cols), i, 1, Cell(text[i], 1, PLAIN, 0, [], false)) == LineCells(text[..i + 1], cols)
  {
    var row := LineCells(text[..i], cols);
    assert PutRow(row, i, 1, Cell(text[i], 1, PLAIN, 0, [], false)) == row[i := Cell(text[i], 1, PLAIN, 0, [], false)];
  }

  /** The first `i` characters are written on row `y`. */
  predicate Written(s: Screen, r: Screen, text: seq<char>, i: nat, y: nat)
    requires i <= |text| && y < |s.frame.grid|
  {
    && SamePlain(s, r) && r.frame.scrolls == s.frame.scrolls
    && r.frame.grid == s.frame.grid[y := LineCells(text[..i], s.frame.cols)]
    && r.frame.cursor == if i < s.frame.cols then Cursor(i, y, false) else Cursor(s.frame.cols - 1, y, true)
  }

  lemma {:induction false} CharWritten(t: Widths, s: Screen, r: Screen, text: seq<char>, i: nat, y: nat, cols: nat, rows: nat)
    requires PlainScreen(s, cols, rows) && Line(t, text, cols) && i < |text| && y < rows && Written(s, r, text, i, y)
    ensures Written(s, Print(t, r, text[i]), text, i + 1, y)
  {
    hide PutRow, DisplayWidth;
    PutNarrowCell(text, cols, i);
    NarrowStands(t, text[i]);
    hide LineCells, StandaloneWidth;
    GlyphPlaced(t, r, text[i], 1);
    var row := r.frame.grid[y];
    assert row == LineCells(text[..i], cols);
    assert s.frame.grid[y := row][y := LineCells(text[..i + 1], cols)] == s.frame.grid[y := LineCells(text[..i + 1], cols)];
  }

  lemma {:induction false} NarrowStands(t: Widths, ch: char)
    ensures DisplayWidth(t, ch) == Some(1) ==> StandaloneWidth(t, ch) == 1
  {}

  /** Text from the start of an empty row fills that row. */
  lemma {:induction false} TakesText(t: Widths, s: Screen, text: seq<char>, i: nat, y: nat, cols: nat, rows: nat) returns (r: Screen)
    requires PlainScreen(s, cols, rows) && Line(t, text, cols) && i <= |text| && y < rows
    requires s.frame.cursor == Cursor(0, y, false) && s.frame.grid[y] == LineCells([], cols)
    ensures Takes(t, s, Characters(text[..i]), r) && Written(s, r, text, i, y)
  {
    hide Takes, Print, LineCells, DisplayWidth;
    if i == 0 {
      r := s;
      assert text[..0] == [];
      TakesNothing(t, s);
      assert s.frame.grid[y := s.frame.grid[y]] == s.frame.grid;
    } else {
      var before := TakesText(t, s, text, i - 1, y, cols, rows);
      r := Print(t, before, text[i - 1]);
      CharWritten(t, s, before, text, i - 1, y, cols, rows);
      assert text[..i] == text[..i - 1] + [text[i - 1]];
      TakesChar(t, before, text[i - 1]);
      TakesThen(t, s, Characters(text[..i - 1]), before, EncodeChar(text[i - 1]), r);
    }
  }

  // --------------------------------------------------------------------------- line breaks

  /** The cursor is at the start of the next row, and on the bottom row everything is a row up. */
  predicate Broken(s: Screen, r: Screen) {
    && SamePlain(s, r)
    && (if s.frame.cursor.y + 1 < s.frame.rows then
          r.frame.grid == s.frame.grid && r.frame.cursor == Cursor(0, s.frame.cursor.y + 1, false)
        else
          && r.frame.cursor == Cursor(0, s.frame.cursor.y, false)
          && forall y :: 0 <= y < s.frame.rows ==>
               r.frame.grid[y] == if y + 1 < s.frame.rows then s.frame.grid[y + 1] else LineCells([], s.frame.cols))
  }

  lemma {:induction false} EmptyLine(row: seq<Cell>, cols: nat)
    requires EmptyRow(row, cols, Default)
    ensures row == LineCells([], cols)
  {}

  lemma {:induction false} TakesBreak(t: Widths, s: Screen, cols: nat, rows: nat) returns (r: Screen)
    requires PlainScreen(s, cols, rows)
    ensures Takes(t, s, [0x0d, 0x0a], r) && Broken(s, r)
  {
    hide Takes, ExecControl, LineCells;
    var c := ExecControl(s, 0x0d);
    r := ExecControl(c, 0x0a);
    ControlMoves(s);
    StillShaped(s, 0x0d);
    StillShaped(c, 0x0a);
    LineFeed(c, 0x0a);
    TakesOne(t, s, [0x0d], Control(0x0d));
    TakesOne(t, c, [0x0a], Control(0x0a));
    TakesThen(t, s, [0x0d], c, [0x0a], r);
    assert [0x0d] + [0x0a] == [0x0d, 0x0a];
    if s.frame.cursor.y + 1 == rows {
      forall y | 0 <= y < rows
        ensures r.frame.grid[y] == if y + 1 < rows then s.frame.grid[y + 1] else LineCells([], cols)
      {
        if y + 1 == rows {
          EmptyLine(r.frame.grid[y], cols);
        }
      }
    }
  }

  lemma {:induction false} StillShaped(s: Screen, code: byte)
    requires Shaped(s.frame)
    ensures Shaped(ExecControl(s, code).frame)
  {}

  // ------------------------------------------------------------------------------ all lines

  predicate Lines(t: Widths, lines: seq<seq<char>>, cols: nat) {
    forall i :: 0 <= i < |lines| ==> Line(t, lines[i], cols)
  }

  /** What a page of lines looks like. */
  predicate OnPage(s: Screen, lines: seq<seq<char>>, cols: nat, rows: nat) {
    PlainScreen(s, cols, rows) && Page(s.frame.grid, lines, cols) && s.frame.cursor.y + 1 == Fit(|lines|, rows)
  }

  lemma {:induction false} PageMore(s: Screen, b: Screen, r: Screen, lines: seq<seq<char>>, last: seq<char>, cols: nat, rows: nat)
    requires OnPage(s, lines, cols, rows) && lines != [] && |last| <= cols && Broken(s, b)
    requires Written(b, r, last, |last|, b.frame.cursor.y)
    ensures OnPage(r, lines + [last], cols, rows)
  {
    hide LineCells;
    assert last[..|last|] == last;
    var all := lines + [last];
    var n, m := Fit(|lines|, rows), Fit(|all|, rows);
    forall y | 0 <= y < rows
      ensures r.frame.grid[y] == LineCells(if y < m then all[|all| - m + y] else [], cols)
    {
      if y == b.frame.cursor.y {
        assert all[|all| - m + y] == last;
      } else if y < m {
        assert all[|all| - m + y] == lines[|all| - m + y];
      }
    }
  }

  /** A row that text may be written on. */
  lemma {:induction false} BrokenBlank(s: Screen, b: Screen, lines: seq<seq<char>>, cols: nat, rows: nat)
    requires OnPage(s, lines, cols, rows) && lines != [] && Broken(s, b)
    ensures b.frame.cursor == Cursor(0, b.frame.cursor.y, false) && b.frame.cursor.y < rows
    ensures b.frame.grid[b.frame.cursor.y] == LineCells([], cols)
  {
    hide LineCells;
  }

  predicate Blanked(s: Screen, cols: nat, rows: nat) {
    && PlainScreen(s, cols, rows) && s.frame.cursor == Cursor(0, 0, false)
    && forall y :: 0 <= y < rows ==> s.frame.grid[y] == LineCells([], cols)
  }

  lemma {:induction false} FirstLine(s: Screen, r: Screen, line: seq<char>, cols: nat, rows: nat)
    requires Blanked(s, cols, rows) && |line| <= cols && Written(s, r, line, |line|, 0)
    ensures OnPage(r, [line], cols, rows)
  {
    hide LineCells;
    assert line[..|line|] == line;
  }

  lemma {:induction false} LineFits(t: Widths, text: seq<char>, cols: nat)
    requires Line(t, text, cols)
    ensures |text| <= cols
  {}

  lemma {:induction false} PagePlain(s: Screen, lines: seq<seq<char>>, cols: nat, rows: nat)
    requires OnPage(s, lines, cols, rows)
    ensures PlainScreen(s, cols, rows)
  {}

  lemma {:induction false} BrokenPlain(s: Screen, b: Screen, cols: nat, rows: nat)
    requires PlainScreen(s, cols, rows) && Broken(s, b)
    ensures PlainScreen(b, cols, rows)
  {
    PlainStays(s, b, cols, rows);
  }

  lemma {:induction false} TakesLines(t: Widths, s: Screen, lines: seq<seq<char>>, cols: nat, rows: nat) returns (r: Screen)
    requires lines != [] && Lines(t, lines, cols) && Blanked(s, cols, rows)
    ensures Takes(t, s, LinesBytes(lines), r) && OnPage(r, lines, cols, rows)
    decreases |lines|
  {
    hide Takes, LineCells, Line, OnPage, Written, Broken;
    var k := |lines| - 1;
    var init, last := lines[..k], lines[k];
    LineFits(t, last, cols);
    assert last[..|last|] == last;
    if k == 0 {
      r := TakesText(t, s, last, |last|, 0, cols, rows);
      FirstLine(s, r, last, cols, rows);
      assert lines == [last];
    } else {
      var a := TakesLines(t, s, init, cols, rows);
      PagePlain(a, init, cols, rows);
      var b := TakesBreak(t, a, cols, rows);
      BrokenBlank(a, b, init, cols, rows);
      BrokenPlain(a, b, cols, rows);
      r := TakesText(t, b, last, |last|, b.frame.cursor.y, cols, rows);
      PageMore(a, b, r, init, last, cols, rows);
      assert lines == init + [last];
      TakesThen(t, s, LinesBytes(init), a, [0x0d, 0x0a], b);
      TakesThen(t, s, LinesBytes(init) + [0x0d, 0x0a], b, Characters(last), r);
    }
  }

  /** The last lines, in order and each on its own row from the top; what is below them is blank. */
  predicate LastLines(grid: seq<seq<Cell>>, lines: seq<seq<char>>, cols: nat, rows: nat) {
    var n := if |lines| < rows then |lines| else rows;
    && |grid| == rows && (forall y :: 0 <= y < rows ==> |grid[y]| == cols)
    && forall y, x :: 0 <= y < rows && 0 <= x < cols ==>
         grid[y][x] == if y < n && x < |lines[|lines| - n + y]| then Cell(lines[|lines| - n + y][x], 1, PLAIN, 0, [], false)
                       else BLANK
  }

  lemma {:induction false} PageShows(s: Screen, lines: seq<seq<char>>, cols: nat, rows: nat)
    requires OnPage(s, lines, cols, rows)
    ensures LastLines(s.frame.grid, lines, cols, rows)
  {}

  lemma {:induction false} NewIsBlanked(cols: nat, rows: nat)
    requires cols > 0 && rows > 0
    ensures Blanked(Screen(NewFrame(cols, rows), PLAIN, UNSAVED), cols, rows)
  {
    var s := Screen(NewFrame(cols, rows), PLAIN, UNSAVED);
    forall y | 0 <= y < rows ensures s.frame.grid[y] == LineCells([], cols) {}
  }

  /** Lines that fit the width, separated by CR LF, on a blank screen leave its last lines in order. */
  lemma {:induction false} LastLinesShown(t: Widths, lines: seq<seq<char>>, cols: nat, rows: nat)
    requires cols > 0 && rows > 0 && lines != [] && Lines(t, lines, cols)
    ensures
      var o := Feed(Executing(t), Fed(Screen(NewFrame(cols, rows), PLAIN, UNSAVED), []), LinesBytes(lines));
      o.carry == [] && LastLines(o.state.frame.grid, lines, cols, rows)
  {
    hide Lines, LinesBytes, NewFrame, Blanked, OnPage, LastLines, Feed;
    NewIsBlanked(cols, rows);
    var r := TakesLines(t, Screen(NewFrame(cols, rows), PLAIN, UNSAVED), lines, cols, rows);
    PageShows(r, lines, cols, rows);
  }
}
