/** Why a row must not end in a wide glyph that wraps: a terminal of two or more columns never
    holds one in its last column, whatever the printer sends it. */
module Wrapping {
  import opened Basics
  import opened Lexer
  import opened Sgr
  import opened Cells
  import opened Screen
  import opened Printer
  import opened Reading
  import opened Painting
  import opened Glass
  import opened Meta
  import opened Repaint

  // ------------------------------------------------------------------- what terminals hold

  predicate EndOk(t: Widths, c: Cell) { !(c.width == 2 && StandaloneWidth(t, c.ch) == 2) }

  predicate RowEndOk(t: Widths, row: seq<Cell>) { row != [] ==> EndOk(t, row[|row| - 1]) }

  predicate EndsOk(t: Widths, grid: seq<seq<Cell>>) { forall y :: 0 <= y < |grid| ==> RowEndOk(t, grid[y]) }

  /** A terminal that wraps, with no wide glyph in the last column that would have. */
  predicate Wrapping(t: Widths, s: Screen) {
    && Shaped(s.frame) && s.frame.cols >= 2 && s.frame.modes == DEFAULT_MODES && EndsOk(t, s.frame.grid)
  }

  /** Terminals with whole glyphs are such. */
  lemma {:induction false} WholeEnds(t: Widths, grid: seq<seq<Cell>>)
    requires forall y :: 0 <= y < |grid| ==> Paired(grid[y])
    ensures EndsOk(t, grid)
  {
    hide Paired, Tidy, StandaloneWidth;
    forall y | 0 <= y < |grid|
      ensures RowEndOk(t, grid[y])
    {
      PairedIsTidy(grid[y]);
    }
  }

  lemma {:induction false} BlankEnd(t: Widths, background: Color)
    ensures EndOk(t, Erased(background)) && EndOk(t, Continuation(background)) && EndOk(t, BLANK)
  {}

  lemma {:induction false} SetEnd(t: Widths, row: seq<Cell>, x: nat, c: Cell)
    requires RowEndOk(t, row) && x < |row| && (x + 1 == |row| ==> EndOk(t, c))
    ensures RowEndOk(t, row[x := c])
  {
    hide EndOk;
  }

  /** Writing a glyph that ends within the row, or does not wrap. */
  lemma {:induction false} PutEnd(t: Widths, row: seq<Cell>, x: nat, w: nat, glyph: Cell)
    requires RowEndOk(t, row) && x < |row| && (x + 1 == |row| ==> EndOk(t, glyph))
    ensures RowEndOk(t, PutRow(row, x, w, glyph))
  {
    hide EndOk, Erased, Continuation;
    BlankEnd(t, glyph.attr.bg);
    if x + 1 < |row| {
      BlankEnd(t, row[x + 1].attr.bg);
    }
    if x + 2 < |row| {
      BlankEnd(t, row[x + 2].attr.bg);
    }
  }

  lemma {:induction false} SetRowEnds(t: Widths, grid: seq<seq<Cell>>, y: nat, row: seq<Cell>)
    requires EndsOk(t, grid) && y < |grid| && RowEndOk(t, row)
    ensures EndsOk(t, grid[y := row])
  {
    hide RowEndOk;
  }

  lemma {:induction false} BlankGridEnds(t: Widths, rows: nat, cols: nat, background: Color)
    ensures EndsOk(t, BlankGrid(rows, cols, Erased(background)))
  {
    hide EndOk;
    BlankEnd(t, background);
  }

  lemma {:induction false} ScrollEnds(t: Widths, f: Frame, background: Color)
    requires EndsOk(t, f.grid)
    ensures EndsOk(t, NextLine(f, Erased(background)).grid)
  {
    hide RowEndOk, BlankGrid, Erased;
    BlankGridEnds(t, 1, f.cols, background);
  }

  // --------------------------------------------------------------------- what printing does

  lemma {:induction false} ExtendEnds(t: Widths, f: Frame, ch: char)
    requires EndsOk(t, f.grid)
    ensures EndsOk(t, Extend(f, ch).grid) && Extend(f, ch).modes == f.modes && Extend(f, ch).cols == f.cols
  {
    hide StandaloneWidth, ContentLength;
    var p := f.target;
    if p.valid && Inside(f, p.x, p.y) {
      var row := f.grid[p.y];
      assert RowEndOk(t, row);
      var c := if row[p.x].empty then StartFallback(row[p.x], ch) else AppendChar(row[p.x], ch);
      SetEnd(t, row, p.x, c);
      SetRowEnds(t, f.grid, p.y, row[p.x := c]);
    }
  }

  /** The next glyph has room: it ends within the row, or does not wrap. */
  predicate HasRoom(t: Widths, f: Frame, ch: char) { f.cursor.x + 1 < f.cols || StandaloneWidth(t, ch) != 2 }

  lemma {:induction false} RoomEnds(t: Widths, f: Frame, ch: char, background: Color)
    requires Shaped(f) && f.cols >= 2 && f.modes == DEFAULT_MODES && EndsOk(t, f.grid)
    ensures var g := MakeRoom(t, f, ch, Erased(background));
      EndsOk(t, g.grid) && g.modes == f.modes && g.cols == f.cols && HasRoom(t, g, ch)
  {
    hide RowEndOk, StandaloneWidth, Erased, NextLine;
    var blank, c := Erased(background), f.cursor;
    NextLineKeeps(f.(cursor := c.(wrap := false)), blank);
    ScrollEnds(t, f.(cursor := c.(wrap := false)), background);
    NextLineKeeps(f, blank);
    ScrollEnds(t, f, background);
    if Inside(f, c.x, c.y) {
      var row := f.grid[c.y][c.x := blank];
      BlankedEnds(t, f, background);
      NextLineKeeps(RowSet(f, c.y, row), blank);
      ScrollEnds(t, RowSet(f, c.y, row), background);
    }
  }

  lemma {:induction false} NextLineKeeps(f: Frame, blank: Cell)
    ensures var g := NextLine(f, blank); g.modes == f.modes && g.cols == f.cols
  {}

  lemma {:induction false} BlankedEnds(t: Widths, f: Frame, background: Color)
    requires EndsOk(t, f.grid) && Inside(f, f.cursor.x, f.cursor.y)
    ensures EndsOk(t, f.grid[f.cursor.y := f.grid[f.cursor.y][f.cursor.x := Erased(background)]])
  {
    hide EndOk, Erased;
    BlankEnd(t, background);
    assert RowEndOk(t, f.grid[f.cursor.y]);
    SetEnd(t, f.grid[f.cursor.y], f.cursor.x, Erased(background));
    SetRowEnds(t, f.grid, f.cursor.y, f.grid[f.cursor.y][f.cursor.x := Erased(background)]);
  }

  lemma {:induction false} PlaceEnds(t: Widths, f: Frame, ch: char, w: nat, attr: Attr)
    requires Shaped(f) && EndsOk(t, f.grid) && HasRoom(t, f, ch)
    ensures var g := Place(f, ch, w, attr); EndsOk(t, g.grid) && g.modes == f.modes && g.cols == f.cols
  {
    hide RowEndOk, StandaloneWidth, PutRow;
    var c, glyph := f.cursor, Glyph(ch, w, attr, f.links.active);
    assert RowEndOk(t, f.grid[c.y]) && |f.grid[c.y]| == f.cols;
    PutEnd(t, f.grid[c.y], c.x, w, glyph);
    SetRowEnds(t, f.grid, c.y, PutRow(f.grid[c.y], c.x, w, glyph));
  }

  lemma {:induction false} PrintWraps(t: Widths, s: Screen, ch: char)
    requires Wrapping(t, s)
    ensures Wrapping(t, Print(t, s, ch))
  {
    hide Shaped, EndsOk, DisplayWidth, Extend, MakeRoom, Place, HasRoom, Erased;
    var w, f := DisplayWidth(t, ch), s.frame;
    if w == Some(0) {
      ExtendEnds(t, f, ch);
    } else if w.Some? {
      RoomEnds(t, f, ch, s.attr.bg);
      PlaceEnds(t, MakeRoom(t, f, ch, Erased(s.attr.bg)), ch, w.value, s.attr);
    }
  }

  // ------------------------------------------------------------------ strings of the printer

  ghost predicate HarmlessTo(t: Widths, s: Screen, bytes: seq<byte>) {
    Wrapping(t, s) ==> exists s' :: Takes(t, s, bytes, s') && Wrapping(t, s')
  }

  /** Taken whole by any wrapping terminal, which stays one. */
  ghost predicate Harmless(t: Widths, bytes: seq<byte>) { forall s :: HarmlessTo(t, s, bytes) }

  lemma {:induction false} HarmlessNothing(t: Widths)
    ensures Harmless(t, [])
  {
    hide Takes, Wrapping;
    forall s: Screen
      ensures HarmlessTo(t, s, [])
    {
      TakesNothing(t, s);
    }
  }

  lemma {:induction false} HarmlessThen(t: Widths, a: seq<byte>, b: seq<byte>)
    requires Harmless(t, a) && Harmless(t, b)
    ensures Harmless(t, a + b)
  {
    hide Takes, Wrapping;
    forall s: Screen
      ensures HarmlessTo(t, s, a + b)
    {
      assert HarmlessTo(t, s, a);
      if Wrapping(t, s) {
        var s1 :| Takes(t, s, a, s1) && Wrapping(t, s1);
        assert HarmlessTo(t, s1, b);
        var s2 :| Takes(t, s1, b, s2) && Wrapping(t, s2);
        TakesThen(t, s, a, s1, b, s2);
      }
    }
  }

  /** Same grid, same size and same modes. */
  predicate SameCells(f: Frame, g: Frame) {
    Shaped(g) && g.grid == f.grid && g.cols == f.cols && g.modes == f.modes
  }

  lemma {:induction false} SameWraps(t: Widths, s: Screen, s': Screen)
    requires Wrapping(t, s) && SameCells(s.frame, s'.frame)
    ensures Wrapping(t, s')
  {
    hide EndsOk;
  }

  lemma {:induction false} HarmlessChar(t: Widths, ch: char)
    requires ch as nat >= 0x20
    ensures Harmless(t, EncodeChar(ch))
  {
    hide Takes, Wrapping, Print, EncodeChar;
    forall s: Screen
      ensures HarmlessTo(t, s, EncodeChar(ch))
    {
      if Wrapping(t, s) {
        TakesChar(t, s, ch);
        PrintWraps(t, s, ch);
      }
    }
  }

  lemma {:induction false} HarmlessCharacters(t: Widths, chars: seq<char>)
    requires forall i :: 0 <= i < |chars| ==> chars[i] as nat >= 0x20
    ensures Harmless(t, Characters(chars))
    decreases |chars|
  {
    hide Harmless, EncodeChar;
    if chars == [] {
      HarmlessNothing(t);
    } else {
      HarmlessCharacters(t, chars[..|chars| - 1]);
      HarmlessChar(t, chars[|chars| - 1]);
      HarmlessThen(t, Characters(chars[..|chars| - 1]), EncodeChar(chars[|chars| - 1]));
    }
  }

  /** Taken whole, without touching cells or modes. */
  predicate TakesAside(t: Widths, s: Screen, bytes: seq<byte>, s': Screen) {
    Takes(t, s, bytes, s') && SameCells(s.frame, s'.frame)
  }

  lemma {:induction false} AsideHarmless(t: Widths, bytes: seq<byte>)
    requires forall s :: Wrapping(t, s) ==> exists s' :: TakesAside(t, s, bytes, s')
    ensures Harmless(t, bytes)
  {
    hide Takes, Wrapping, SameCells;
    forall s: Screen
      ensures HarmlessTo(t, s, bytes)
    {
      if Wrapping(t, s) {
        var s' :| TakesAside(t, s, bytes, s');
        SameWraps(t, s, s');
      }
    }
  }

  lemma {:induction false} MoveSame(f: Frame, x: nat, y: nat)
    requires Shaped(f)
    ensures SameCells(f, MoveTo(f, x, y))
  {}

  lemma {:induction false} MarginsSame(f: Frame, nums: seq<nat>)
    requires Shaped(f)
    ensures SameCells(f, SetMargins(f, nums))
  {}

  /** Cursor addresses, attributes and margins. */
  lemma {:induction false} CsiSame(s: Screen, params: seq<byte>, final: char)
    requires Shaped(s.frame) && (final == 'H' || final == 'm' || (final == 'r' && !Private(params)))
    ensures SameCells(s.frame, ExecCsi(s, params, final).frame)
  {
    hide Shaped, ParseParams, ApplySgr, MoveTo, GridOk, SetMargins, Count, SetPrivateModes;
    var nums, f := ParseParams(params), s.frame;
    MarginsSame(f, nums);
    MoveSame(f, Count(nums, 1) - 1, Least(TopLimit(f) + Count(nums, 0) - 1, BottomLimit(f)));
  }

  lemma {:induction false} HarmlessCsi(t: Widths, params: seq<byte>, final: byte)
    requires ParamBytes(params) && final in {'H' as byte, 'm' as byte, 'r' as byte} && !Private(params)
    ensures Harmless(t, CsiBytes(params, final))
  {
    hide Takes, ExecCsi, CsiBytes, SameCells, EndsOk, Shaped;
    forall s | Wrapping(t, s)
      ensures exists s' :: TakesAside(t, s, CsiBytes(params, final), s')
    {
      TakesCsi(t, s, params, final);
      CsiSame(s, params, final as char);
      assert TakesAside(t, s, CsiBytes(params, final), ExecCsi(s, params, final as char));
    }
    AsideHarmless(t, CsiBytes(params, final));
  }

  lemma {:induction false} HarmlessNumbers(t: Widths, nums: seq<nat>, final: byte)
    requires nums != [] && final in {'H' as byte, 'm' as byte, 'r' as byte}
    ensures Harmless(t, CsiBytes(Joined(nums), final))
  {
    hide Joined, Harmless, CsiBytes;
    JoinedBytes(nums);
    HarmlessCsi(t, Joined(nums), final);
  }

  lemma {:induction false} HarmlessAttr(t: Widths, cur: Attr, next: Attr)
    ensures Harmless(t, AttrDiff(cur, next)) && Harmless(t, ResetDiff(cur))
  {
    hide Harmless, CsiBytes, Joined, DiffCodes;
    HarmlessNothing(t);
    if DiffCodes(cur, next) != [] {
      HarmlessNumbers(t, DiffCodes(cur, next), 'm' as byte);
    }
    HarmlessCsi(t, [], 'm' as byte);
  }

  lemma {:induction false} HarmlessMode(t: Widths, mode: nat, on: bool)
    requires mode < U32_SIZE && mode != 6 && mode != 7
    ensures Harmless(t, PrivateMode(mode, on))
  {
    hide Takes, SetPrivateMode, PrivateMode, EndsOk, Shaped, SameCells;
    forall s | Wrapping(t, s)
      ensures exists s' :: TakesAside(t, s, PrivateMode(mode, on), s')
    {
      TakesPrivateMode(t, s, mode, on);
      ModeSame(s.frame, mode, on);
      assert TakesAside(t, s, PrivateMode(mode, on), s.(frame := SetPrivateMode(s.frame, mode, on)));
    }
    AsideHarmless(t, PrivateMode(mode, on));
  }

  lemma {:induction false} ModeSame(f: Frame, mode: nat, on: bool)
    requires Shaped(f) && mode != 6 && mode != 7
    ensures SameCells(f, SetPrivateMode(f, mode, on))
  {}

  lemma {:induction false} HarmlessOsc(t: Widths, prefix: seq<byte>, value: seq<byte>)
    requires ShortPrefix(prefix) && Clean(value)
    ensures Harmless(t, OscBytes(prefix, value))
  {
    hide Takes, ApplyOsc, OscBytes, EndsOk, Shaped, SameCells, Clean, ShortPrefix;
    forall s | Wrapping(t, s)
      ensures exists s' :: TakesAside(t, s, OscBytes(prefix, value), s')
    {
      TakesOsc(t, s, prefix, value);
      OscSame(s.frame, prefix + value);
      assert TakesAside(t, s, OscBytes(prefix, value), s.(frame := ApplyOsc(s.frame, prefix + value)));
    }
    AsideHarmless(t, OscBytes(prefix, value));
  }

  lemma {:induction false} OscSame(f: Frame, payload: seq<byte>)
    requires Shaped(f)
    ensures SameCells(f, ApplyOsc(f, payload))
  {
    hide SelectLink;
  }

  lemma {:induction false} HarmlessLink(t: Widths, cur: Option<Hyperlink>, link: Option<Hyperlink>)
    requires LinkOk(link)
    ensures Harmless(t, LinkDiff(cur, link))
  {
    hide Takes, LinkBytes, EndsOk, Shaped, LinkOk, Selected;
    HarmlessNothing(t);
    forall s | Wrapping(t, s)
      ensures exists s' :: TakesAside(t, s, LinkBytes(link), s')
    {
      TakesLink(t, s, link);
      LinksKeepShape(s.frame, Selected(s.frame.links, link));
      assert TakesAside(t, s, LinkBytes(link), s.(frame := s.frame.(links := Selected(s.frame.links, link))));
    }
    AsideHarmless(t, LinkBytes(link));
  }

  /** Carriage return and line feed, which may scroll, and the bell. */
  lemma {:induction false} HarmlessControl(t: Widths, code: byte)
    requires code in {0x0d, 0x0a, BEL}
    ensures Harmless(t, [code])
  {
    hide Takes, EndsOk, Shaped, ExecControl;
    forall s: Screen
      ensures HarmlessTo(t, s, [code])
    {
      if Wrapping(t, s) {
        TakesOne(t, s, [code], Control(code));
        ControlWraps(t, s, code);
        assert Exec(t, s, Control(code)) == ExecControl(s, code);
      }
    }
  }

  lemma {:induction false} ControlWraps(t: Widths, s: Screen, code: byte)
    requires Wrapping(t, s) && code in {0x0d, 0x0a, BEL}
    ensures Wrapping(t, ExecControl(s, code))
  {
    hide EndsOk, Shaped, NextLine;
    NextLineKeeps(s.frame, Erased(s.attr.bg));
    ScrollEnds(t, s.frame, s.attr.bg);
  }

  lemma {:induction false} HarmlessNewLine(t: Widths)
    ensures Harmless(t, [0x0d, 0x0a])
  {
    hide Harmless;
    HarmlessControl(t, 0x0d);
    HarmlessControl(t, 0x0a);
    HarmlessThen(t, [0x0d], [0x0a]);
    assert [0x0d] + [0x0a] == [0x0d, 0x0a];
  }

  // ------------------------------------------------------------------------------- painting

  lemma {:induction false} HarmlessCell(t: Widths, l: Links, c: Cell, y: nat, x: nat, p: Pencil)
    requires GlyphOk(t, c) && LinkOk(Resolve(l, c.link))
    ensures Harmless(t, PaintCell(l, c, y, x, p).bytes)
  {
    hide Harmless, LinkDiff, AttrDiff, CsiBytes, Joined, EncodeChar, Characters, LinkOk, DisplayWidth, CanonicalAttr, ContentLength, Resolve, CellBytes;
    var link := Resolve(l, c.link);
    HarmlessNothing(t);
    HarmlessNumbers(t, [y + 1, x + 1], 'H' as byte);
    HarmlessLink(t, p.link, link);
    HarmlessAttr(t, p.attr, c.attr);
    CellBytesOf(c);
    HarmlessChar(t, c.ch);
    HarmlessCharacters(t, c.suffix);
    HarmlessThen(t, EncodeChar(c.ch), Characters(c.suffix));
    HarmlessThen(t, AttrDiff(p.attr, c.attr), CellBytes(c));
    HarmlessThen(t, LinkDiff(p.link, link), AttrDiff(p.attr, c.attr) + CellBytes(c));
    HarmlessThen(t, if p.x != x || p.y != y then Cup(y, x) else [], LinkDiff(p.link, link) + (AttrDiff(p.attr, c.attr) + CellBytes(c)));
  }

  lemma {:induction false} HarmlessFrom(t: Widths, l: Links, row: seq<Cell>, y: nat, x: nat, end: nat, p: Pencil)
    requires RowPrintable(t, l, row) && x <= end <= |row|
    ensures Harmless(t, PaintFrom(l, row, y, x, end, p).bytes)
    decreases end - x
  {
    hide Harmless, PaintCell, Visible, GlyphOk, LinkOk, Resolve;
    if x == end {
      HarmlessNothing(t);
    } else if !Visible(row)[x] {
      HarmlessFrom(t, l, row, y, x + 1, end, p);
    } else {
      VisibleAt(row, x);
      var a := PaintCell(l, row[x], y, x, p);
      HarmlessCell(t, l, row[x], y, x, p);
      HarmlessFrom(t, l, row, y, x + 1, end, a.pencil);
      HarmlessThen(t, a.bytes, PaintFrom(l, row, y, x + 1, end, a.pencil).bytes);
    }
  }

  lemma {:induction false} HarmlessRows(t: Widths, next: Frame, prev: Frame, y: nat, p: Pencil)
    requires SameSize(next, prev) && y <= next.rows
    requires forall i :: 0 <= i < next.rows ==> RowPrintable(t, next.links, next.grid[i])
    ensures Harmless(t, PaintRows(next, prev, y, p).bytes)
    decreases next.rows - y
  {
    hide Harmless, PaintFrom, RowPrintable, FirstChanged, LastChanged;
    HarmlessNothing(t);
    if y < next.rows {
      var a := PaintRow(next, prev, y, p);
      var n, o := next.grid[y], prev.grid[y];
      var first, last := FirstChanged(next.links, n, prev.links, o, 0), LastChanged(next.links, n, prev.links, o, |n|);
      if first <= last {
        HarmlessFrom(t, next.links, n, y, first, last + 1, p);
      }
      HarmlessRows(t, next, prev, y + 1, a.pencil);
      HarmlessThen(t, a.bytes, PaintRows(next, prev, y + 1, a.pencil).bytes);
    }
  }

  lemma {:induction false} HarmlessRedrawRows(t: Widths, next: Frame, y: nat, p: Pencil)
    requires y <= |next.grid|
    requires forall i :: 0 <= i < |next.grid| ==> RowPrintable(t, next.links, next.grid[i])
    ensures Harmless(t, RedrawRows(next, y, p).bytes)
    decreases |next.grid| - y
  {
    hide Harmless, PaintFrom, RowPrintable, InkEnd;
    HarmlessNothing(t);
    if y < |next.grid| {
      var n, start := next.grid[y], p.(x := 0, y := y);
      var b := PaintFrom(next.links, n, y, 0, InkEnd(n, |n|), start);
      var a := RedrawRow(next, y, p);
      HarmlessFrom(t, next.links, n, y, 0, InkEnd(n, |n|), start);
      HarmlessNewLine(t);
      HarmlessThen(t, [0x0d, 0x0a], b.bytes);
      HarmlessRedrawRows(t, next, y + 1, a.pencil);
      HarmlessThen(t, a.bytes, RedrawRows(next, y + 1, a.pencil).bytes);
    }
  }

  // ------------------------------------------------------------------------------ metadata

  lemma {:induction false} HarmlessOff(t: Widths, modes: seq<nat>)
    requires forall i :: 0 <= i < |modes| ==> OtherMode(modes[i])
    ensures Harmless(t, SwitchOff(modes))
    decreases |modes|
  {
    hide Harmless, PrivateMode;
    HarmlessNothing(t);
    if modes != [] {
      HarmlessMode(t, modes[0], false);
      HarmlessOff(t, modes[1..]);
      HarmlessThen(t, PrivateMode(modes[0], false), SwitchOff(modes[1..]));
    }
  }

  predicate OtherMode(mode: nat) { mode < U32_SIZE && mode != 6 && mode != 7 }

  lemma {:induction false} HarmlessChoice(t: Widths, next: nat, prev: nat, all: seq<nat>, force: bool)
    requires OtherMode(next) && OtherMode(prev) && forall i :: 0 <= i < |all| ==> OtherMode(all[i])
    ensures Harmless(t, ChoiceDiff(next, prev, all, force))
  {
    hide Harmless, PrivateMode, SwitchOff;
    HarmlessNothing(t);
    HarmlessOff(t, all);
    HarmlessMode(t, prev, false);
    HarmlessMode(t, next, true);
    var off := if force then SwitchOff(all) else if prev != 0 then PrivateMode(prev, false) else [];
    HarmlessThen(t, off, if next != 0 then PrivateMode(next, true) else []);
  }

  lemma {:induction false} HarmlessSwitch(t: Widths, mode: nat, next: bool, prev: bool, force: bool)
    requires OtherMode(mode)
    ensures Harmless(t, SwitchDiff(mode, next, prev, force))
  {
    hide Harmless, PrivateMode;
    HarmlessNothing(t);
    HarmlessMode(t, mode, next);
  }

  lemma {:induction false} HarmlessSwitches(t: Widths, n: Switches, p: Switches, force: bool)
    requires SwitchesOk(n) && SwitchesOk(p)
    ensures Harmless(t, SwitchBytes(n, p, force))
  {
    hide Harmless, SwitchDiff, ChoiceDiff;
    HarmlessSwitch(t, 5, n.reverseVideo, p.reverseVideo, force);
    HarmlessSwitch(t, 2004, n.bracketedPaste, p.bracketedPaste, force);
    HarmlessChoice(t, n.mouseReporting, p.mouseReporting, REPORTING_MODES, force);
    HarmlessSwitch(t, 1004, n.mouseFocus, p.mouseFocus, force);
    HarmlessChoice(t, n.mouseEncoding, p.mouseEncoding, ENCODING_MODES, force);
    var b5 := ChoiceDiff(n.mouseEncoding, p.mouseEncoding, ENCODING_MODES, force);
    var b4 := SwitchDiff(1004, n.mouseFocus, p.mouseFocus, force);
    var b3 := ChoiceDiff(n.mouseReporting, p.mouseReporting, REPORTING_MODES, force);
    var b2 := SwitchDiff(2004, n.bracketedPaste, p.bracketedPaste, force);
    HarmlessThen(t, b4, b5);
    HarmlessThen(t, b3, b4 + b5);
    HarmlessThen(t, b2, b3 + (b4 + b5));
    HarmlessThen(t, SwitchDiff(5, n.reverseVideo, p.reverseVideo, force), b2 + (b3 + (b4 + b5)));
  }

  lemma {:induction false} HarmlessTitles(t: Widths, next: Effects, icon: bool, title: bool)
    requires EffectsOk(next)
    ensures Harmless(t, Titles(next, icon, title))
  {
    hide Harmless, OscBytes, Clean;
    HarmlessNothing(t);
    if next.icon.Some? {
      HarmlessOsc(t, OSC_BOTH, next.icon.value);
      HarmlessOsc(t, OSC_ICON, next.icon.value);
    }
    if next.title.Some? {
      HarmlessOsc(t, OSC_TITLE, next.title.value);
    }
    HarmlessThen(t, if icon && next.icon.Some? then OscBytes(OSC_ICON, next.icon.value) else [],
                 if title && next.title.Some? then OscBytes(OSC_TITLE, next.title.value) else []);
  }

  lemma {:induction false} NothingClean()
    ensures Clean([])
  {}

  lemma {:induction false} HarmlessEffects(t: Widths, next: Frame, prev: Option<Frame>, force: bool)
    requires EffectsOk(next.effects)
    ensures Harmless(t, EffectBytes(next, prev, force))
  {
    hide Harmless, OscBytes, Titles, Clean;
    var e := PrevEffects(prev);
    HarmlessNothing(t);
    HarmlessControl(t, BEL);
    HarmlessTitles(t, next.effects, force || next.effects.icon != e.icon, force || next.effects.title != e.title);
    NothingClean();
    HarmlessOsc(t, OSC_CLIPBOARD, ValueOr(next.effects.clipboard));
    var titles := Titles(next.effects, force || next.effects.icon != e.icon, force || next.effects.title != e.title);
    var clip := if next.effects.clipboard != e.clipboard then OscBytes(OSC_CLIPBOARD, ValueOr(next.effects.clipboard)) else [];
    HarmlessThen(t, titles, clip);
    HarmlessThen(t, if next.effects.bells != e.bells then [BEL] else [], titles + clip);
  }

  lemma {:induction false} HarmlessMetadata(t: Widths, next: Frame, prev: Option<Frame>, force: bool)
    requires EffectsOk(next.effects) && SwitchesOk(next.switches) && SwitchesOk(PrevSwitches(prev))
    ensures Harmless(t, Metadata(next, prev, force))
  {
    hide Harmless, EffectBytes, SwitchBytes, EffectsOk, SwitchesOk, CsiBytes, Joined;
    HarmlessNothing(t);
    HarmlessEffects(t, next, prev, force);
    HarmlessSwitches(t, next.switches, PrevSwitches(prev), force);
    HarmlessNumbers(t, [next.margins.top + 1, next.margins.bottom + 1], 'r' as byte);
    HarmlessCsi(t, [], 'r' as byte);
    var margins := if MarginsChanged(next, prev, force) then MarginBytes(next.margins, next.rows) else [];
    HarmlessThen(t, SwitchBytes(next.switches, PrevSwitches(prev), force), margins);
    HarmlessThen(t, EffectBytes(next, prev, force), SwitchBytes(next.switches, PrevSwitches(prev), force) + margins);
  }

  // ---------------------------------------------------------------------------- whole diffs

  lemma {:induction false} HarmlessTail(t: Widths, next: Frame, move: bool, on: bool, change: bool)
    ensures Harmless(t, CursorBytes(next, move) + VisibleBytes(on, change))
  {
    hide Harmless, CsiBytes, Joined, PrivateMode;
    HarmlessNothing(t);
    HarmlessNumbers(t, [next.cursor.y + 1, next.cursor.x + 1], 'H' as byte);
    HarmlessMode(t, 25, on);
    HarmlessThen(t, CursorBytes(next, move), VisibleBytes(on, change));
  }

  /** What the printer writes for a printable frame is harmless. */
  lemma {:induction false} HarmlessDiff(t: Widths, next: Frame, prev: Frame)
    requires Printable(t, next) && SameSize(next, prev) && SwitchesOk(prev.switches)
    ensures Harmless(t, Diff(next, prev))
  {
    hide Harmless, Metadata, CursorSwitch, PaintRows, CellsChanged, ResetDiff, LinkDiff, RowPrintable, EffectsOk, SwitchesOk, LinkOk, CursorBytes, VisibleBytes, Diff;
    var p := Pencil(PLAIN, ActiveLink(prev), -1, -1);
    var rows, changed := PaintRows(next, prev, 0, p), CellsChanged(next, prev);
    var move := changed || next.margins != prev.margins || next.cursor.x != prev.cursor.x || next.cursor.y != prev.cursor.y;
    var on := next.switches.cursorVisible;
    var change := if changed then on else on != prev.switches.cursorVisible;
    HarmlessNothing(t);
    HarmlessMetadata(t, next, Some(prev), false);
    HarmlessHide(t);
    HarmlessRows(t, next, prev, 0, p);
    HarmlessAttr(t, rows.pencil.attr, PLAIN);
    HarmlessLink(t, rows.pencil.link, ActiveLink(next));
    HarmlessTail(t, next, move, on, change);
    var tail := CursorBytes(next, move) + VisibleBytes(on, change);
    HarmlessThen(t, LinkDiff(rows.pencil.link, ActiveLink(next)), tail);
    HarmlessThen(t, ResetDiff(rows.pencil.attr), LinkDiff(rows.pencil.link, ActiveLink(next)) + tail);
    HarmlessThen(t, Metadata(next, Some(prev), false), if changed then CursorSwitch(false) else []);
    HarmlessThen(t, Metadata(next, Some(prev), false) + (if changed then CursorSwitch(false) else []), rows.bytes);
    HarmlessThen(t, (Metadata(next, Some(prev), false) + (if changed then CursorSwitch(false) else [])) + rows.bytes,
                 ResetDiff(rows.pencil.attr) + (LinkDiff(rows.pencil.link, ActiveLink(next)) + tail));
    DiffShape(next, prev);
  }

  lemma {:induction false} HarmlessHide(t: Widths)
    ensures Harmless(t, CursorSwitch(false))
  {
    hide Harmless, PrivateMode;
    HarmlessMode(t, 25, false);
  }

  /** What follows the clearing of a full redraw. */
  function AfterClearing(next: Frame, prev: Option<Frame>): seq<byte> {
    var rows := RedrawRows(next, 0, Pencil(PLAIN, None, 0, 0));
    rows.bytes + (ResetDiff(rows.pencil.attr) + (LinkDiff(rows.pencil.link, ActiveLink(next)) + (Metadata(next, prev, true)
      + (CursorBytes(next, true) + VisibleBytes(true, next.switches.cursorVisible)))))
  }

  lemma {:induction false} RedrawShape(next: Frame, prev: Option<Frame>)
    ensures Redraw(next, prev) == CLEARING + AfterClearing(next, prev)
  {
    hide RedrawRows, ResetDiff, LinkDiff, Metadata, Cup, CursorSwitch, CLEARING;
  }

  lemma {:induction false} HarmlessRedraw(t: Widths, next: Frame, prev: Option<Frame>)
    requires Printable(t, next) && SwitchesOk(PrevSwitches(prev))
    ensures Harmless(t, AfterClearing(next, prev))
  {
    hide Harmless, Metadata, RedrawRows, ResetDiff, LinkDiff, RowPrintable, EffectsOk, SwitchesOk, LinkOk, CursorBytes, VisibleBytes;
    var rows := RedrawRows(next, 0, Pencil(PLAIN, None, 0, 0));
    HarmlessRedrawRows(t, next, 0, Pencil(PLAIN, None, 0, 0));
    HarmlessAttr(t, rows.pencil.attr, PLAIN);
    HarmlessLink(t, rows.pencil.link, ActiveLink(next));
    HarmlessMetadata(t, next, prev, true);
    HarmlessTail(t, next, true, true, next.switches.cursorVisible);
    var tail := CursorBytes(next, true) + VisibleBytes(true, next.switches.cursorVisible);
    HarmlessThen(t, Metadata(next, prev, true), tail);
    HarmlessThen(t, LinkDiff(rows.pencil.link, ActiveLink(next)), Metadata(next, prev, true) + tail);
    HarmlessThen(t, ResetDiff(rows.pencil.attr), LinkDiff(rows.pencil.link, ActiveLink(next)) + (Metadata(next, prev, true) + tail));
    HarmlessThen(t, rows.bytes,
                 ResetDiff(rows.pencil.attr) + (LinkDiff(rows.pencil.link, ActiveLink(next)) + (Metadata(next, prev, true) + tail)));
  }

  // -------------------------------------------------------------------------- the condition

  lemma {:induction false} StaysWrapping(t: Widths, s: Screen, bytes: seq<byte>, s': Screen)
    requires Wrapping(t, s) && Harmless(t, bytes) && Takes(t, s, bytes, s')
    ensures Wrapping(t, s')
  {
    hide Takes, Wrapping;
    assert HarmlessTo(t, s, bytes);
    var s'' :| Takes(t, s, bytes, s'') && Wrapping(t, s'');
    TakesOnce(t, s, bytes, s', s'');
  }

  /** A wrapping terminal shows no frame with a row that wraps. */
  lemma {:induction false} WrappingShows(t: Widths, s: Screen, f: Frame)
    requires Wrapping(t, s) && Shows(s, f)
    ensures OnLines(t, f)
  {
    hide Visible, StandaloneWidth;
    forall y | 0 <= y < |f.grid|
      ensures !Wraps(t, f.grid[y])
    {
      assert RowEndOk(t, s.frame.grid[y]);
      assert RowShown(s.frame.links, s.frame.grid[y], f.links, f.grid[y]);
      assert Matches(s.frame.links, s.frame.grid[y], f.links, f.grid[y], f.cols - 1);
    }
  }

  /** When the diff of two frames works: of all frames that host bytes build, it shows exactly
      those of which no row ends in a wide glyph that wraps. */
  lemma {:induction false} DiffShownExactly(t: Widths, s: Screen, next: Frame, prev: Frame)
    requires Printable(t, next) && Displays(s, prev) && SameSize(next, prev) && SwitchesOk(prev.switches)
    requires next.cols >= 2 && EndsOk(t, s.frame.grid)
    ensures (exists s' :: Takes(t, s, Diff(next, prev), s') && Shows(s', next)) <==> OnLines(t, next)
  {
    hide Takes, Diff, Drawable, Printable, Harmless, Shows, OnLines, EndsOk, RowsLeft;
    DrawableParts(t, next);
    if OnLines(t, next) {
      var s' := DiffShows(t, s, next, prev);
    } else if s' :| Takes(t, s, Diff(next, prev), s') && Shows(s', next) {
      ReadyWraps(t, s, prev);
      HarmlessDiff(t, next, prev);
      StaysWrapping(t, s, Diff(next, prev), s');
      WrappingShows(t, s', next);
    }
  }

  lemma {:induction false} ReadyWraps(t: Widths, s: Screen, f: Frame)
    requires Displays(s, f) && EndsOk(t, s.frame.grid) && f.cols >= 2
    ensures Wrapping(t, s)
  {
    hide EndsOk, RowsOk;
  }

  lemma {:induction false} ClearedWraps(t: Widths, s: Screen, next: Frame)
    requires Clearable(s, next) && next.cols >= 2
    ensures Wrapping(t, AfterClear(s))
  {
    hide BlankGrid;
    BlankGridEnds(t, next.rows, next.cols, Default);
    assert Erased(Default) == BLANK;
  }

  /** The same for full redraws, on any terminal of the size. */
  lemma {:induction false} RedrawShownExactly(t: Widths, s: Screen, next: Frame, prev: Option<Frame>)
    requires Printable(t, next) && Clearable(s, next) && SpaceIsNarrow(t) && SwitchesOk(PrevSwitches(prev)) && next.cols >= 2
    ensures (exists s' :: Takes(t, s, Redraw(next, prev), s') && Shows(s', next)) <==> OnLines(t, next)
  {
    hide Takes, Redraw, Drawable, Harmless, Shows, OnLines, BlankElsewhere, RowPrintable, CLEARING, AfterClearing, AfterClear, Clearable, SwitchesOk, EffectsOk, LinkOk, MarginsOk;
    DrawableParts(t, next);
    if OnLines(t, next) {
      var s' := RedrawShows(t, s, next, prev);
    } else if s' :| Takes(t, s, Redraw(next, prev), s') && Shows(s', next) {
      var s6 := AfterClear(s);
      TakesClearing(t, s, next);
      ClearedWraps(t, s, next);
      HarmlessRedraw(t, next, prev);
      RedrawShape(next, prev);
      TakesRestOf(t, s, CLEARING, s6, AfterClearing(next, prev), s');
      StaysWrapping(t, s6, AfterClearing(next, prev), s');
      WrappingShows(t, s', next);
    }
  }

  /** What a frame may be written to: a terminal that shows the frame before and never got a
      wrapping glyph at its end, or any terminal that is cleared first. */
  predicate Paintable(t: Widths, s: Screen, next: Frame, prev: Option<Frame>) {
    Applicable(s, next, prev) && (prev.Some? && SameSize(next, prev.value) ==> EndsOk(t, s.frame.grid))
  }

  /** For whatever is written for a frame. */
  lemma {:induction false} ShownExactly(t: Widths, s: Screen, next: Frame, prev: Option<Frame>)
    requires Printable(t, next) && SpaceIsNarrow(t) && Paintable(t, s, next, prev) && next.cols >= 2
    ensures (exists s' :: Takes(t, s, FrameDiff(next, prev), s') && Shows(s', next)) <==> OnLines(t, next)
  {
    hide Takes, Diff, Redraw, Shows, Displays, Printable, OnLines, EndsOk, Clearable, SpaceIsNarrow;
    if prev.Some? && SameSize(next, prev.value) {
      DiffShownExactly(t, s, next, prev.value);
    } else {
      RedrawShownExactly(t, s, next, prev);
    }
  }

  // --------------------------------------------------------------------------- whole streams

  /** A terminal that follows a stream of frames never gets a wrapping glyph at its end. */
  lemma {:induction false} StreamWraps(t: Widths, s: Screen, frames: seq<Frame>) returns (s': Screen)
    requires frames != [] && AllDrawable(t, frames) && SpaceIsNarrow(t) && Clearable(s, frames[0]) && frames[0].cols >= 2
    ensures Takes(t, s, Stream(frames), s') && Displays(s', frames[|frames| - 1]) && Wrapping(t, s')
    decreases |frames|
  {
    hide Takes, Diff, Redraw, Displays, Drawable, Clearable, SpaceIsNarrow, Wrapping, Harmless;
    var n := |frames| - 1;
    assert Drawable(t, frames[n]);
    FramePrintable(t, frames[n]);
    if n == 0 {
      s' := RedrawShows(t, s, frames[0], None);
      RedrawWraps(t, s, frames[0], s');
      TakesNothing(t, s);
      TakesThen(t, s, [], s, Redraw(frames[0], None), s');
    } else {
      assert Drawable(t, frames[n - 1]) && SameSize(frames[n - 1], frames[0]) && SameSize(frames[n], frames[0]);
      FramePrintable(t, frames[n - 1]);
      var s1 := StreamWraps(t, s, frames[..n]);
      s' := DiffShows(t, s1, frames[n], frames[n - 1]);
      HarmlessDiff(t, frames[n], frames[n - 1]);
      StaysWrapping(t, s1, Diff(frames[n], frames[n - 1]), s');
      TakesThen(t, s, Stream(frames[..n]), s1, Diff(frames[n], frames[n - 1]), s');
    }
  }

  lemma {:induction false} FramePrintable(t: Widths, f: Frame)
    requires Drawable(t, f)
    ensures Printable(t, f) && SwitchesOk(f.switches)
  {
    hide OnLines, RowPrintable, LinkOk, SwitchesOk, EffectsOk, MarginsOk;
    DrawableParts(t, f);
  }

  lemma {:induction false} RedrawWraps(t: Widths, s: Screen, f: Frame, s': Screen)
    requires Printable(t, f) && Clearable(s, f) && f.cols >= 2 && Takes(t, s, Redraw(f, None), s')
    ensures Wrapping(t, s')
  {
    hide Takes, Redraw, Wrapping, Harmless, RowPrintable, CLEARING, AfterClearing, AfterClear, Clearable, EffectsOk, LinkOk, MarginsOk;
    TakesClearing(t, s, f);
    ClearedWraps(t, s, f);
    HarmlessRedraw(t, f, None);
    RedrawShape(f, None);
    TakesRestOf(t, s, CLEARING, AfterClear(s), AfterClearing(f, None), s');
    StaysWrapping(t, AfterClear(s), AfterClearing(f, None), s');
  }

  /** The screen never drifts, and when it would: after any number of diffs, delivered in any
      pieces, the terminal shows the next frame if and only if no row of it wraps. */
  lemma {:induction false} GlassExactly(t: Widths, s: Screen, frames: seq<Frame>, next: Frame, pieces: seq<seq<byte>>)
    requires frames != [] && AllDrawable(t, frames) && SpaceIsNarrow(t) && Clearable(s, frames[0]) && frames[0].cols >= 2
    requires Printable(t, next) && SameSize(next, frames[0]) && Flat(pieces) == Stream(frames + [next])
    ensures (exists s' :: FeedAll(Executing(t), Fed(s, []), pieces) == Fed(s', []) && Shows(s', next)) <==> OnLines(t, next)
  {
    hide Exec, Displays, Shows, Clearable, SpaceIsNarrow, Stream, Run, OnLines, Wrapping, Printable, Diff, Drawable;
    var n := |frames| - 1;
    assert Drawable(t, frames[n]) && SameSize(frames[n], frames[0]);
    FramePrintable(t, frames[n]);
    var s1 := StreamWraps(t, s, frames);
    WrappingEnds(t, s1);
    DiffShownExactly(t, s1, next, frames[n]);
    StreamThen(frames, next);
    AnySplit(Executing(t), Fed(s, []), pieces);
    forall s': Screen
      ensures FeedAll(Executing(t), Fed(s, []), pieces) == Fed(s', []) <==> Takes(t, s1, Diff(next, frames[n]), s')
    {
      FeedConcat(Executing(t), Fed(s, []), Stream(frames), Diff(next, frames[n]));
    }
  }

  lemma {:induction false} WrappingEnds(t: Widths, s: Screen)
    requires Wrapping(t, s)
    ensures EndsOk(t, s.frame.grid)
  {}

  lemma {:induction false} StreamThen(frames: seq<Frame>, next: Frame)
    requires frames != [] && SameSize(next, frames[|frames| - 1])
    ensures Stream(frames + [next]) == Stream(frames) + Diff(next, frames[|frames| - 1])
  {
    hide Diff, Redraw, SameSize;
    assert (frames + [next])[..|frames|] == frames;
  }
}
