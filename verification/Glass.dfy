/** The paint round trip: a terminal that shows one frame shows the next one after taking the
    bytes of the diff, and any terminal of the right size does after a full redraw. */
module Glass {
  import opened Cells
  import opened Screen
  import opened Printer
  import opened Reading
  import opened Painting

  // ------------------------------------------------------------------------ one row

  /** Every visible column is shown. */
  predicate RowShown(l: Links, row: seq<Cell>, m: Links, next: seq<Cell>) {
    |row| == |next| && forall j :: 0 <= j < |row| ==> Matches(l, row, m, next, j)
  }

  lemma {:induction false} RowShownGrows(l: Links, row: seq<Cell>, m: Links, next: seq<Cell>, l': Links)
    requires RowShown(l, row, m, next) && Grows(l, l') && LinksIn(row, |l.table|)
    ensures RowShown(l', row, m, next)
  {
    hide Visible;
    forall j | 0 <= j < |row|
      ensures Matches(l', row, m, next, j)
    {
      assert Matches(l, row, m, next, j);
      if Visible(next)[j] {
        AlikeGrows(l, row[j], m, next[j], l');
      }
    }
  }

  /** Column `j`, where nothing is visible, held half of a wide glyph of which the other half is
      painted over. */
  predicate TornAt(was: seq<Cell>, next: seq<Cell>, j: nat)
    requires j < |was|
  {
    (was[j].width == 2 && Occupied(next, j + 1)) || (was[j].width == 0 && 0 < j && Occupied(next, j - 1))
  }

  /** What becomes of the columns where `next` has nothing to show. */
  predicate RowLeft(was: seq<Cell>, row: seq<Cell>, next: seq<Cell>) {
    && |row| == |was| == |next|
    && forall j :: 0 <= j < |row| && Bare(next, j) ==> if TornAt(was, next, j) then IsErased(row[j]) else row[j] == was[j]
  }

  /** Outside columns `first` to `end` every glyph to be shown is shown already. */
  predicate ShownOutside(l: Links, row: seq<Cell>, m: Links, next: seq<Cell>, first: nat, end: nat) {
    && |row| == |next|
    && forall j :: 0 <= j < |row| && (j < first || j >= end) ==> Matches(l, row, m, next, j)
  }

  /** A column that nothing is painted over starts no span. */
  predicate Start(next: seq<Cell>, x: nat) { x < |next| ==> !UnderWide(next, x) }

  lemma {:induction false} VisibleWide(next: seq<Cell>, j: nat)
    requires j < |next| && Visible(next)[j]
    ensures next[j].width != 0
    ensures next[j].width == 2 && j + 1 < |next| ==> UnderWide(next, j + 1) && !Visible(next)[j + 1]
  {
    hide Visible;
    VisibleAt(next, j);
    if j + 1 < |next| {
      VisibleAt(next, j + 1);
    }
  }

  /** A glyph that is shown already and not painted again is not torn. */
  lemma {:induction false} ShownStays(l: Links, was: seq<Cell>, m: Links, next: seq<Cell>, first: nat, end: nat, j: nat)
    requires |was| == |next| && j < |was| && Visible(next)[j] && Matches(l, was, m, next, j)
    requires first <= end <= |next| && Start(next, first) && !Inked(next, first, NextFree(next, end), j)
    ensures !Torn(was, next, first, NextFree(next, end), j)
  {
    hide Visible;
    VisibleWide(next, j);
    assert Occupied(next, j);
  }

  /** A painted column is one of those to be painted. */
  lemma {:induction false} TornWithin(l: Links, was: seq<Cell>, m: Links, next: seq<Cell>, first: nat, end: nat, j: nat)
    requires ShownOutside(l, was, m, next, first, end) && Tidy(was) && first <= end <= |next| && Start(next, first)
    requires j < |was| && Bare(next, j)
    ensures Torn(was, next, first, NextFree(next, end), j) <==> TornAt(was, next, j)
  {
    hide Visible, Alike;
    assert TidyAt(was, j);
    if was[j].width == 2 && Occupied(next, j + 1) {
      TornRight(l, was, m, next, first, end, j);
    }
    if was[j].width == 0 && 0 < j && Occupied(next, j - 1) {
      TornLeft(l, was, m, next, first, end, j);
    }
  }

  lemma {:induction false} WithinOrShown(l: Links, was: seq<Cell>, m: Links, next: seq<Cell>, first: nat, end: nat, j: nat)
    requires ShownOutside(l, was, m, next, first, end) && j < |was| && Visible(next)[j]
    ensures first <= j < end || was[j].width == next[j].width
  {
    hide Visible;
    assert first <= j < end || Matches(l, was, m, next, j);
  }

  lemma {:induction false} TornRight(l: Links, was: seq<Cell>, m: Links, next: seq<Cell>, first: nat, end: nat, j: nat)
    requires ShownOutside(l, was, m, next, first, end) && Tidy(was) && first <= end <= |next|
    requires j + 1 < |was| && Bare(next, j) && was[j].width == 2 && Occupied(next, j + 1)
    ensures Inked(next, first, NextFree(next, end), j + 1)
  {
    hide Visible;
    assert TidyAt(was, j);
    assert Visible(next)[j + 1];
    VisibleWide(next, j + 1);
    WithinOrShown(l, was, m, next, first, end, j + 1);
  }

  lemma {:induction false} TornLeft(l: Links, was: seq<Cell>, m: Links, next: seq<Cell>, first: nat, end: nat, j: nat)
    requires ShownOutside(l, was, m, next, first, end) && Tidy(was) && first <= end <= |next|
    requires 0 < j < |was| && Bare(next, j) && was[j].width == 0 && Occupied(next, j - 1)
    ensures Inked(next, first, NextFree(next, end), j - 1)
  {
    hide Visible;
    assert TidyAt(was, j) && TidyAt(was, j - 1);
    if Visible(next)[j - 1] {
      VisibleWide(next, j - 1);
      WithinOrShown(l, was, m, next, first, end, j - 1);
    } else {
      VisibleWide(next, j - 2);
      assert TidyAt(was, j - 2);
      WithinOrShown(l, was, m, next, first, end, j - 2);
    }
  }

  /** Once the columns between are painted every glyph of the row is shown. */
  lemma {:induction false} PaintedShown(l: Links, was: seq<Cell>, m: Links, next: seq<Cell>, first: nat, end: nat, l': Links, row: seq<Cell>)
    requires ShownOutside(l, was, m, next, first, end) && Tidy(was) && LinksIn(was, |l.table|)
    requires first <= end <= |next| && Start(next, first) && Grows(l, l')
    requires RowPainted(l', row, m, next, was, first, NextFree(next, end))
    ensures RowShown(l', row, m, next) && RowLeft(was, row, next)
  {
    hide Alike, Visible, Torn, TornAt;
    var e := NextFree(next, end);
    forall j | 0 <= j < |row|
      ensures Matches(l', row, m, next, j)
      ensures Bare(next, j) ==> if TornAt(was, next, j) then IsErased(row[j]) else row[j] == was[j]
    {
      if Bare(next, j) {
        TornWithin(l, was, m, next, first, end, j);
        assert Spared(row, was, next, first, e, j);
      } else if Visible(next)[j] && !(first <= j < e) {
        FarMatches(l, was, m, next, first, end, j);
        ShownStays(l, was, m, next, first, end, j);
        assert Spared(row, was, next, first, e, j);
        AlikeGrows(l, was[j], m, next[j], l');
      } else if Visible(next)[j] {
        assert Matches(l', row, m, next, j);
      }
    }
  }

  lemma {:induction false} FarMatches(l: Links, was: seq<Cell>, m: Links, next: seq<Cell>, first: nat, end: nat, j: nat)
    requires ShownOutside(l, was, m, next, first, end) && j < |was| && end <= |next|
    requires !(first <= j < NextFree(next, end))
    ensures Matches(l, was, m, next, j)
  {}

  /** Painting what is not shown yet of a row shows all of it. */
  lemma {:induction false} TakesRest(t: Widths, s: Screen, l: Links, next: seq<Cell>, y: nat, first: nat, end: nat, p: Pencil) returns (s': Screen)
    requires Ready(s) && PenAt(s, p) && y < s.frame.rows && first <= end <= |next| == s.frame.cols
    requires RowDrawable(t, l, next) && Start(next, first)
    requires ShownOutside(s.frame.links, s.frame.grid[y], l, next, first, end)
    ensures var a := PaintFrom(l, next, y, first, end, p);
      && Takes(t, s, a.bytes, s') && PenAt(s', a.pencil)
      && Ready(s') && OnlyRow(s.frame, s'.frame, y) && s'.saved == s.saved
      && (s'.frame.cursor.y == y || s'.frame.cursor == s.frame.cursor)
      && RowShown(s'.frame.links, s'.frame.grid[y], l, next) && RowLeft(s.frame.grid[y], s'.frame.grid[y], next)
  {
    hide Takes, PaintFrom, Ready, PenAt, Tidy, GlyphOk, LinkOk, Resolve, RowDrawable, RowPainted, ShownOutside, RowShown, RowLeft, Matches, UnderWide;
    ReadyRow(s, y);
    var was := s.frame.grid[y];
    NothingPainted(s.frame.links, was, l, next, first);
    s' := TakesSpan(t, s, l, next, was, y, first, first, end, p);
    PaintedShown(s.frame.links, was, l, next, first, end, s'.frame.links, s'.frame.grid[y]);
  }

  // --------------------------------------------------------------- what has not changed

  lemma {:induction false} AlikeThrough(l: Links, a: Cell, m: Links, b: Cell, n: Links, c: Cell)
    requires Alike(l, a, m, b) && Alike(n, c, m, b)
    ensures Alike(l, a, n, c)
  {}

  lemma {:induction false} UnchangedMatches(l: Links, row: seq<Cell>, n: Links, next: seq<Cell>, m: Links, prev: seq<Cell>, j: nat)
    requires |row| == |next| == |prev| && j < |row| && Matches(l, row, m, prev, j) && !Changed(n, next, m, prev, j)
    ensures Matches(l, row, n, next, j)
  {
    hide Visible, Alike;
    if Visible(next)[j] {
      AlikeThrough(l, row[j], m, prev[j], n, next[j]);
    }
  }

  /** The spans that the printer leaves out are already shown. */
  lemma {:induction false} SpanOutside(l: Links, row: seq<Cell>, n: Links, next: seq<Cell>, m: Links, prev: seq<Cell>)
    requires RowShown(l, row, m, prev) && |next| == |prev|
    ensures var first := FirstChanged(n, next, m, prev, 0);
            var last := LastChanged(n, next, m, prev, |next|);
      if last < first then ShownOutside(l, row, n, next, 0, 0)
      else last < |next| && first <= last + 1 && ShownOutside(l, row, n, next, first, last + 1)
  {
    hide Matches, Changed;
    var first := FirstChanged(n, next, m, prev, 0);
    var last := LastChanged(n, next, m, prev, |next|);
    forall j | 0 <= j < |row| && (j < first || j > last)
      ensures Matches(l, row, n, next, j)
    {
      UnchangedMatches(l, row, n, next, m, prev, j);
    }
  }

  lemma {:induction false} FirstStarts(n: Links, next: seq<Cell>, m: Links, prev: seq<Cell>)
    requires |next| == |prev|
    ensures Start(next, FirstChanged(n, next, m, prev, 0)) && Start(next, 0)
  {
    hide Visible, Alike;
    var first := FirstChanged(n, next, m, prev, 0);
    if first < |next| {
      VisibleAt(next, first);
    }
  }

  lemma {:induction false} TakesRow(t: Widths, s: Screen, next: Frame, prev: Frame, y: nat, p: Pencil) returns (s': Screen)
    requires Ready(s) && PenAt(s, p) && SameSize(next, prev) && SameSize(next, s.frame) && y < next.rows
    requires RowDrawable(t, next.links, next.grid[y])
    requires RowShown(s.frame.links, s.frame.grid[y], prev.links, prev.grid[y])
    ensures var a := PaintRow(next, prev, y, p);
      && Takes(t, s, a.bytes, s') && PenAt(s', a.pencil)
      && Ready(s') && OnlyRow(s.frame, s'.frame, y) && s'.saved == s.saved
      && RowShown(s'.frame.links, s'.frame.grid[y], next.links, next.grid[y])
      && RowLeft(s.frame.grid[y], s'.frame.grid[y], next.grid[y])
  {
    hide Takes, PaintFrom, Ready, PenAt, RowDrawable, GlyphOk, LinkOk, Resolve, ShownOutside, RowShown, RowLeft, Changed, Start, OnlyRow;
    var row, n, o := s.frame.grid[y], next.grid[y], prev.grid[y];
    var first := FirstChanged(next.links, n, prev.links, o, 0);
    var last := LastChanged(next.links, n, prev.links, o, |n|);
    ReadyRow(s, y);
    SpanOutside(s.frame.links, row, next.links, n, prev.links, o);
    FirstStarts(next.links, n, prev.links, o);
    if last < first {
      s' := TakesRest(t, s, next.links, n, y, 0, 0, p);
      PaintNothing(next.links, n, y, 0, p);
    } else {
      s' := TakesRest(t, s, next.links, n, y, first, last + 1, p);
    }
  }

  // ----------------------------------------------------------------------- all rows

  predicate GridDrawable(t: Widths, f: Frame) {
    forall y :: 0 <= y < |f.grid| ==> RowDrawable(t, f.links, f.grid[y])
  }

  /** Rows before `y` show `next`, the others still show `prev`. */
  predicate ShownUpTo(s: Screen, next: Frame, prev: Frame, y: nat) {
    && SameSize(next, prev) && SameSize(next, s.frame)
    && (forall i :: 0 <= i < y && i < next.rows ==> RowShown(s.frame.links, s.frame.grid[i], next.links, next.grid[i]))
    && (forall i :: y <= i < next.rows ==> RowShown(s.frame.links, s.frame.grid[i], prev.links, prev.grid[i]))
  }

  /** What the rows from `y` on keep where `next` has nothing to show; the others are the same. */
  predicate RowsLeft(f: Frame, g: Frame, next: Frame, y: nat) {
    && |g.grid| == |f.grid| == |next.grid|
    && forall i :: 0 <= i < |f.grid| ==> if i < y then g.grid[i] == f.grid[i] else RowLeft(f.grid[i], g.grid[i], next.grid[i])
  }

  lemma {:induction false} RowsLeftNext(f: Frame, g: Frame, h: Frame, next: Frame, y: nat)
    requires OnlyRow(f, g, y) && y < |next.grid| && RowLeft(f.grid[y], g.grid[y], next.grid[y]) && RowsLeft(g, h, next, y + 1)
    ensures RowsLeft(f, h, next, y)
  {
    hide RowLeft;
    forall i | 0 <= i < |f.grid|
      ensures if i < y then h.grid[i] == f.grid[i] else RowLeft(f.grid[i], h.grid[i], next.grid[i])
    {
      assert i != y ==> g.grid[i] == f.grid[i];
    }
  }

  lemma {:induction false} RowsLeftNone(f: Frame, next: Frame)
    requires |f.grid| == |next.grid|
    ensures RowsLeft(f, f, next, |next.grid|)
  {}

  /** All but the grid's contents, cursor, combining target and link table is as before. */
  predicate OnlyGrid(f: Frame, g: Frame) {
    && g == f.(grid := g.grid, cursor := g.cursor, target := g.target, links := g.links)
    && Grows(f.links, g.links)
  }

  lemma {:induction false} OnlyGridThen(f: Frame, g: Frame, h: Frame)
    requires OnlyGrid(f, g) && OnlyGrid(g, h)
    ensures OnlyGrid(f, h)
  {}

  lemma {:induction false} ShownNext(s: Screen, s': Screen, next: Frame, prev: Frame, y: nat)
    requires Ready(s) && ShownUpTo(s, next, prev, y) && y < next.rows && OnlyRow(s.frame, s'.frame, y)
    requires Shaped(s'.frame) && RowShown(s'.frame.links, s'.frame.grid[y], next.links, next.grid[y])
    ensures ShownUpTo(s', next, prev, y + 1) && OnlyGrid(s.frame, s'.frame)
  {
    hide RowShown, Paired, LinksIn;
    forall i | 0 <= i < next.rows && i != y
      ensures s'.frame.grid[i] == s.frame.grid[i]
      ensures i < y ==> RowShown(s'.frame.links, s'.frame.grid[i], next.links, next.grid[i])
      ensures i > y ==> RowShown(s'.frame.links, s'.frame.grid[i], prev.links, prev.grid[i])
    {
      ReadyRow(s, i);
      if i < y {
        RowShownGrows(s.frame.links, s.frame.grid[i], next.links, next.grid[i], s'.frame.links);
      } else {
        RowShownGrows(s.frame.links, s.frame.grid[i], prev.links, prev.grid[i], s'.frame.links);
      }
    }
  }

  lemma {:induction false} ShownRow(s: Screen, next: Frame, prev: Frame, y: nat)
    requires ShownUpTo(s, next, prev, y) && y < next.rows
    ensures SameSize(next, prev) && SameSize(next, s.frame)
    ensures RowShown(s.frame.links, s.frame.grid[y], prev.links, prev.grid[y])
  {}

  lemma {:induction false} ShownGrid(s: Screen, next: Frame, prev: Frame, y: nat)
    requires ShownUpTo(s, next, prev, y)
    ensures |s.frame.grid| == |next.grid| == next.rows
  {}

  lemma {:induction false} TakesRows(t: Widths, s: Screen, next: Frame, prev: Frame, y: nat, p: Pencil) returns (s': Screen)
    requires Ready(s) && PenAt(s, p) && SameSize(next, prev) && y <= next.rows
    requires GridDrawable(t, next) && ShownUpTo(s, next, prev, y)
    ensures var a := PaintRows(next, prev, y, p);
      && Takes(t, s, a.bytes, s') && PenAt(s', a.pencil)
      && Ready(s') && OnlyGrid(s.frame, s'.frame) && s'.saved == s.saved
      && ShownUpTo(s', next, prev, next.rows) && RowsLeft(s.frame, s'.frame, next, y)
    decreases next.rows - y
  {
    hide Takes, PaintRow, Ready, PenAt, RowDrawable, RowShown, RowLeft, RowsLeft, OnlyRow, OnlyGrid, ShownUpTo, Shaped;
    if y == next.rows {
      s' := s;
      TakesNothing(t, s);
      ShownGrid(s, next, prev, y);
      RowsLeftNone(s.frame, next);
      OnlyGridSame(s.frame);
    } else {
      var a := PaintRow(next, prev, y, p);
      ShownRow(s, next, prev, y);
      var s1 := TakesRow(t, s, next, prev, y, p);
      ReadyShaped(s1);
      ShownNext(s, s1, next, prev, y);
      s' := TakesRows(t, s1, next, prev, y + 1, a.pencil);
      OnlyGridThen(s.frame, s1.frame, s'.frame);
      RowsLeftNext(s.frame, s1.frame, s'.frame, next, y);
      TakesThen(t, s, a.bytes, s1, PaintRows(next, prev, y + 1, a.pencil).bytes, s');
    }
  }

  lemma {:induction false} OnlyGridSame(f: Frame)
    ensures OnlyGrid(f, f)
  {}
}
