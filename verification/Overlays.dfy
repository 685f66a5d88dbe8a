/** What the overlay makes of a frame, cell by cell: the guesses of confirmed epochs, the cursor of
    the last of them, and everything else as the host has it. */
module Overlays {
  import opened Basics
  import opened Sgr
  import opened Cells
  import opened Screen
  import opened Prediction
  import opened Guesses

  predicate SameButUnder(a: Attr, b: Attr) { a.(under := false, conceal := false) == b.(under := false, conceal := false) }

  predicate Blank(ch: char) { ch == ' ' || ch == '\0' }

  /** Cell `r` is cell `c` of the host under the guess; `left` is the cell to its left, if any. */
  predicate Laid(p: Predictor, g: Guess, c: Cell, left: Option<Cell>, cols: nat, r: Cell) {
    var flagged := p.flagging && !(Blank(g.ch) && Blank(c.ch));
    if g.unknown then
      r == if flagged && g.x + 1 < cols then c.(attr := c.attr.(under := true)) else c
    else
      var base := if g.attr.Some? then g.attr.value else if left.Some? then left.value.attr else c.attr;
      if c.ch == g.ch && c.width == 1 && SameButUnder(c.attr, base) then r == c
      else
        r == c.(ch := g.ch, width := 1, suffix := [], empty := false, attr := base.(under := flagged || c.attr.under))
  }

  /** Guesses of epochs confirmed so far are the ones shown. */
  predicate ShownGuess(p: Predictor, g: Guess, x: nat, y: nat) { g.epoch <= p.confirmed && g.x == x && g.y == y }

  /** Column `x` of row `y` after the first `n` guesses. */
  predicate CellIs(p: Predictor, f: Frame, r: Frame, n: nat, x: nat, y: nat)
    requires n <= |p.pending| && Inside(f, x, y)
  {
    && |r.grid| == |f.grid| && |r.grid[y]| == |f.grid[y]|
    && (forall i :: 0 <= i < n && ShownGuess(p, p.pending[i], x, y) ==>
          Laid(p, p.pending[i], f.grid[y][x], if x > 0 then Some(r.grid[y][x - 1]) else None, f.cols, r.grid[y][x]))
    && ((forall i :: 0 <= i < n ==> !ShownGuess(p, p.pending[i], x, y)) ==> r.grid[y][x] == f.grid[y][x])
  }

  lemma {:induction false} CoveredIs(p: Predictor, g: Guess, c: Cell, left: Option<Cell>, cols: nat)
    ensures Laid(p, g, c, left, cols, Covered(c, g, if left.Some? then Some(left.value.attr) else None, p.flagging, cols))
  {
    hide Covered, Laid;
    if g.unknown {
      UnknownCovered(p, g, c, left, cols);
    } else {
      KnownCovered(p, g, c, left, cols);
    }
  }

  lemma {:induction false} UnknownCovered(p: Predictor, g: Guess, c: Cell, left: Option<Cell>, cols: nat)
    requires g.unknown
    ensures Laid(p, g, c, left, cols, Covered(c, g, if left.Some? then Some(left.value.attr) else None, p.flagging, cols))
  {
    hide AlikeButUnder, SameButUnder, Replaced;
  }

  lemma {:induction false} KnownCovered(p: Predictor, g: Guess, c: Cell, left: Option<Cell>, cols: nat)
    requires !g.unknown
    ensures Laid(p, g, c, left, cols, Covered(c, g, if left.Some? then Some(left.value.attr) else None, p.flagging, cols))
  {
    hide AlikeButUnder, SameButUnder, Replaced;
    var base := if g.attr.Some? then g.attr.value else if left.Some? then left.value.attr else c.attr;
    KnownIs(c, g.ch, base, p.flagging && !(Blank(g.ch) && Blank(c.ch)));
  }

  lemma {:induction false} KnownIs(c: Cell, ch: char, base: Attr, flagged: bool)
    ensures var attr := base.(under := c.attr.under && !flagged);
      && AlikeButUnder(c.attr, attr) == SameButUnder(c.attr, base)
      && Replaced(c, ch, if flagged then attr.(under := true) else attr)
         == c.(ch := ch, width := 1, suffix := [], empty := false, attr := base.(under := flagged || c.attr.under))
  {
    AlikeIs(c.attr, base, c.attr.under && !flagged);
  }

  lemma {:induction false} AlikeIs(a: Attr, base: Attr, under: bool)
    ensures AlikeButUnder(a, base.(under := under)) == SameButUnder(a, base)
  {}

  lemma {:induction false} OverlayOther(p: Predictor, f: Frame, g: Guess, x: nat, y: nat)
    requires Inside(f, x, y) && !ShownGuess(p, g, x, y)
    ensures var r := OverlayGuess(p, f, g);
      && |r.grid| == |f.grid| && |r.grid[y]| == |f.grid[y]| && r.grid[y][x] == f.grid[y][x]
      && r == f.(grid := r.grid)
  {
    hide Covered;
  }

  lemma {:induction false} OverlayHere(p: Predictor, f: Frame, g: Guess, x: nat, y: nat)
    requires Inside(f, x, y) && ShownGuess(p, g, x, y)
    ensures var r := OverlayGuess(p, f, g);
      && |r.grid| == |f.grid| && |r.grid[y]| == |f.grid[y]|
      && Laid(p, g, f.grid[y][x], if x > 0 then Some(f.grid[y][x - 1]) else None, f.cols, r.grid[y][x])
      && (x > 0 ==> r.grid[y][x - 1] == f.grid[y][x - 1])
      && r == f.(grid := r.grid)
  {
    hide Covered, Laid;
    CoveredIs(p, g, f.grid[y][x], if x > 0 then Some(f.grid[y][x - 1]) else None, f.cols);
  }

  lemma {:induction false} OverlayRest(p: Predictor, f: Frame, n: nat)
    requires n <= |p.pending|
    ensures var r := OverlayUpTo(p, f, n); r == f.(grid := r.grid) && |r.grid| == |f.grid|
    ensures forall y :: 0 <= y < |f.grid| ==> |OverlayUpTo(p, f, n).grid[y]| == |f.grid[y]|
  {
    hide Covered;
    if n > 0 {
      OverlayRest(p, f, n - 1);
    }
  }

  /** Each cell in its turn: the cell to its left is done before, in the order of the guesses. */
  lemma {:induction false} OverlayCell(p: Predictor, f: Frame, n: nat, x: nat, y: nat)
    requires n <= |p.pending| && Ordered(p.pending) && Inside(f, x, y)
    ensures CellIs(p, f, OverlayUpTo(p, f, n), n, x, y)
  {
    hide OverlayGuess, Laid;
    if n > 0 {
      OverlayCell(p, f, n - 1, x, y);
      OverlayRest(p, f, n - 1);
      var r0, g := OverlayUpTo(p, f, n - 1), p.pending[n - 1];
      if ShownGuess(p, g, x, y) {
        forall i | 0 <= i < n - 1
          ensures !ShownGuess(p, p.pending[i], x, y)
        {
          assert Less(p.pending[i], g);
        }
        OverlayHere(p, r0, g, x, y);
      } else {
        OverlayOther(p, r0, g, x, y);
        if x > 0 {
          if ShownGuess(p, g, x - 1, y) {
            forall i | 0 <= i < n - 1
              ensures !ShownGuess(p, p.pending[i], x, y)
            {
              assert Less(p.pending[i], g);
            }
          } else {
            OverlayOther(p, r0, g, x - 1, y);
          }
        }
      }
    }
  }

  // ------------------------------------------------------------------------------ cursor

  /** The newest of the first `n` cursor guesses that is of a confirmed epoch. */
  predicate NewestCursor(p: Predictor, n: nat, i: nat) {
    i < n <= |p.cursors| && p.cursors[i].epoch <= p.confirmed && forall j :: i < j < n ==> p.cursors[j].epoch > p.confirmed
  }

  function Clamped(n: nat, size: nat): nat { if n < size then n else if size == 0 then 0 else size - 1 }

  predicate CursorIs(p: Predictor, f: Frame, r: Frame, n: nat)
    requires n <= |p.cursors|
  {
    && r == f.(cursor := r.cursor) && r.cursor.wrap == f.cursor.wrap
    && (forall i :: 0 <= i < n && NewestCursor(p, n, i) ==>
          r.cursor.x == Clamped(p.cursors[i].x, f.cols) && r.cursor.y == Clamped(p.cursors[i].y, f.rows))
    && ((forall i :: 0 <= i < n ==> p.cursors[i].epoch > p.confirmed) ==> r == f)
  }

  lemma {:induction false} HiddenCursor(p: Predictor, f: Frame, r: Frame, n: nat)
    requires 0 < n <= |p.cursors| && CursorIs(p, f, r, n - 1) && p.cursors[n - 1].epoch > p.confirmed
    ensures CursorIs(p, f, r, n)
  {
    forall i | 0 <= i < n && NewestCursor(p, n, i)
      ensures NewestCursor(p, n - 1, i)
    {}
  }

  lemma {:induction false} ShownCursor(p: Predictor, f: Frame, r: Frame, n: nat)
    requires 0 < n <= |p.cursors| && r == f.(cursor := r.cursor) && r.cursor.wrap == f.cursor.wrap
    requires var c := p.cursors[n - 1];
      c.epoch <= p.confirmed && r.cursor.x == Clamped(c.x, f.cols) && r.cursor.y == Clamped(c.y, f.rows)
    ensures CursorIs(p, f, r, n)
  {}

  lemma {:induction false} OverlayCursor(p: Predictor, f: Frame, n: nat)
    requires n <= |p.cursors|
    ensures CursorIs(p, f, OverlayCursors(p, f, n), n)
  {
    if n > 0 {
      OverlayCursor(p, f, n - 1);
      CursorKeeps(p, f, OverlayCursors(p, f, n - 1), n - 1);
      hide CursorIs;
      if p.cursors[n - 1].epoch > p.confirmed {
        HiddenCursor(p, f, OverlayCursors(p, f, n), n);
      } else {
        ShownCursor(p, f, OverlayCursors(p, f, n), n);
      }
    }
  }

  // ------------------------------------------------------------------------- whole frames

  /** Frame `r` is the host's frame with the guesses laid over it. */
  predicate Overlaid(p: Predictor, f: Frame, r: Frame) {
    if !p.active || !p.show then r == f
    else
      && r == f.(grid := r.grid, cursor := r.cursor) && |r.grid| == |f.grid|
      && CursorIs(p, f.(grid := r.grid), r, |p.cursors|)
      && forall y, x :: 0 <= y < |f.grid| && 0 <= x < |f.grid[y]| ==> CellIs(p, f, r, |p.pending|, x, y)
  }

  lemma {:induction false} OverlayIsOverlaid(p: Predictor, f: Frame)
    requires Shape(p)
    ensures Overlaid(p, f, Overlay(p, f))
  {
    hide OverlayUpTo, OverlayCursors, CellIs, CursorIs, Ordered;
    if p.active && p.show {
      var g := OverlayUpTo(p, f, |p.pending|);
      var r := OverlayCursors(p, g, |p.cursors|);
      OverlayRest(p, f, |p.pending|);
      OverlayCursor(p, g, |p.cursors|);
      CursorKeeps(p, g, r, |p.cursors|);
      forall y, x | 0 <= y < |f.grid| && 0 <= x < |f.grid[y]|
        ensures CellIs(p, f, r, |p.pending|, x, y)
      {
        OverlayCell(p, f, |p.pending|, x, y);
        SameGridCell(p, f, g, r, |p.pending|, x, y);
      }
    }
  }

  lemma {:induction false} CursorKeeps(p: Predictor, f: Frame, r: Frame, n: nat)
    requires n <= |p.cursors| && CursorIs(p, f, r, n)
    ensures r == f.(cursor := r.cursor) && r.cursor.wrap == f.cursor.wrap
  {}

  lemma {:induction false} SameGridCell(p: Predictor, f: Frame, g: Frame, r: Frame, n: nat, x: nat, y: nat)
    requires n <= |p.pending| && Inside(f, x, y) && CellIs(p, f, g, n, x, y) && r.grid == g.grid
    ensures CellIs(p, f, r, n, x, y)
  {}
}
