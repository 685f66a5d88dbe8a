/** What each key does to the predictor: which bytes are which key, and the guesses and the cursor
    that follow from it. */
module Keystrokes {
  import opened Basics
  import opened Cells
  import opened Screen
  import opened Prediction
  import opened Guesses
  import opened Insertion

  // ------------------------------------------------------------------------- single guesses

  /** The state that the next input is part of. */
  function NextSent(p: Predictor): nat { if p.sent < U64_MAX then p.sent + 1 else p.sent }

  function HostShows(host: Frame, x: nat, y: nat): char {
    if y < |host.grid| && x < |host.grid[y]| then host.grid[y][x].ch else ' '
  }

  predicate Vacant(s: seq<Guess>, x: nat, y: nat) { forall g :: g in s ==> g.x != x || g.y != y }

  /** A guess made now, in the current epoch. What its cell was known to hold before is what an
      earlier guess for it knew, and what the host shows. */
  predicate MadeNow(p: Predictor, g: Guess, ch: char, unknown: bool, host: Frame, now: nat) {
    && g.ch == ch && g.unknown == unknown && g.epoch == p.epoch && g.at == now && g.expires == NextSent(p) && g.attr == None
    && (Vacant(p.pending, g.x, g.y) ==> g.originals == [HostShows(host, g.x, g.y)])
    && forall o :: o in p.pending && o.x == g.x && o.y == g.y ==>
         g.originals == (if o.unknown then [] else o.originals + [o.ch]) + [HostShows(host, g.x, g.y)]
  }

  lemma {:induction false} GuessedNow(p: Predictor, ch: char, x: nat, y: nat, host: Frame, unknown: bool, now: nat)
    requires Distinct(p.pending)
    ensures MadeNow(p, Guessed(p, ch, x, y, GuessAt(p, x, y), host, unknown, now), ch, unknown, host, now)
  {
    hide GuessAt;
    GuessAtIs(p, x, y);
    var r := GuessAt(p, x, y);
    assert [] + [HostShows(host, x, y)] == [HostShows(host, x, y)];
    forall o | o in p.pending && o.x == x && o.y == y
      ensures r == Some(o)
    {
      AloneInCell(p.pending, o, r.value);
    }
  }

  lemma {:induction false} GuessedAt(p: Predictor, ch: char, x: nat, y: nat, previous: Option<Guess>, host: Frame, unknown: bool, now: nat)
    ensures var g := Guessed(p, ch, x, y, previous, host, unknown, now); g.x == x && g.y == y
  {}

  lemma {:induction false} AloneInCell(s: seq<Guess>, a: Guess, b: Guess)
    requires Distinct(s) && a in s && b in s && SameCell(a, b)
    ensures a == b
  {
    var i :| 0 <= i < |s| && s[i] == a;
    var j :| 0 <= j < |s| && s[j] == b;
  }

  // ---------------------------------------------------------------------------- the cursor

  /** The cursor of `q` is noted as the guess of its epoch, in place of an earlier one of that epoch. */
  predicate CursorNoted(was: seq<CursorGuess>, q: Predictor) {
    var here := CursorGuess(q.x, q.y, q.epoch, NextSent(q));
    q.cursors == if was != [] && was[|was| - 1].epoch == q.epoch then was[..|was| - 1] + [here] else was + [here]
  }

  lemma {:induction false} RecordNotes(p: Predictor)
    ensures var q := RecordCursor(p); q == p.(cursors := q.cursors) && CursorNoted(p.cursors, q)
  {
    var n := |p.cursors|;
    assert CursorHere(p) == CursorGuess(p.x, p.y, p.epoch, NextSent(p));
    if n > 0 {
      assert p.cursors[n - 1 := CursorHere(p)] == p.cursors[..n - 1] + [CursorHere(p)];
    }
  }

  /** Only the cursor moves. */
  predicate CursorMoved(p: Predictor, q: Predictor, x: nat, y: nat) {
    q == p.(x := x, y := y, active := true, cursors := q.cursors) && CursorNoted(p.cursors, q)
  }

  /** One column to the left, unless it is the first. */
  lemma {:induction false} LeftMoves(p: Predictor)
    ensures var q := MoveLeft(p); if p.x == 0 then q == p else CursorMoved(p, q, p.x - 1, p.y)
  {
    hide RecordCursor;
    RecordNotes(p.(x := SatSub(p.x, 1), active := true));
  }

  /** One column to the right, unless it is the last. */
  lemma {:induction false} RightMoves(p: Predictor, host: Frame)
    ensures var q := MoveRight(p, host); if p.x + 1 >= host.cols then q == p else CursorMoved(p, q, p.x + 1, p.y)
  {
    hide RecordCursor;
    RecordNotes(p.(x := p.x + 1, active := true));
  }

  // ------------------------------------------------------------------------ carriage return

  /** To the start of the next row. On the bottom row every cell of it is guessed blank instead. */
  predicate Returned(p: Predictor, q: Predictor, host: Frame, now: nat) {
    && q == p.(x := 0, y := q.y, active := true, cursors := q.cursors, pending := q.pending) && CursorNoted(p.cursors, q)
    && (if p.y + 1 < host.rows then
          q.y == p.y + 1 && (forall g :: g in q.pending ==> g in p.pending) && (forall g :: g in p.pending ==> g in q.pending)
        else
          q.y == p.y && BlankRow(p, q.pending, host, now))
  }

  predicate BlankRow(p: Predictor, s: seq<Guess>, host: Frame, now: nat) {
    && (forall g :: g in s ==> if g.y == p.y && g.x < host.cols then MadeNow(p, g, ' ', false, host, now) else g in p.pending)
    && (forall g :: g in p.pending && !(g.y == p.y && g.x < host.cols) ==> g in s)
    && (forall x: nat :: x < host.cols ==> !Vacant(s, x, p.y))
  }

  lemma {:induction false} BlankedNow(p: Predictor, host: Frame, now: nat, n: nat)
    requires Distinct(p.pending)
    ensures var s := BlankedRow(p, host, p.y, now, n);
      && (forall g :: g in s ==> g.y == p.y && g.x < n && MadeNow(p, g, ' ', false, host, now))
      && (forall x: nat :: x < n ==> !Vacant(s, x, p.y))
  {
    hide GuessAt, MadeNow, Distinct, Guessed;
    if n > 0 {
      BlankedNow(p, host, now, n - 1);
      GuessedNow(p, ' ', n - 1, p.y, host, false, now);
      var g := Guessed(p, ' ', n - 1, p.y, GuessAt(p, n - 1, p.y), host, false, now);
      var s, r := BlankedRow(p, host, p.y, now, n), BlankedRow(p, host, p.y, now, n - 1);
      assert s == r + [g];
      GuessedAt(p, ' ', n - 1, p.y, GuessAt(p, n - 1, p.y), host, false, now);
      assert g in s;
      forall x: nat | x < n - 1 ensures !Vacant(s, x, p.y) {
        assert !Vacant(r, x, p.y);
        var o :| o in r && o.x == x && o.y == p.y;
        assert o in s;
      }
    }
  }

  lemma {:induction false} RowBlanked(p: Predictor, host: Frame, now: nat)
    requires Distinct(p.pending)
    ensures BlankRow(p, Sort(Retain(p.pending, OutsideRow(p.y, host.cols)) + BlankedRow(p, host, p.y, now, host.cols)), host, now)
  {
    hide MadeNow, Distinct, Sort, BlankedRow;
    var others, row := Retain(p.pending, OutsideRow(p.y, host.cols)), BlankedRow(p, host, p.y, now, host.cols);
    BlankedNow(p, host, now, host.cols);
    RetainMembers(p.pending, OutsideRow(p.y, host.cols));
    SortIs(others + row);
    forall x: nat | x < host.cols ensures !Vacant(Sort(others + row), x, p.y) {
      assert !Vacant(row, x, p.y);
      var o :| o in row && o.x == x && o.y == p.y;
      assert o in Sort(others + row);
    }
  }

  lemma {:induction false} BottomReturns(p: Predictor, host: Frame, now: nat)
    requires Distinct(p.pending) && p.y + 1 >= host.rows
    ensures Returned(p, NewLine(p, host, now), host, now)
  {
    hide RecordCursor, Sort, BlankedRow, BlankRow, Distinct, CursorNoted;
    RowBlanked(p, host, now);
    RecordNotes(p.(x := 0, active := true));
    NotedAnyway(p.cursors, RecordCursor(p.(x := 0, active := true)), NewLine(p, host, now).pending);
  }

  lemma {:induction false} NextReturns(p: Predictor, host: Frame, now: nat)
    requires p.y + 1 < host.rows
    ensures Returned(p, NewLine(p, host, now), host, now)
  {
    hide RecordCursor, CursorNoted;
    RecordNotes(p.(x := 0, y := p.y + 1, active := true));
  }

  lemma {:induction false} NewLineReturns(p: Predictor, host: Frame, now: nat)
    requires Distinct(p.pending)
    ensures Returned(p, NewLine(p, host, now), host, now)
  {
    hide NewLine, Returned;
    if p.y + 1 >= host.rows {
      BottomReturns(p, host, now);
    } else {
      NextReturns(p, host, now);
    }
  }

  // ---------------------------------------------------------------------- typed characters

  /** What a cell holds, guessed or shown by the host; a blank stands for nothing. */
  predicate Holds(p: Predictor, host: Frame, x: nat, y: nat, ch: char, unknown: bool) {
    && (Vacant(p.pending, x, y) ==>
          !unknown && ch == if HostShows(host, x, y) == '\0' then ' ' else HostShows(host, x, y))
    && forall o :: o in p.pending && o.x == x && o.y == y ==> unknown == o.unknown && ch == if o.unknown then ' ' else o.ch
  }

  predicate InRowFrom(g: Guess, p: Predictor, cols: nat) { g.y == p.y && p.x <= g.x < cols }

  /** The rest of the row moves a column to the right, its last cell unknown from now on, and the
      character is guessed at the cursor. */
  predicate RowShifted(p: Predictor, s: seq<Guess>, host: Frame, ch: char, now: nat) {
    && (forall g :: g in p.pending && !InRowFrom(g, p, host.cols) ==> g in s)
    && (forall x: nat :: p.x <= x < host.cols ==> !Vacant(s, x, p.y))
    && (forall g :: g in s ==> ShiftedIs(p, g, host, ch, now))
  }

  predicate ShiftedIs(p: Predictor, g: Guess, host: Frame, ch: char, now: nat) {
    if !InRowFrom(g, p, host.cols) then g in p.pending
    else if g.x == p.x then MadeNow(p, g, ch, false, host, now)
    else if g.x + 1 == host.cols then MadeNow(p, g, ' ', true, host, now)
    else MadeNow(p, g, g.ch, g.unknown, host, now) && Holds(p, host, g.x - 1, p.y, g.ch, g.unknown)
  }

  lemma {:induction false} ShiftedHolds(p: Predictor, host: Frame, x: nat, now: nat)
    requires Distinct(p.pending) && 0 < x < host.cols
    ensures var g := ShiftedGuess(p, host, x, p.y, now);
      && g.x == x && g.y == p.y && MadeNow(p, g, g.ch, g.unknown, host, now)
      && if x + 1 == host.cols then g.unknown && g.ch == ' ' else Holds(p, host, x - 1, p.y, g.ch, g.unknown)
  {
    hide MadeNow, GuessAt;
    var g := ShiftedGuess(p, host, x, p.y, now);
    GuessedNow(p, g.ch, x, p.y, host, g.unknown, now);
    GuessAtIs(p, x - 1, p.y);
    var left := GuessAt(p, x - 1, p.y);
    forall o | o in p.pending && o.x == x - 1 && o.y == p.y ensures left == Some(o) {
      AloneInCell(p.pending, o, left.value);
    }
  }

  lemma {:induction false} RowGuessIs(p: Predictor, host: Frame, ch: char, now: nat, x: nat)
    requires Distinct(p.pending) && x < host.cols
    ensures var r := RowGuess(p, host, p.x, p.y, ch, now, x);
      && (x >= p.x ==> r.Some?)
      && (r.Some? ==> r.value.x == x && r.value.y == p.y && ShiftedIs(p, r.value, host, ch, now))
  {
    hide MadeNow, Holds, GuessAt, Distinct, ShiftedGuess, Guessed;
    if x < p.x {
      GuessAtIs(p, x, p.y);
    } else if x == p.x {
      GuessedNow(p, ch, x, p.y, host, false, now);
      GuessedAt(p, ch, x, p.y, GuessAt(p, x, p.y), host, false, now);
    } else {
      ShiftedHolds(p, host, x, now);
    }
  }

  lemma {:induction false} InsertRowShifted(p: Predictor, host: Frame, ch: char, now: nat)
    requires Ordered(p.pending)
    ensures var q := InsertAt(p, host, ch, now); Ordered(q.pending) && RowShifted(p, q.pending, host, ch, now)
  {
    hide ShiftedIs, InsertedRow, RowGuess, Sort, Ordered, Distinct, RecordCursor;
    OrderedDistinct(p.pending);
    var row := InsertedRow(p, host, p.x, p.y, ch, now, host.cols);
    var q := InsertAt(p, host, ch, now);
    InsertedRowShape(p, host, p.x, p.y, ch, now, host.cols);
    RowReplaced(p.pending, row, p.y, host.cols);
    InsertFields(p, host, ch, now);
    forall g | g in p.pending && !InRowFrom(g, p, host.cols) ensures g in q.pending {
      if g.y == p.y && g.x < p.x && g.x < host.cols {
        InsertKept(p, host, ch, now, g);
      }
    }
    forall x: nat | p.x <= x < host.cols ensures !Vacant(q.pending, x, p.y) {
      RowGuessIs(p, host, ch, now, x);
      InsertedHas(p, host, p.x, p.y, ch, now, host.cols, x);
      assert RowGuess(p, host, p.x, p.y, ch, now, x).value in q.pending;
    }
    forall g | g in q.pending ensures ShiftedIs(p, g, host, ch, now) {
      if g in row {
        RowGuessIs(p, host, ch, now, g.x);
        InsertFinds(p, host, ch, now, g.x);
        MemberFound(q, g);
      } else {
        OutsideKept(p, g, host, ch, now);
      }
    }
  }

  lemma {:induction false} OutsideKept(p: Predictor, g: Guess, host: Frame, ch: char, now: nat)
    requires !InRowFrom(g, p, host.cols) && g in p.pending
    ensures ShiftedIs(p, g, host, ch, now)
  {}

  lemma {:induction false} InsertKept(p: Predictor, host: Frame, ch: char, now: nat, g: Guess)
    requires Ordered(p.pending) && g in p.pending && g.y == p.y && g.x < p.x && g.x < host.cols
    ensures g in InsertAt(p, host, ch, now).pending
  {
    hide InsertAt, InsertedRow, Ordered;
    MemberFound(p, g);
    InsertFinds(p, host, ch, now, g.x);
    GuessAtIs(InsertAt(p, host, ch, now), g.x, p.y);
  }

  /** The character alone is guessed at the cursor. */
  predicate PlacedHere(p: Predictor, s: seq<Guess>, host: Frame, ch: char, now: nat) {
    && (forall g :: g in p.pending && !(g.x == p.x && g.y == p.y) ==> g in s)
    && (forall g :: g in s ==> if g.x == p.x && g.y == p.y then MadeNow(p, g, ch, false, host, now) else g in p.pending)
    && !Vacant(s, p.x, p.y)
  }

  lemma {:induction false} OverwrittenPlaces(p: Predictor, host: Frame, ch: char, now: nat)
    requires Distinct(p.pending)
    ensures var q := Overwritten(p, host, ch, now); q == p.(pending := q.pending) && Distinct(q.pending) && PlacedHere(p, q.pending, host, ch, now)
  {
    hide MadeNow, GuessAt, Guessed;
    RetainMembers(p.pending, ElsewhereThan(p.x, p.y));
    RetainDistinct(p.pending, |p.pending|, ElsewhereThan(p.x, p.y));
    GuessedNow(p, ch, p.x, p.y, host, false, now);
    var g := Guessed(p, ch, p.x, p.y, GuessAt(p, p.x, p.y), host, false, now);
    GuessedAt(p, ch, p.x, p.y, GuessAt(p, p.x, p.y), host, false, now);
    var q := Overwritten(p, host, ch, now);
    var others := Retain(p.pending, ElsewhereThan(p.x, p.y));
    assert q.pending == others + [g];
    DistinctJoin(others, [g]);
    assert g in q.pending;
  }

  /** What follows belongs to a later epoch, except in experimental mode. */
  function Later(p: Predictor): Predictor { if p.preference == Experimental then p else p.(epoch := p.epoch + 1) }

  /** A character of one column. Before the last column it is inserted, or replaces what is there in
      overwrite mode. In the last column it is guessed in a later epoch and the cursor returns in one
      later still. */
  ghost predicate Typed1(p: Predictor, q: Predictor, host: Frame, ch: char, now: nat) {
    && Ordered(q.pending)
    && (if p.x + 1 < host.cols then
          && q == p.(pending := q.pending, cursors := q.cursors, x := p.x + 1, active := true) && CursorNoted(p.cursors, q)
          && (if p.overwrite then PlacedHere(p, q.pending, host, ch, now) else RowShifted(p, q.pending, host, ch, now))
        else
          exists s :: PlacedHere(Later(p), s, host, ch, now) && Returned(Later(Later(p).(pending := s)), q, host, now))
  }

  lemma {:induction false} LaterIs(p: Predictor)
    ensures Later(p) == BecomeTentative(p)
  {}

  lemma {:induction false} NotedAnyway(was: seq<CursorGuess>, q: Predictor, pending: seq<Guess>)
    ensures CursorNoted(was, q) ==> CursorNoted(was, q.(pending := pending))
  {}

  lemma {:induction false} LaterPending(p: Predictor)
    ensures Later(p).pending == p.pending
  {}

  lemma {:induction false} InsertNotes(p: Predictor, host: Frame, ch: char, now: nat)
    ensures CursorNoted(p.cursors, InsertAt(p, host, ch, now))
  {
    hide RecordCursor, Sort, InsertedRow, CursorNoted;
    RecordNotes(p.(x := p.x + 1, active := true));
    NotedAnyway(p.cursors, RecordCursor(p.(x := p.x + 1, active := true)), InsertAt(p, host, ch, now).pending);
  }

  lemma {:induction false} SortedSame(p: Predictor, q: Predictor, host: Frame, ch: char, now: nat)
    requires forall g :: g in q.pending <==> g in p.pending
    ensures forall b: Predictor :: PlacedHere(b, p.pending, host, ch, now) ==> PlacedHere(b, q.pending, host, ch, now)
  {
    hide MadeNow;
  }

  lemma {:induction false} ReturnedSame(p: Predictor, q: Predictor, r: Predictor, host: Frame, now: nat)
    requires r == q.(pending := r.pending) && forall g :: g in r.pending <==> g in q.pending
    requires Returned(p, q, host, now)
    ensures Returned(p, r, host, now)
  {
    hide MadeNow;
    assert forall x: nat, y: nat :: Vacant(q.pending, x, y) ==> Vacant(r.pending, x, y);
    assert forall x: nat, y: nat :: Vacant(r.pending, x, y) ==> Vacant(q.pending, x, y);
  }

  lemma {:induction false} LastColumnTyped(p: Predictor, host: Frame, ch: char, now: nat)
    requires Ordered(p.pending) && p.x + 1 >= host.cols
    ensures Typed1(p, TypeChar(p, host, ch, now), host, ch, now)
  {
    hide Overwritten, NewLine, PlacedHere, Returned, Sort, Ordered, Distinct;
    OrderedDistinct(p.pending);
    LaterIs(p);
    var a := Later(p);
    OverwrittenPlaces(a, host, ch, now);
    var b := Overwritten(a, host, ch, now);
    LaterIs(b);
    assert Later(p).(pending := b.pending) == b;
    NewLineReturns(Later(b), host, now);
    var c := NewLine(Later(b), host, now);
    SortIs(c.pending);
    ReturnedSame(Later(b), c, Sorted(c), host, now);
    ReturnedDistinct(Later(b), host, now);
  }

  lemma {:induction false} ReturnedDistinct(p: Predictor, host: Frame, now: nat)
    requires Distinct(p.pending)
    ensures Distinct(NewLine(p, host, now).pending)
  {
    hide RecordCursor, BlankedRow, Sort;
    RecordSame(p.(x := 0, active := true));
    if p.y + 1 >= host.rows {
      var others, row := Retain(p.pending, OutsideRow(p.y, host.cols)), BlankedRow(p, host, p.y, now, host.cols);
      BlankedRowShape(p, host, p.y, now, host.cols);
      RetainMembers(p.pending, OutsideRow(p.y, host.cols));
      RetainDistinct(p.pending, |p.pending|, OutsideRow(p.y, host.cols));
      DistinctJoin(others, row);
      SortIs(others + row);
      OrderedDistinct(Sort(others + row));
    } else {
      RecordNotes(p.(x := 0, y := p.y + 1, active := true));
    }
  }

  lemma {:induction false} TypeIsTyped(p: Predictor, host: Frame, ch: char, now: nat)
    requires Ordered(p.pending)
    ensures Typed1(p, TypeChar(p, host, ch, now), host, ch, now)
  {
    hide Overwritten, NewLine, PlacedHere, RowShifted, Sort, Ordered, Distinct, RecordCursor, InsertAt, Typed1;
    if p.x + 1 >= host.cols {
      LastColumnTyped(p, host, ch, now);
    } else if p.overwrite {
      OverwriteTyped(p, host, ch, now);
    } else {
      InsertTyped(p, host, ch, now);
    }
  }

  lemma {:induction false} InsertTyped(p: Predictor, host: Frame, ch: char, now: nat)
    requires Ordered(p.pending) && p.x + 1 < host.cols && !p.overwrite
    ensures Typed1(p, TypeChar(p, host, ch, now), host, ch, now)
  {
    hide RowShifted, Ordered, InsertAt, CursorNoted, PlacedHere, Returned;
    InsertRowShifted(p, host, ch, now);
    InsertFields(p, host, ch, now);
    InsertNotes(p, host, ch, now);
  }

  lemma {:induction false} OverwriteTyped(p: Predictor, host: Frame, ch: char, now: nat)
    requires Ordered(p.pending) && p.x + 1 < host.cols && p.overwrite
    ensures Typed1(p, TypeChar(p, host, ch, now), host, ch, now)
  {
    hide Overwritten, NewLine, PlacedHere, Sort, Ordered, Distinct, RecordCursor;
    OrderedDistinct(p.pending);
    OverwrittenPlaces(p, host, ch, now);
    var b := Overwritten(p, host, ch, now);
    RecordNotes(b.(x := b.x + 1, active := true));
    SortIs(b.pending);
    SortedSame(b, Sorted(b), host, ch, now);
  }

  // --------------------------------------------------------------------------------- a key

  datatype Key = LeftArrow | RightArrow | Unpredicted | Character(ch: char)

  /** What a key does. Control characters and whatever cannot be predicted start a later epoch; a
      carriage return also returns; the controls above 7E do nothing. */
  ghost predicate Pressed(t: Widths, p: Predictor, q: Predictor, host: Frame, key: Key, now: nat) {
    match key
    case LeftArrow => if p.x == 0 then q == p else CursorMoved(p, q, p.x - 1, p.y)
    case RightArrow => if p.x + 1 >= host.cols then q == p else CursorMoved(p, q, p.x + 1, p.y)
    case Unpredicted => q == Later(p)
    case Character(ch) =>
      if ch == '\r' then Returned(Later(p), q, host, now)
      else if ch == '\U{FFFD}' || ch as nat < 0x20 then q == Later(p)
      else if 0x7f <= ch as nat < 0xa0 then q == p
      else if DisplayWidth(t, ch) != Some(1) then q == Later(p)
      else Typed1(p, q, host, ch, now)
  }

  lemma {:induction false} CharacterPressed(t: Widths, p: Predictor, host: Frame, ch: char, now: nat)
    requires Ordered(p.pending)
    ensures Pressed(t, p, HandleChar(t, p, host, ch, now), host, Character(ch), now)
  {
    hide Typed1, TypeChar, Returned, NewLine, DisplayWidth, Ordered, BecomeTentative, Later;
    LaterIs(p);
    OrderedDistinct(p.pending);
    if ch == '\r' {
      LaterPending(p);
      NewLineReturns(Later(p), host, now);
    } else {
      TypeIsTyped(p, host, ch, now);
    }
  }

  function KeyOf(k: KeyPress): Key
    requires !k.MoreKeys?
  {
    match k
    case Left(_) => LeftArrow
    case Right(_) => RightArrow
    case Other(_) => Unpredicted
    case Typed(ch, _) => Character(ch)
  }

  lemma {:induction false} PressIsPressed(t: Widths, p: Predictor, host: Frame, k: KeyPress, now: nat)
    requires Ordered(p.pending) && !k.MoreKeys?
    ensures Pressed(t, p, Press(t, p, host, k, now), host, KeyOf(k), now)
  {
    hide HandleChar, MoveLeft, MoveRight, BecomeTentative, Later, Ordered, Returned, Typed1, CursorMoved, DisplayWidth;
    match k
    case Left(_) => LeftMoves(p);
    case Right(_) => RightMoves(p, host);
    case Other(_) => LaterIs(p);
    case Typed(ch, _) => CharacterPressed(t, p, host, ch, now);
  }
}
