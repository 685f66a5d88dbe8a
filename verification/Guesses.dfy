/** What every step of the predictor keeps: the shape of its lists, the order of its epochs,
    and the silence after an erasure. */
module Guesses {
  import opened Basics
  import opened Sgr
  import opened Cells
  import opened Screen
  import opened Prediction

  // ------------------------------------------------------------------------- sorting

  predicate Distinct(s: seq<Guess>) {
    forall i, j :: 0 <= i < j < |s| ==> !SameCell(s[i], s[j])
  }

  lemma {:induction false} InOrderMembers(s: seq<Guess>, g: Guess)
    ensures |InOrder(s, g)| == |s| + 1
    ensures forall h :: h in InOrder(s, g) <==> h in s || h == g
  {
    if s != [] && Less(g, s[|s| - 1]) {
      InOrderMembers(s[..|s| - 1], g);
      assert s == s[..|s| - 1] + [s[|s| - 1]];
    }
  }

  lemma {:induction false} InOrderOrdered(s: seq<Guess>, g: Guess)
    requires Ordered(s) && forall h :: h in s ==> !SameCell(h, g)
    ensures Ordered(InOrder(s, g))
  {
    if s != [] {
      var init, last := s[..|s| - 1], s[|s| - 1];
      assert last in s;
      if Less(g, last) {
        InOrderOrdered(init, g);
        InOrderMembers(init, g);
        var r := InOrder(init, g);
        forall i | 0 <= i < |r|
          ensures Less(r[i], last)
        {
          assert r[i] in r;
          if r[i] in init {
            var k :| 0 <= k < |init| && init[k] == r[i];
            assert s[k] == r[i];
          }
        }
      }
    }
  }

  lemma {:induction false} SortUpToMembers(s: seq<Guess>, n: nat)
    requires n <= |s|
    ensures |SortUpTo(s, n)| == n
    ensures forall h :: h in SortUpTo(s, n) <==> h in s[..n]
  {
    if n > 0 {
      SortUpToMembers(s, n - 1);
      InOrderMembers(SortUpTo(s, n - 1), s[n - 1]);
      assert s[..n] == s[..n - 1] + [s[n - 1]];
    }
  }

  lemma {:induction false} SortUpToOrdered(s: seq<Guess>, n: nat)
    requires n <= |s| && Distinct(s)
    ensures Ordered(SortUpTo(s, n))
  {
    if n > 0 {
      SortUpToOrdered(s, n - 1);
      SortUpToMembers(s, n - 1);
      var r := SortUpTo(s, n - 1);
      forall h | h in r
        ensures !SameCell(h, s[n - 1])
      {
        var k :| 0 <= k < n - 1 && s[k] == h;
      }
      InOrderOrdered(SortUpTo(s, n - 1), s[n - 1]);
    }
  }

  /** Sorting keeps the guesses and, one per cell, puts them in strict order. */
  lemma {:induction false} SortIs(s: seq<Guess>)
    ensures |Sort(s)| == |s| && forall h :: h in Sort(s) <==> h in s
    ensures Distinct(s) ==> Ordered(Sort(s))
  {
    SortUpToMembers(s, |s|);
    assert s[..|s|] == s;
    if Distinct(s) {
      SortUpToOrdered(s, |s|);
    }
  }

  lemma {:induction false} OrderedDistinct(s: seq<Guess>)
    requires Ordered(s)
    ensures Distinct(s)
  {
    forall i, j | 0 <= i < j < |s|
      ensures !SameCell(s[i], s[j])
    {
      assert Less(s[i], s[j]);
    }
  }

  lemma {:induction false} RetainOrdered(s: seq<Guess>, n: nat, keep: Guess -> bool)
    requires n <= |s| && Ordered(s)
    ensures Ordered(RetainUpTo(s, n, keep))
    ensures n < |s| ==> forall g :: g in RetainUpTo(s, n, keep) ==> Less(g, s[n])
  {
    RetainUpToMembers(s, n, keep);
    if n > 0 {
      RetainOrdered(s, n - 1, keep);
      if n < |s| {
        forall g | g in RetainUpTo(s, n, keep)
          ensures Less(g, s[n])
        {
          var k :| 0 <= k < n && s[k] == g;
        }
      }
    }
  }

  lemma {:induction false} DistinctJoin(a: seq<Guess>, b: seq<Guess>)
    requires Distinct(a) && Distinct(b) && forall g, h :: g in a && h in b ==> !SameCell(g, h)
    ensures Distinct(a + b)
  {
    var s := a + b;
    forall i, j | 0 <= i < j < |s|
      ensures !SameCell(s[i], s[j])
    {
      if i < |a| <= j {
        assert a[i] in a && b[j - |a|] in b;
      }
    }
  }

  // ---------------------------------------------------------------- guesses of one row

  lemma {:induction false} FindAtIs(s: seq<Guess>, x: nat, y: nat, n: nat)
    requires n <= |s|
    ensures var r := FindAt(s, x, y, n);
      if r.Some? then r.value in s[..n] && r.value.x == x && r.value.y == y
      else forall g :: g in s[..n] ==> g.x != x || g.y != y
  {
    if n > 0 {
      assert s[..n] == s[..n - 1] + [s[n - 1]];
      FindAtIs(s, x, y, n - 1);
    }
  }

  lemma {:induction false} GuessAtIs(p: Predictor, x: nat, y: nat)
    ensures var r := GuessAt(p, x, y);
      if r.Some? then r.value in p.pending && r.value.x == x && r.value.y == y
      else forall g :: g in p.pending ==> g.x != x || g.y != y
  {
    FindAtIs(p.pending, x, y, |p.pending|);
    assert p.pending[..|p.pending|] == p.pending;
  }

  predicate InRow(s: seq<Guess>, y: nat, n: nat) {
    forall g :: g in s ==> g.y == y && g.x < n
  }

  lemma {:induction false} InsertedRowShape(p: Predictor, host: Frame, cx: nat, y: nat, ch: char, now: nat, n: nat)
    ensures var s := InsertedRow(p, host, cx, y, ch, now, n);
      && InRow(s, y, n) && Distinct(s)
      && forall g :: g in s ==> g in p.pending || g.epoch == p.epoch
  {
    if n > 0 {
      InsertedRowShape(p, host, cx, y, ch, now, n - 1);
      GuessAtIs(p, n - 1, y);
    }
  }

  lemma {:induction false} BlankedRowShape(p: Predictor, host: Frame, y: nat, now: nat, n: nat)
    ensures var s := BlankedRow(p, host, y, now, n);
      && InRow(s, y, n) && Distinct(s) && |s| == n
      && forall g :: g in s ==> g.epoch == p.epoch
  {
    if n > 0 {
      BlankedRowShape(p, host, y, now, n - 1);
    }
  }

  /** The other rows together with a new row are one guess per cell again. */
  lemma {:induction false} RowReplaced(pending: seq<Guess>, row: seq<Guess>, y: nat, cols: nat)
    requires Ordered(pending) && Distinct(row) && InRow(row, y, cols)
    ensures Ordered(Sort(Retain(pending, OutsideRow(y, cols)) + row))
    ensures forall g :: g in Sort(Retain(pending, OutsideRow(y, cols)) + row) <==>
      (g in pending && (g.y != y || g.x >= cols)) || g in row
  {
    var others := Retain(pending, OutsideRow(y, cols));
    RetainMembers(pending, OutsideRow(y, cols));
    RetainOrdered(pending, |pending|, OutsideRow(y, cols));
    OrderedDistinct(others);
    DistinctJoin(others, row);
    SortIs(others + row);
  }

  // -------------------------------------------------------------------- the invariant

  predicate RisingCursors(s: seq<CursorGuess>) {
    forall i, j :: 0 <= i < j < |s| ==> s[i].epoch < s[j].epoch
  }

  predicate PendingUpTo(s: seq<Guess>, epoch: nat) { forall g :: g in s ==> g.epoch <= epoch }

  predicate CursorsUpTo(s: seq<CursorGuess>, epoch: nat) { forall c :: c in s ==> c.epoch <= epoch }

  /** Epochs never run ahead, and there is one cursor per epoch, the newest last. */
  predicate Banded(p: Predictor) {
    !p.preference.Experimental? ==>
      && p.confirmed <= p.epoch && PendingUpTo(p.pending, p.epoch)
      && RisingCursors(p.cursors) && CursorsUpTo(p.cursors, p.epoch)
  }

  predicate Live(p: Predictor) { p.active <==> p.pending != [] || p.cursors != [] }

  /** While an erasure waits for the server nothing is guessed. */
  predicate Silent(p: Predictor) { p.erase.Some? ==> p.pending == [] && p.cursors == [] }

  predicate Shape(p: Predictor) { Ordered(p.pending) && Live(p) && Banded(p) && Silent(p) }

  lemma {:induction false} NewShape(preference: Preference, overwrite: bool)
    ensures Shape(New(preference, overwrite))
  {}

  lemma {:induction false} TentativeKeeps(p: Predictor)
    requires Shape(p)
    ensures Shape(BecomeTentative(p))
  {}

  lemma {:induction false} ResetKeeps(p: Predictor)
    requires Banded(p)
    ensures Shape(Reset(p))
  {}

  /** A cursor is added, whatever else has been: the lists are live again. */
  lemma {:induction false} RecordKeeps(p: Predictor)
    requires Banded(p) && p.active
    ensures var q := RecordCursor(p);
      Banded(q) && Live(q) && q == p.(cursors := q.cursors) && q.cursors != []
  {
    var q := RecordCursor(p);
    if !p.preference.Experimental? {
      forall i, j | 0 <= i < j < |q.cursors|
        ensures q.cursors[i].epoch < q.cursors[j].epoch
      {
        if i < |p.cursors| {
          assert p.cursors[i] in p.cursors;
        }
      }
      forall c | c in q.cursors
        ensures c.epoch <= q.epoch
      {
        assert c in p.cursors || c == CursorHere(p);
      }
    }
  }

  lemma {:induction false} PendingKeeps(p: Predictor, pending: seq<Guess>)
    requires Banded(p) && forall g :: g in pending ==> g in p.pending || g.epoch == p.epoch
    ensures Banded(p.(pending := pending))
  {}

  lemma {:induction false} InsertKeeps(p: Predictor, host: Frame, ch: char, now: nat)
    requires Shape(p) && p.erase.None?
    ensures Shape(InsertAt(p, host, ch, now))
  {
    var row := InsertedRow(p, host, p.x, p.y, ch, now, host.cols);
    var pending := Sort(Retain(p.pending, OutsideRow(p.y, host.cols)) + row);
    InsertedRowShape(p, host, p.x, p.y, ch, now, host.cols);
    RowReplaced(p.pending, row, p.y, host.cols);
    PendingKeeps(p, pending);
    RecordKeeps(p.(x := p.x + 1, active := true, pending := pending));
    InsertShape(p, host, ch, now, pending);
  }

  lemma {:induction false} InsertShape(p: Predictor, host: Frame, ch: char, now: nat, pending: seq<Guess>)
    requires pending == Sort(Retain(p.pending, OutsideRow(p.y, host.cols)) + InsertedRow(p, host, p.x, p.y, ch, now, host.cols))
    ensures InsertAt(p, host, ch, now) == RecordCursor(p.(x := p.x + 1, active := true, pending := pending))
  {
    hide Sort, InsertedRow;
  }

  lemma {:induction false} NewLineKeeps(p: Predictor, host: Frame, now: nat)
    requires Banded(p) && Ordered(p.pending) && p.erase.None?
    ensures Shape(NewLine(p, host, now))
  {
    if p.y + 1 >= host.rows {
      var row := BlankedRow(p, host, p.y, now, host.cols);
      var pending := Sort(Retain(p.pending, OutsideRow(p.y, host.cols)) + row);
      BlankedRowShape(p, host, p.y, now, host.cols);
      RowReplaced(p.pending, row, p.y, host.cols);
      PendingKeeps(p, pending);
      RecordKeeps(p.(x := 0, active := true, pending := pending));
      NewLineShape(p, host, now, pending);
    } else {
      RecordKeeps(p.(x := 0, y := p.y + 1, active := true));
    }
  }

  lemma {:induction false} NewLineShape(p: Predictor, host: Frame, now: nat, pending: seq<Guess>)
    requires p.y + 1 >= host.rows
    requires pending == Sort(Retain(p.pending, OutsideRow(p.y, host.cols)) + BlankedRow(p, host, p.y, now, host.cols))
    ensures NewLine(p, host, now) == RecordCursor(p.(x := 0, active := true, pending := pending))
  {
    hide Sort, BlankedRow;
  }

  lemma {:induction false} OverwrittenKeeps(p: Predictor, host: Frame, ch: char, now: nat)
    requires Banded(p) && Ordered(p.pending)
    ensures var q := Overwritten(p, host, ch, now);
      && Banded(q) && Distinct(q.pending) && q == p.(pending := q.pending) && q.pending != []
  {
    var others := Retain(p.pending, ElsewhereThan(p.x, p.y));
    var q := Overwritten(p, host, ch, now);
    RetainMembers(p.pending, ElsewhereThan(p.x, p.y));
    RetainOrdered(p.pending, |p.pending|, ElsewhereThan(p.x, p.y));
    OrderedDistinct(others);
    DistinctJoin(others, [q.pending[|others|]]);
    PendingKeeps(p, q.pending);
  }

  /** Sorting a list with one guess per cell. */
  lemma {:induction false} SortedKeeps(p: Predictor)
    requires Banded(p) && Distinct(p.pending)
    ensures Banded(Sorted(p)) && Ordered(Sorted(p).pending)
    ensures Live(p) ==> Live(Sorted(p))
    ensures Silent(p) ==> Silent(Sorted(p))
  {
    SortIs(p.pending);
    PendingKeeps(p, Sort(p.pending));
  }

  /** A new line does not depend on the order of the guesses it keeps. */
  lemma {:induction false} NewLineDistinct(p: Predictor, host: Frame, now: nat)
    requires Banded(p) && Distinct(p.pending) && p.erase.None?
    ensures var q := NewLine(p, host, now);
      Banded(q) && Live(q) && Silent(q) && Distinct(q.pending)
  {
    if p.y + 1 >= host.rows {
      var others := Retain(p.pending, OutsideRow(p.y, host.cols));
      var row := BlankedRow(p, host, p.y, now, host.cols);
      var pending := Sort(others + row);
      BlankedRowShape(p, host, p.y, now, host.cols);
      RetainMembers(p.pending, OutsideRow(p.y, host.cols));
      RetainDistinct(p.pending, |p.pending|, OutsideRow(p.y, host.cols));
      DistinctJoin(others, row);
      SortIs(others + row);
      OrderedDistinct(pending);
      PendingKeeps(p, pending);
      RecordKeeps(p.(x := 0, active := true, pending := pending));
      NewLineShape(p, host, now, pending);
    } else {
      RecordKeeps(p.(x := 0, y := p.y + 1, active := true));
    }
  }

  lemma {:induction false} RetainDistinct(s: seq<Guess>, n: nat, keep: Guess -> bool)
    requires n <= |s| && Distinct(s)
    ensures Distinct(RetainUpTo(s, n, keep))
  {
    if n > 0 {
      RetainDistinct(s, n - 1, keep);
      RetainUpToMembers(s, n - 1, keep);
      var r := RetainUpTo(s, n - 1, keep);
      forall h | h in r
        ensures !SameCell(h, s[n - 1])
      {
        var k :| 0 <= k < n - 1 && s[k] == h;
      }
      DistinctJoin(r, [s[n - 1]]);
    }
  }

  lemma {:induction false} TypeKeeps(p: Predictor, host: Frame, ch: char, now: nat)
    requires Shape(p) && p.erase.None?
    ensures Shape(TypeChar(p, host, ch, now))
  {
    hide Overwritten, NewLine, Sort, Distinct, Ordered, RecordCursor, InsertAt;
    if p.x + 1 >= host.cols {
      var q := Overwritten(BecomeTentative(p), host, ch, now);
      OverwrittenKeeps(BecomeTentative(p), host, ch, now);
      NewLineDistinct(BecomeTentative(q), host, now);
      SortedKeeps(NewLine(BecomeTentative(q), host, now));
    } else if p.overwrite {
      var q := Overwritten(p, host, ch, now);
      OverwrittenKeeps(p, host, ch, now);
      RecordKeeps(q.(x := q.x + 1, active := true));
      SortedKeeps(RecordCursor(q.(x := q.x + 1, active := true)));
    } else {
      InsertKeeps(p, host, ch, now);
    }
  }

  // ------------------------------------------------------------------------ keystrokes

  lemma {:induction false} HandleKeeps(t: Widths, p: Predictor, host: Frame, ch: char, now: nat)
    requires Shape(p) && p.erase.None?
    ensures Shape(HandleChar(t, p, host, ch, now))
  {
    hide NewLine, TypeChar, DisplayWidth, Shape;
    TentativeKeeps(p);
    if ch == '\r' {
      ShapeOpen(BecomeTentative(p));
      NewLineKeeps(BecomeTentative(p), host, now);
    }
    TypeKeeps(p, host, ch, now);
  }

  lemma {:induction false} ShapeOpen(p: Predictor)
    requires Shape(p)
    ensures Banded(p) && Ordered(p.pending)
  {}

  lemma {:induction false} MovedKeeps(p: Predictor, x: nat)
    requires Shape(p) && p.erase.None?
    ensures Shape(RecordCursor(p.(x := x, active := true)))
  {
    hide RecordCursor, Ordered, RisingCursors, PendingUpTo, CursorsUpTo;
    RecordKeeps(p.(x := x, active := true));
  }

  lemma {:induction false} MoveKeeps(p: Predictor, host: Frame)
    requires Shape(p) && p.erase.None?
    ensures Shape(MoveLeft(p)) && Shape(MoveRight(p, host))
  {
    hide Shape, RecordCursor;
    MovedKeeps(p, SatSub(p.x, 1));
    MovedKeeps(p, p.x + 1);
  }

  /** What the keys that are predicted leave alone. */
  predicate SameSettings(p: Predictor, q: Predictor) {
    q.erase == p.erase && q.preference == p.preference && q.confirmed == p.confirmed && p.epoch <= q.epoch
  }

  lemma {:induction false} RecordSame(p: Predictor)
    ensures SameSettings(p, RecordCursor(p)) && RecordCursor(p).epoch == p.epoch
  {}

  lemma {:induction false} NewLineSame(p: Predictor, host: Frame, now: nat)
    ensures SameSettings(p, NewLine(p, host, now)) && NewLine(p, host, now).epoch == p.epoch
  {
    hide Sort, BlankedRow, RecordCursor;
    RecordSame(p.(x := 0, active := true));
    RecordSame(p.(x := 0, y := p.y + 1, active := true));
  }

  lemma {:induction false} OverwrittenSame(p: Predictor, host: Frame, ch: char, now: nat)
    ensures SameSettings(p, Overwritten(p, host, ch, now)) && Overwritten(p, host, ch, now).epoch == p.epoch
  {}

  lemma {:induction false} TypeSame(p: Predictor, host: Frame, ch: char, now: nat)
    ensures SameSettings(p, TypeChar(p, host, ch, now))
  {
    hide NewLine, Overwritten, Sort, RecordCursor, InsertedRow;
    if p.x + 1 >= host.cols {
      OverwrittenSame(BecomeTentative(p), host, ch, now);
      NewLineSame(BecomeTentative(Overwritten(BecomeTentative(p), host, ch, now)), host, now);
    } else {
      var q := Overwritten(p, host, ch, now);
      OverwrittenSame(p, host, ch, now);
      RecordSame(q.(x := q.x + 1, active := true));
      RecordSame(p.(x := p.x + 1, active := true));
    }
  }

  lemma {:induction false} PressSame(t: Widths, p: Predictor, host: Frame, k: KeyPress, now: nat)
    ensures SameSettings(p, Press(t, p, host, k, now))
  {
    hide TypeChar, NewLine, DisplayWidth, RecordCursor;
    if k.Typed? {
      TypeSame(p, host, k.ch, now);
      NewLineSame(BecomeTentative(p), host, now);
    } else {
      RecordSame(p.(x := SatSub(p.x, 1), active := true));
      RecordSame(p.(x := p.x + 1, active := true));
    }
  }

  lemma {:induction false} PressKeeps(t: Widths, p: Predictor, host: Frame, k: KeyPress, now: nat)
    requires Shape(p) && p.erase.None?
    ensures Shape(Press(t, p, host, k, now))
  {
    hide Shape, HandleChar, MoveLeft, MoveRight, BecomeTentative;
    match k
    case Typed(ch, _) => HandleKeeps(t, p, host, ch, now);
    case Other(_) => TentativeKeeps(p);
    case _ => MoveKeeps(p, host);
  }

  lemma {:induction false} OpenedKeeps(p: Predictor)
    requires Shape(p)
    ensures Shape(Opened(p)) && Opened(p).erase == p.erase
  {}

  lemma {:induction false} EscKeeps(p: Predictor, esc: seq<byte>)
    requires Shape(p)
    ensures Shape(p.(esc := esc))
  {}

  lemma {:induction false} PressAllKeeps(t: Widths, p: Predictor, host: Frame, data: seq<byte>, now: nat)
    requires Shape(p) && p.erase.None?
    ensures Shape(PressAll(t, p, host, data, now))
    ensures PressAll(t, p, host, data, now).erase.None?
    decreases |data|
  {
    hide Shape, Press, Opened, NextKey;
    if data != [] {
      var k := NextKey(data);
      var q := Opened(p);
      OpenedKeeps(p);
      EscKeeps(q, data);
      if !k.MoreKeys? {
        PressKeeps(t, q, host, k, now);
        PressSame(t, q, host, k, now);
        PressAllKeeps(t, Press(t, q, host, k, now), host, data[k.len..], now);
      }
    }
  }

  lemma {:induction false} EraseKeeps(p: Predictor, erase: Option<nat>)
    requires Shape(p) && (erase.Some? ==> p.pending == [] && p.cursors == [])
    ensures Shape(p.(erase := erase))
  {}

  lemma {:induction false} KeystrokeKeeps(t: Widths, p: Predictor, input: seq<byte>, host: Frame, now: nat)
    requires Shape(p)
    ensures Shape(Keystroke(t, p, input, host, now))
  {
    hide PressAll, Ordered;
    var q := p.(esc := []);
    EscKeeps(p, []);
    ResetKeeps(p);
    ResetKeeps(q);
    EraseKeeps(Reset(q), Some(Expiry(q)));
    if p.erase.Some? {
      EraseKeeps(p, Some(Expiry(p)));
    } else {
      PressAllKeeps(t, q, host, p.esc + input, now);
    }
  }

  // ---------------------------------------------------------- host frames and settings

  lemma {:induction false} SettingsKeep(p: Predictor, srtt: Option<nat>, sent: nat, early: nat, late: nat, now: nat)
    requires Shape(p)
    ensures Shape(SetFrames(p, sent, early, late)) && Shape(SetSrtt(p, srtt)) && Shape(SamplePendingAge(p, now))
  {
    hide OldestAt, Ordered;
  }

  lemma {:induction false} CursorSteps(p: Predictor, x: nat, y: nat, hostUpdated: bool)
    requires Shape(p)
    ensures Shape(SetCursor(p, x, y)) && Shape(ObserveLateAck(p, hostUpdated))
  {}

  lemma {:induction false} RetainCursors(s: seq<CursorGuess>, n: nat, keep: CursorGuess -> bool)
    requires n <= |s| && RisingCursors(s)
    ensures RisingCursors(RetainUpTo(s, n, keep))
    ensures n < |s| ==> forall c :: c in RetainUpTo(s, n, keep) ==> c.epoch < s[n].epoch
  {
    RetainUpToMembers(s, n, keep);
    if n > 0 {
      RetainCursors(s, n - 1, keep);
      var r := RetainUpTo(s, n - 1, keep);
      forall i, j | 0 <= i < j < |RetainUpTo(s, n, keep)|
        ensures RetainUpTo(s, n, keep)[i].epoch < RetainUpTo(s, n, keep)[j].epoch
      {
        if j == |r| {
          assert r[i] in r;
        }
      }
    }
  }

  /** Fewer guesses and fewer cursors. */
  lemma {:induction false} FewerBanded(p: Predictor, keep: CursorGuess -> bool, pending: seq<Guess>)
    requires Banded(p) && forall g :: g in pending ==> g in p.pending
    ensures Banded(p.(pending := pending, cursors := Retain(p.cursors, keep)))
  {
    RetainMembers(p.cursors, keep);
    if !p.preference.Experimental? {
      RetainCursors(p.cursors, |p.cursors|, keep);
    }
  }

  /** Some cursors are no longer waited for. */
  function Culled(p: Predictor): Predictor {
    p.(cursors := Retain(p.cursors, CursorWaiting(p.sent, p.late)))
  }

  lemma {:induction false} CulledKeeps(p: Predictor, host: Frame)
    requires Banded(p) && Ordered(p.pending) && Silent(p)
    ensures var q := Culled(p);
      Shape(if q.cursors == [] && q.pending == [] then ClearCursor(q, host) else q.(active := true))
  {
    hide Ordered, RisingCursors, PendingUpTo, CursorsUpTo;
    FewerBanded(p, CursorWaiting(p.sent, p.late), p.pending);
    RetainMembers(p.cursors, CursorWaiting(p.sent, p.late));
    NoCursors(Culled(p));
  }

  lemma {:induction false} CullCases(p: Predictor, host: Frame)
    ensures var q := Culled(p);
      || Cull(p, host) == ClearCursor(p, host)
      || Cull(p, host) == AtHost(Reset(p), host)
      || Cull(p, host) == if q.cursors == [] && q.pending == [] then ClearCursor(q, host) else q.(active := true)
  {
    hide ClearCursor, Reset, AtHost;
  }

  lemma {:induction false} CullKeeps(p: Predictor, host: Frame)
    requires Banded(p) && Ordered(p.pending) && Silent(p)
    ensures Shape(Cull(p, host))
  {
    hide Cull, Reset, Culled;
    CullCases(p, host);
    ResetKeeps(p);
    CulledKeeps(p, host);
    NoCursors(p);
  }

  lemma {:induction false} NoCursors(p: Predictor)
    requires Banded(p)
    ensures Banded(p.(cursors := []))
  {}

  /** Guesses of the failed epoch and later go; what is left ends before it, so the host's
      cursor can be recorded under the present one. */
  lemma {:induction false} KillKeeps(p: Predictor, epoch: nat, host: Frame)
    requires Banded(p) && Ordered(p.pending) && p.erase.None? && (!p.preference.Experimental? ==> epoch <= p.epoch)
    ensures Shape(KillEpoch(p, epoch, host))
  {
    var pending := Retain(p.pending, GuessBefore(epoch));
    var cursors := Retain(p.cursors, CursorBefore(epoch));
    RetainMembers(p.pending, GuessBefore(epoch));
    RetainMembers(p.cursors, CursorBefore(epoch));
    RetainOrdered(p.pending, |p.pending|, GuessBefore(epoch));
    FewerBanded(p, CursorBefore(epoch), pending);
    var q := AtHost(p.(pending := pending, cursors := cursors), host);
    var r := q.(cursors := cursors + [CursorHere(q)], active := true);
    AppendRising(cursors, CursorHere(q), epoch);
    assert Banded(r) && Live(r);
    TentativeKeeps(r);
  }

  lemma {:induction false} AppendRising(s: seq<CursorGuess>, c: CursorGuess, epoch: nat)
    requires forall d :: d in s ==> d.epoch < epoch
    ensures RisingCursors(s) && epoch <= c.epoch ==> RisingCursors(s + [c])
  {
    if RisingCursors(s) && epoch <= c.epoch {
      forall i, j | 0 <= i < j < |s + [c]|
        ensures (s + [c])[i].epoch < (s + [c])[j].epoch
      {
        if j == |s| {
          assert s[i] in s;
        }
      }
    }
  }

  // ------------------------------------------------------------------------ confirming

  /** The walk so far: still in order, in epochs that are open, credited no further. */
  predicate WalkOk(p: Predictor, w: Walked) {
    && Ordered(w.kept + w.rest)
    && (!p.preference.Experimental? ==> PendingUpTo(w.kept + w.rest, p.epoch) && w.confirmed <= p.epoch)
    && (w.ending.KilledBy? && !p.preference.Experimental? ==> w.ending.epoch <= p.epoch)
  }

  lemma {:induction false} DropOrdered(a: seq<Guess>, g: Guess, b: seq<Guess>)
    requires Ordered(a + [g] + b)
    ensures Ordered(a + b)
  {
    var s, r := a + [g] + b, a + b;
    forall i, j | 0 <= i < j < |r|
      ensures Less(r[i], r[j])
    {
      var i', j' := if i < |a| then i else i + 1, if j < |a| then j else j + 1;
      assert r[i] == s[i'] && r[j] == s[j'];
    }
  }

  lemma {:induction false} DressedKeeps(a: seq<Guess>, b: seq<Guess>, y: nat, attr: Attr, epoch: nat)
    requires Ordered(a + b)
    ensures Ordered(a + Dressed(b, |b|, y, attr))
    ensures PendingUpTo(a + b, epoch) ==> PendingUpTo(a + Dressed(b, |b|, y, attr), epoch)
  {
    DressedLength(b, |b|, y, attr);
    var s, r := a + b, a + Dressed(b, |b|, y, attr);
    assert |s| == |r| && forall i :: 0 <= i < |s| ==> r[i] == s[i].(attr := r[i].attr);
    if PendingUpTo(s, epoch) {
      forall g | g in r
        ensures g.epoch <= epoch
      {
        var i :| 0 <= i < |r| && r[i] == g;
        assert s[i] in s;
      }
    }
  }

  lemma {:induction false} SplitRest(kept: seq<Guess>, rest: seq<Guess>)
    requires rest != []
    ensures kept + rest == kept + [rest[0]] + rest[1..]
    ensures forall g :: g in kept + rest[1..] ==> g in kept + rest
  {}

  lemma {:induction false} WalkKeeps(p: Predictor, host: Frame, w: Walked, now: nat)
    requires WalkOk(p, w)
    ensures WalkOk(p, Walk(p, host, w, now))
    decreases |w.rest|
  {
    hide Judge, Ordered;
    if w.rest != [] {
      var g, more := w.rest[0], w.rest[1..];
      SplitRest(w.kept, w.rest);
      DropOrdered(w.kept, g, more);
      assert g in w.kept + w.rest;
      match Judge(p.(confirmed := w.confirmed), g, host)
      case Waiting => WalkKeeps(p, host, w.(kept := w.kept + [g], rest := more), now);
      case Removed => WalkKeeps(p, host, w.(rest := more, removed := w.removed + 1), now);
      case Credited =>
        var c := CellAt(host, g.x, g.y);
        var attr := if c.Some? then c.value.attr else PLAIN;
        DressedLength(more, |more|, g.y, attr);
        DressedKeeps(w.kept, more, g.y, attr, p.epoch);
        WalkKeeps(p, host, w.(rest := Dressed(more, |more|, g.y, attr), confirmed := Larger(w.confirmed, g.epoch),
                              quick := w.quick || SatSub(now, g.at) < GLITCH_AGE, removed := w.removed + 1), now);
      case _ =>
    }
  }

  lemma {:induction false} ConfirmKeeps(p: Predictor, host: Frame, now: nat)
    requires Shape(p)
    ensures Shape(Confirm(p, host, now))
  {
    hide Walk, Cull, KillEpoch, Ordered, RisingCursors, CursorsUpTo;
    if p.pending == [] {
      CullKeeps(p, host);
    } else if p.active {
      var w0 := Walked([], p.pending, p.confirmed, false, 0, Finished);
      assert [] + p.pending == p.pending;
      WalkKeeps(p, host, w0, now);
      var w := Walk(p, host, w0, now);
      var q := p.(pending := w.kept + w.rest, confirmed := w.confirmed);
      match w.ending
      case KilledBy(epoch) => KillKeeps(q, epoch, host);
      case RefutedBy => ResetKeeps(q);
      case Finished => CullKeeps(if w.removed > 0 then Repair(q.(count := q.count + w.removed), w.quick, now) else q, host);
    }
  }

  // ------------------------------------------------------------------------------ runs

  datatype Op =
    | Keys(input: seq<byte>)
    | Frames(sent: nat, early: nat, late: nat)
    | LateAck(hostUpdated: bool)
    | HostCursor
    | HostConfirms
    | Srtt(srtt: Option<nat>)
    | Age
    | Geometry

  /** One call; `host` is the screen at that time. */
  function Step(t: Widths, p: Predictor, op: Op, host: Frame, now: nat): Predictor {
    match op
    case Keys(input) => Keystroke(t, p, input, host, now)
    case Frames(sent, early, late) => SetFrames(p, sent, early, late)
    case LateAck(hostUpdated) => ObserveLateAck(p, hostUpdated)
    case HostCursor => SetCursor(p, host.cursor.x, host.cursor.y)
    case HostConfirms => Confirm(p, host, now)
    case Srtt(srtt) => SetSrtt(p, srtt)
    case Age => SamplePendingAge(p, now)
    case Geometry => Reset(p)
  }

  datatype Call = Call(op: Op, host: Frame, now: nat)

  function Calls(t: Widths, p: Predictor, calls: seq<Call>): Predictor {
    if calls == [] then p
    else
      var c := calls[|calls| - 1];
      Step(t, Calls(t, p, calls[..|calls| - 1]), c.op, c.host, c.now)
  }

  lemma {:induction false} StepKeeps(t: Widths, p: Predictor, op: Op, host: Frame, now: nat)
    requires Shape(p)
    ensures Shape(Step(t, p, op, host, now))
  {
    hide Shape, Keystroke, SetFrames, ObserveLateAck, SetCursor, Confirm, SetSrtt, SamplePendingAge, Reset;
    match op
    case Keys(input) => KeystrokeKeeps(t, p, input, host, now);
    case Frames(sent, early, late) => SettingsKeep(p, None, sent, early, late, now);
    case LateAck(hostUpdated) => CursorSteps(p, 0, 0, hostUpdated);
    case HostCursor => CursorSteps(p, host.cursor.x, host.cursor.y, false);
    case HostConfirms => ConfirmKeeps(p, host, now);
    case Srtt(srtt) => SettingsKeep(p, srtt, 0, 0, 0, now);
    case Age => SettingsKeep(p, None, 0, 0, 0, now);
    case Geometry =>
      ShapeOpen(p);
      ResetKeeps(p);
  }

  /** In every reachable state, over any frames and keys: one guess per cell, in order; active
      exactly if something is guessed; epochs bounded; silence after an erasure. */
  lemma {:induction false} AlwaysShaped(t: Widths, preference: Preference, overwrite: bool, calls: seq<Call>)
    ensures Shape(Calls(t, New(preference, overwrite), calls))
    decreases |calls|
  {
    hide Shape, Step, New;
    if calls == [] {
      NewShape(preference, overwrite);
    } else {
      AlwaysShaped(t, preference, overwrite, calls[..|calls| - 1]);
      var c := calls[|calls| - 1];
      StepKeeps(t, Calls(t, New(preference, overwrite), calls[..|calls| - 1]), c.op, c.host, c.now);
    }
  }

  /** While an erasure is awaited the overlay shows just the host. */
  lemma {:induction false} SilentOverlay(p: Predictor, f: Frame)
    requires Shape(p) && p.erase.Some?
    ensures !p.active && Overlay(p, f) == f
  {}

  /** What ends the wait: a host update together with an echo of every input swallowed. */
  lemma {:induction false} EraseEnds(t: Widths, p: Predictor, op: Op, host: Frame, now: nat)
    requires Shape(p) && p.erase.Some?
    ensures var q := Step(t, p, op, host, now);
      && (q.erase.None? ==> op == LateAck(true) && p.late >= p.erase.value)
      && (q.erase.Some? ==> q.erase == p.erase || (op.Keys? && op.input != [] && q.erase == Some(SatInc(p.sent))))
  {
    hide OldestAt, Ordered, RisingCursors, PendingUpTo, CursorsUpTo;
  }

  /** What starts it: input that erases, or completes a sequence that does. */
  lemma {:induction false} EraseStarts(t: Widths, p: Predictor, input: seq<byte>, host: Frame, now: nat)
    requires Shape(p) && p.erase.None? && !p.preference.Never?
    ensures Keystroke(t, p, input, host, now).erase.Some? <==> Erases(p.esc + input)
  {
    hide PressAll, Shape, Erases;
    EscKeeps(p, []);
    PressAllKeeps(t, p.(esc := []), host, p.esc + input, now);
  }
}
