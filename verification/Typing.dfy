/** Typing on a confirmed band is insertion: what the overlay shows is the row it showed
    before with the typed text inserted at the cursor. */
module Typing {
  import opened Basics
  import opened Sgr
  import opened Cells
  import opened Screen
  import opened Reading
  import opened Prediction
  import opened Guesses

  // ------------------------------------------------------------------- sound guesses

  /** A cell of one column that a terminal stores as it is printed. */
  predicate NarrowCell(t: Widths, c: Cell) { c.width == 1 && GlyphOk(t, c) }

  predicate HostOk(t: Widths, host: Frame) {
    && Shaped(host) && SpaceIsNarrow(t)
    && forall y, x :: 0 <= y < |host.grid| && 0 <= x < |host.grid[y]| ==> NarrowCell(t, host.grid[y][x])
  }

  predicate NarrowChar(t: Widths, ch: char) { ch as nat >= 0x20 && DisplayWidth(t, ch) == Some(1) }

  /** A printable guess; only the last column is ever unknown. */
  predicate Sound(t: Widths, cols: nat, g: Guess) {
    && NarrowChar(t, g.ch)
    && (g.unknown ==> g.x + 1 == cols)
    && (g.attr.Some? ==> CanonicalAttr(g.attr.value))
  }

  predicate AllSound(t: Widths, cols: nat, s: seq<Guess>) {
    forall g :: g in s ==> Sound(t, cols, g)
  }

  lemma {:induction false} HostChar(t: Widths, host: Frame, x: nat, y: nat)
    requires HostOk(t, host)
    ensures NarrowChar(t, CharAt(host, x, y)) && Normal(CharAt(host, x, y)) == CharAt(host, x, y)
  {
    if Inside(host, x, y) {
      assert NarrowCell(t, host.grid[y][x]);
    }
  }

  lemma {:induction false} InsertedSound(t: Widths, p: Predictor, host: Frame, cx: nat, y: nat, ch: char, now: nat, n: nat)
    requires HostOk(t, host) && AllSound(t, host.cols, p.pending) && NarrowChar(t, ch) && n <= host.cols
    ensures AllSound(t, host.cols, InsertedRow(p, host, cx, y, ch, now, n))
  {
    hide HostOk, NarrowChar, CharAt, GuessAt;
    if n > 0 {
      InsertedSound(t, p, host, cx, y, ch, now, n - 1);
      GuessAtIs(p, n - 1, y);
      if n > 1 {
        GuessAtIs(p, n - 2, y);
        HostChar(t, host, n - 2, y);
        BlankSound(t, host);
      }
    }
  }

  lemma {:induction false} BlankSound(t: Widths, host: Frame)
    requires HostOk(t, host)
    ensures NarrowChar(t, ' ')
  {}

  lemma {:induction false} BlankedSound(t: Widths, p: Predictor, host: Frame, y: nat, now: nat, n: nat)
    requires HostOk(t, host)
    ensures AllSound(t, host.cols, BlankedRow(p, host, y, now, n))
  {
    hide HostOk, NarrowChar;
    BlankSound(t, host);
    if n > 0 {
      BlankedSound(t, p, host, y, now, n - 1);
    }
  }

  /** Some old guesses and new ones, sorted. */
  lemma {:induction false} SortedSound(t: Widths, cols: nat, s: seq<Guess>, keep: Guess -> bool, new': seq<Guess>)
    requires AllSound(t, cols, s) && AllSound(t, cols, new')
    ensures AllSound(t, cols, Retain(s, keep) + new') && AllSound(t, cols, Sort(Retain(s, keep) + new'))
  {
    hide Sound;
    RetainMembers(s, keep);
    SortIs(Retain(s, keep) + new');
  }

  lemma {:induction false} NewLineSound(t: Widths, p: Predictor, host: Frame, now: nat)
    requires HostOk(t, host) && AllSound(t, host.cols, p.pending)
    ensures AllSound(t, host.cols, NewLine(p, host, now).pending)
  {
    hide HostOk, AllSound, Sort;
    BlankedSound(t, p, host, p.y, now, host.cols);
    SortedSound(t, host.cols, p.pending, OutsideRow(p.y, host.cols), BlankedRow(p, host, p.y, now, host.cols));
  }

  lemma {:induction false} OneSound(t: Widths, cols: nat, g: Guess)
    requires Sound(t, cols, g)
    ensures AllSound(t, cols, [g])
  {}

  lemma {:induction false} OverwrittenSound(t: Widths, p: Predictor, host: Frame, ch: char, now: nat)
    requires AllSound(t, host.cols, p.pending) && NarrowChar(t, ch)
    ensures AllSound(t, host.cols, Overwritten(p, host, ch, now).pending)
  {
    hide AllSound, Sort;
    var g := Guessed(p, ch, p.x, p.y, GuessAt(p, p.x, p.y), host, false, now);
    OneSound(t, host.cols, g);
    SortedSound(t, host.cols, p.pending, ElsewhereThan(p.x, p.y), [g]);
  }

  lemma {:induction false} SortSound(t: Widths, cols: nat, s: seq<Guess>)
    requires AllSound(t, cols, s)
    ensures AllSound(t, cols, Sort(s))
  {
    SortIs(s);
  }

  lemma {:induction false} TypeSound(t: Widths, p: Predictor, host: Frame, ch: char, now: nat)
    requires HostOk(t, host) && AllSound(t, host.cols, p.pending) && NarrowChar(t, ch)
    ensures AllSound(t, host.cols, TypeChar(p, host, ch, now).pending)
  {
    hide HostOk, AllSound, Sort, NewLine, Overwritten, NarrowChar, InsertedRow;
    if p.x + 1 >= host.cols {
      var q := BecomeTentative(Overwritten(BecomeTentative(p), host, ch, now));
      OverwrittenSound(t, BecomeTentative(p), host, ch, now);
      NewLineSound(t, q, host, now);
      SortSound(t, host.cols, NewLine(q, host, now).pending);
    } else if p.overwrite {
      OverwrittenSound(t, p, host, ch, now);
      SortSound(t, host.cols, Overwritten(p, host, ch, now).pending);
    } else {
      InsertedSound(t, p, host, p.x, p.y, ch, now, host.cols);
      SortedSound(t, host.cols, p.pending, OutsideRow(p.y, host.cols), InsertedRow(p, host, p.x, p.y, ch, now, host.cols));
    }
  }

  lemma {:induction false} PressSound(t: Widths, p: Predictor, host: Frame, k: KeyPress, now: nat)
    requires HostOk(t, host) && AllSound(t, host.cols, p.pending)
    ensures AllSound(t, host.cols, Press(t, p, host, k, now).pending)
  {
    hide HostOk, AllSound, TypeChar, NewLine, RecordCursor;
    if k.Typed? {
      NewLineSound(t, BecomeTentative(p), host, now);
      if NarrowChar(t, k.ch) {
        TypeSound(t, p, host, k.ch, now);
      }
    } else {
      RecordSame(p.(x := SatSub(p.x, 1), active := true));
      RecordPending(p.(x := SatSub(p.x, 1), active := true));
      RecordPending(p.(x := p.x + 1, active := true));
    }
  }

  lemma {:induction false} RecordPending(p: Predictor)
    ensures RecordCursor(p).pending == p.pending
  {}

  lemma {:induction false} PressAllSound(t: Widths, p: Predictor, host: Frame, data: seq<byte>, now: nat)
    requires HostOk(t, host) && AllSound(t, host.cols, p.pending)
    ensures AllSound(t, host.cols, PressAll(t, p, host, data, now).pending)
    decreases |data|
  {
    hide HostOk, AllSound, Press, NextKey;
    if data != [] && !NextKey(data).MoreKeys? {
      var k := NextKey(data);
      PressSound(t, Opened(p), host, k, now);
      PressAllSound(t, Press(t, Opened(p), host, k, now), host, data[k.len..], now);
    }
  }

  lemma {:induction false} NothingSound(t: Widths, cols: nat)
    ensures AllSound(t, cols, [])
  {}

  lemma {:induction false} KeystrokeSound(t: Widths, p: Predictor, input: seq<byte>, host: Frame, now: nat)
    requires HostOk(t, host) && AllSound(t, host.cols, p.pending)
    ensures AllSound(t, host.cols, Keystroke(t, p, input, host, now).pending)
  {
    hide HostOk, AllSound, PressAll, Erases;
    NothingSound(t, host.cols);
    PressAllSound(t, p.(esc := []), host, p.esc + input, now);
  }

  lemma {:induction false} DressedSound(t: Widths, cols: nat, a: seq<Guess>, s: seq<Guess>, y: nat, attr: Attr)
    requires AllSound(t, cols, a + s) && CanonicalAttr(attr)
    ensures AllSound(t, cols, a + Dressed(s, |s|, y, attr))
  {
    DressedLength(s, |s|, y, attr);
    var b, r := a + s, a + Dressed(s, |s|, y, attr);
    forall g | g in r
      ensures Sound(t, cols, g)
    {
      var i :| 0 <= i < |r| && r[i] == g;
      assert b[i] in b;
    }
  }

  lemma {:induction false} HostAttr(t: Widths, host: Frame, x: nat, y: nat)
    requires HostOk(t, host)
    ensures var c := CellAt(host, x, y); CanonicalAttr(if c.Some? then c.value.attr else PLAIN)
  {
    if Inside(host, x, y) {
      assert NarrowCell(t, host.grid[y][x]);
    }
  }

  lemma {:induction false} WalkSound(t: Widths, p: Predictor, host: Frame, w: Walked, now: nat)
    requires HostOk(t, host) && AllSound(t, host.cols, w.kept + w.rest)
    ensures var r := Walk(p, host, w, now); AllSound(t, host.cols, r.kept + r.rest)
    decreases |w.rest|
  {
    hide HostOk, Judge, Sound, CanonicalAttr;
    if w.rest != [] {
      var g, more := w.rest[0], w.rest[1..];
      Guesses.SplitRest(w.kept, w.rest);
      assert AllSound(t, host.cols, w.kept + more);
      match Judge(p.(confirmed := w.confirmed), g, host)
      case Waiting => WalkSound(t, p, host, w.(kept := w.kept + [g], rest := more), now);
      case Removed => WalkSound(t, p, host, w.(rest := more, removed := w.removed + 1), now);
      case Credited =>
        var c := CellAt(host, g.x, g.y);
        var attr := if c.Some? then c.value.attr else PLAIN;
        HostAttr(t, host, g.x, g.y);
        DressedLength(more, |more|, g.y, attr);
        DressedSound(t, host.cols, w.kept, more, g.y, attr);
        WalkSound(t, p, host, w.(rest := Dressed(more, |more|, g.y, attr), confirmed := Larger(w.confirmed, g.epoch),
                                 quick := w.quick || SatSub(now, g.at) < GLITCH_AGE, removed := w.removed + 1), now);
      case _ =>
    }
  }

  lemma {:induction false} CullSound(t: Widths, p: Predictor, host: Frame, cols: nat)
    requires AllSound(t, cols, p.pending)
    ensures AllSound(t, cols, Cull(p, host).pending)
  {
    hide Cull, AllSound, Retain;
    CullCases(p, host);
    NothingSound(t, cols);
  }

  lemma {:induction false} KillSound(t: Widths, p: Predictor, epoch: nat, host: Frame, cols: nat)
    requires AllSound(t, cols, p.pending)
    ensures AllSound(t, cols, KillEpoch(p, epoch, host).pending)
  {
    hide Sound;
    RetainMembers(p.pending, GuessBefore(epoch));
  }

  lemma {:induction false} ConfirmSound(t: Widths, p: Predictor, host: Frame, now: nat)
    requires HostOk(t, host) && AllSound(t, host.cols, p.pending)
    ensures AllSound(t, host.cols, Confirm(p, host, now).pending)
  {
    hide HostOk, AllSound, Walk, Cull, KillEpoch;
    CullSound(t, p, host, host.cols);
    if p.pending != [] && p.active {
      var w0 := Walked([], p.pending, p.confirmed, false, 0, Finished);
      assert [] + p.pending == p.pending;
      WalkSound(t, p, host, w0, now);
      var w := Walk(p, host, w0, now);
      var q := p.(pending := w.kept + w.rest, confirmed := w.confirmed);
      NothingSound(t, host.cols);
      CullSound(t, if w.removed > 0 then Repair(q.(count := q.count + w.removed), w.quick, now) else q, host, host.cols);
      if w.ending.KilledBy? {
        KillSound(t, q, w.ending.epoch, host, host.cols);
      }
    }
  }

  /** Every guess stays printable, and unknown only in the last column, at a fixed size. */
  lemma {:induction false} StepSound(t: Widths, p: Predictor, op: Op, host: Frame, now: nat)
    requires HostOk(t, host) && AllSound(t, host.cols, p.pending)
    ensures AllSound(t, host.cols, Step(t, p, op, host, now).pending)
  {
    hide HostOk, AllSound, Keystroke, Confirm, OldestAt;
    NothingSound(t, host.cols);
    match op
    case Keys(input) => KeystrokeSound(t, p, input, host, now);
    case HostConfirms => ConfirmSound(t, p, host, now);
    case _ =>
  }
}
