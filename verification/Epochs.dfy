/** Which guesses may be shown: an epoch is confirmed only by the host, and what is guessed
    after a failure stays hidden until that happens again. */
module Epochs {
  import opened Basics
  import opened Sgr
  import opened Cells
  import opened Screen
  import opened Prediction
  import opened Guesses

  // --------------------------------------------------------------------------- credits

  /** The host shows what was guessed, where that says something: a known glyph, not blank,
      never held by the cell before, and echoed by the server. */
  predicate Earned(p: Predictor, g: Guess, host: Frame) {
    var cell := CellAt(host, g.x, g.y);
    && Due(p, g.expires)
    && cell.Some? && cell.value.ch == g.ch && !DefaultBlank(cell.value)
    && !g.unknown && !IsBlank(g.ch) && g.ch !in g.originals
  }

  lemma {:induction false} JudgeCredits(p: Predictor, g: Guess, host: Frame)
    ensures Judge(p, g, host).Credited? <==> Earned(p, g, host)
  {}

  predicate SameGuess(g: Guess, h: Guess) { g == h.(attr := g.attr) }

  predicate EarnedBy(p: Predictor, s: seq<Guess>, host: Frame, epoch: nat) {
    exists g :: g in s && g.epoch == epoch && Earned(p, g, host)
  }

  lemma {:induction false} DressedEarned(p: Predictor, s: seq<Guess>, y: nat, attr: Attr, host: Frame, epoch: nat)
    requires EarnedBy(p, Dressed(s, |s|, y, attr), host, epoch)
    ensures EarnedBy(p, s, host, epoch)
  {
    hide Earned;
    DressedLength(s, |s|, y, attr);
    var r := Dressed(s, |s|, y, attr);
    var g :| g in r && g.epoch == epoch && Earned(p, g, host);
    var i :| 0 <= i < |r| && r[i] == g;
    EarnedSame(p, g, s[i], host);
    assert s[i] in s;
  }

  lemma {:induction false} EarnedSame(p: Predictor, g: Guess, h: Guess, host: Frame)
    requires SameGuess(g, h)
    ensures Earned(p, g, host) == Earned(p, h, host)
  {}

  lemma {:induction false} EarnedConfirmed(p: Predictor, g: Guess, host: Frame, confirmed: nat)
    ensures Earned(p.(confirmed := confirmed), g, host) == Earned(p, g, host)
  {}

  lemma {:induction false} EarnedRest(p: Predictor, s: seq<Guess>, host: Frame, epoch: nat)
    requires s != []
    ensures EarnedBy(p, s[1..], host, epoch) ==> EarnedBy(p, s, host, epoch)
  {
    hide Earned;
    if EarnedBy(p, s[1..], host, epoch) {
      var g :| g in s[1..] && g.epoch == epoch && Earned(p, g, host);
      assert g in s;
    }
  }

  lemma {:induction false} WalkCredits(p: Predictor, host: Frame, w: Walked, now: nat)
    ensures var r := Walk(p, host, w, now);
      r.confirmed >= w.confirmed && (r.confirmed > w.confirmed ==> EarnedBy(p, w.rest, host, r.confirmed))
    decreases |w.rest|
  {
    hide Judge, Earned, EarnedBy;
    if w.rest != [] {
      var g, more := w.rest[0], w.rest[1..];
      var r := Walk(p, host, w, now);
      EarnedRest(p, w.rest, host, r.confirmed);
      match Judge(p.(confirmed := w.confirmed), g, host)
      case Waiting => WalkCredits(p, host, w.(kept := w.kept + [g], rest := more), now);
      case Removed => WalkCredits(p, host, w.(rest := more, removed := w.removed + 1), now);
      case Credited =>
        JudgeCredits(p.(confirmed := w.confirmed), g, host);
        EarnedConfirmed(p, g, host, w.confirmed);
        CreditedWalk(p, host, w, now);
      case _ =>
    }
  }

  lemma {:induction false} CreditedWalk(p: Predictor, host: Frame, w: Walked, now: nat)
    requires w.rest != [] && Judge(p.(confirmed := w.confirmed), w.rest[0], host).Credited?
    requires Earned(p, w.rest[0], host)
    ensures var r := Walk(p, host, w, now);
      r.confirmed >= w.confirmed && (r.confirmed > w.confirmed ==> EarnedBy(p, w.rest, host, r.confirmed))
    decreases |w.rest|, 0
  {
    hide Judge, Earned;
    var g, more := w.rest[0], w.rest[1..];
    var c := CellAt(host, g.x, g.y);
    var attr := if c.Some? then c.value.attr else PLAIN;
    var w1 := w.(rest := Dressed(more, |more|, g.y, attr), confirmed := Larger(w.confirmed, g.epoch),
                 quick := w.quick || SatSub(now, g.at) < GLITCH_AGE, removed := w.removed + 1);
    var r := Walk(p, host, w, now);
    DressedLength(more, |more|, g.y, attr);
    WalkCredits(p, host, w1, now);
    if r.confirmed > w1.confirmed {
      DressedEarned(p, more, g.y, attr, host, r.confirmed);
      EarnedRest(p, w.rest, host, r.confirmed);
    }
  }

  lemma {:induction false} CullFixed(p: Predictor, host: Frame)
    ensures Cull(p, host).confirmed == p.confirmed && Cull(p, host).preference == p.preference
  {
    hide Cull, Retain;
    CullCases(p, host);
  }

  lemma {:induction false} KillFixed(p: Predictor, epoch: nat, host: Frame)
    ensures KillEpoch(p, epoch, host).confirmed == p.confirmed && KillEpoch(p, epoch, host).preference == p.preference
  {
    hide Retain;
  }

  lemma {:induction false} SettleConfirmed(p: Predictor, host: Frame, w: Walked, now: nat)
    ensures Settle(p, host, w, now).confirmed == w.confirmed
    ensures Settle(p, host, w, now).preference == p.preference
  {
    hide Cull, KillEpoch;
    var q := p.(pending := w.kept + w.rest, confirmed := w.confirmed);
    CullFixed(q, host);
    CullFixed(Repair(q.(count := q.count + w.removed), w.quick, now), host);
    if w.ending.KilledBy? {
      KillFixed(q, w.ending.epoch, host);
    }
  }

  /** The confirmed epoch never falls, and rises only to the epoch of a guess that the host
      has borne out; no other call touches it. */
  lemma {:induction false} OnlyCredits(t: Widths, p: Predictor, op: Op, host: Frame, now: nat)
    ensures var q := Step(t, p, op, host, now);
      && p.confirmed <= q.confirmed
      && (p.confirmed < q.confirmed ==> op.HostConfirms? && EarnedBy(p, p.pending, host, q.confirmed))
  {
    hide Keystroke, Walk, Settle, EarnedBy, OldestAt, Cull;
    CullFixed(p, host);
    match op
    case Keys(input) => KeystrokeConfirmed(t, p, input, host, now);
    case HostConfirms =>
      var w0 := Walked([], p.pending, p.confirmed, false, 0, Finished);
      WalkCredits(p, host, w0, now);
      SettleConfirmed(p, host, Walk(p, host, w0, now), now);
    case _ =>
  }

  lemma {:induction false} PressAllConfirmed(t: Widths, p: Predictor, host: Frame, data: seq<byte>, now: nat)
    ensures PressAll(t, p, host, data, now).confirmed == p.confirmed
    decreases |data|
  {
    hide Press, NextKey;
    if data != [] {
      var k := NextKey(data);
      if !k.MoreKeys? {
        PressSame(t, Opened(p), host, k, now);
        PressAllConfirmed(t, Press(t, Opened(p), host, k, now), host, data[k.len..], now);
      }
    }
  }

  lemma {:induction false} KeystrokeConfirmed(t: Widths, p: Predictor, input: seq<byte>, host: Frame, now: nat)
    ensures Keystroke(t, p, input, host, now).confirmed == p.confirmed
  {
    hide PressAll, Erases;
    PressAllConfirmed(t, p.(esc := []), host, p.esc + input, now);
  }

  // ------------------------------------------------------------------ what is made later

  /** Everything in `q` is there in `p` already or belongs to an epoch from `e` on. */
  predicate Later(p: Predictor, q: Predictor, e: nat) {
    && e <= q.epoch
    && (forall g :: g in q.pending ==> g.epoch >= e || exists h :: h in p.pending && SameGuess(g, h))
    && (forall c :: c in q.cursors ==> c.epoch >= e || c in p.cursors)
  }

  lemma {:induction false} LaterSame(p: Predictor, q: Predictor, e: nat)
    requires e <= q.epoch
    requires forall g :: g in q.pending ==> g in p.pending || g.epoch >= e
    requires forall c :: c in q.cursors ==> c in p.cursors || c.epoch >= e
    ensures Later(p, q, e)
  {
    forall g | g in q.pending && g.epoch < e
      ensures exists h :: h in p.pending && SameGuess(g, h)
    {
      assert SameGuess(g, g);
    }
  }

  lemma {:induction false} LaterThen(p: Predictor, q: Predictor, r: Predictor, e: nat)
    requires Later(p, q, e) && Later(q, r, e)
    ensures Later(p, r, e)
  {
    forall g | g in r.pending && g.epoch < e
      ensures exists h :: h in p.pending && SameGuess(g, h)
    {
      var h :| h in q.pending && SameGuess(g, h);
      var h' :| h' in p.pending && SameGuess(h, h');
      assert SameGuess(g, h');
    }
  }

  lemma {:induction false} RecordLater(p: Predictor, e: nat)
    requires e <= p.epoch
    ensures forall c :: c in RecordCursor(p).cursors ==> c in p.cursors || c.epoch >= e
    ensures RecordCursor(p) == p.(cursors := RecordCursor(p).cursors)
  {}

  lemma {:induction false} NewLineLater(p: Predictor, host: Frame, now: nat, e: nat)
    requires e <= p.epoch
    ensures Later(p, NewLine(p, host, now), e)
  {
    hide RecordCursor, Later;
    if p.y + 1 >= host.rows {
      var others := Retain(p.pending, OutsideRow(p.y, host.cols));
      var row := BlankedRow(p, host, p.y, now, host.cols);
      RetainMembers(p.pending, OutsideRow(p.y, host.cols));
      BlankedRowShape(p, host, p.y, now, host.cols);
      SortIs(others + row);
      RecordLater(p.(x := 0, active := true), e);
    } else {
      RecordLater(p.(x := 0, y := p.y + 1, active := true), e);
    }
    LaterSame(p, NewLine(p, host, now), e);
  }

  lemma {:induction false} InsertLater(p: Predictor, host: Frame, ch: char, now: nat, e: nat)
    requires e <= p.epoch
    ensures Later(p, InsertAt(p, host, ch, now), e)
  {
    hide RecordCursor, Later;
    var others := Retain(p.pending, OutsideRow(p.y, host.cols));
    var row := InsertedRow(p, host, p.x, p.y, ch, now, host.cols);
    RetainMembers(p.pending, OutsideRow(p.y, host.cols));
    InsertedRowShape(p, host, p.x, p.y, ch, now, host.cols);
    SortIs(others + row);
    RecordLater(p.(x := p.x + 1, active := true), e);
    LaterSame(p, InsertAt(p, host, ch, now), e);
  }

  lemma {:induction false} OverwrittenLater(p: Predictor, host: Frame, ch: char, now: nat, e: nat)
    requires e <= p.epoch
    ensures Later(p, Overwritten(p, host, ch, now), e)
  {
    hide Later;
    RetainMembers(p.pending, ElsewhereThan(p.x, p.y));
    LaterSame(p, Overwritten(p, host, ch, now), e);
  }

  lemma {:induction false} SortedLater(p: Predictor, e: nat)
    requires e <= p.epoch
    ensures Later(p, Sorted(p), e)
  {
    hide Later, Sort;
    SortIs(p.pending);
    LaterSame(p, Sorted(p), e);
  }

  lemma {:induction false} TentativeLater(p: Predictor, e: nat)
    requires e <= p.epoch
    ensures Later(p, BecomeTentative(p), e) && e <= BecomeTentative(p).epoch
  {
    hide Later;
    LaterSame(p, BecomeTentative(p), e);
  }

  lemma {:induction false} TypeLater(p: Predictor, host: Frame, ch: char, now: nat, e: nat)
    requires e <= p.epoch
    ensures Later(p, TypeChar(p, host, ch, now), e)
  {
    hide Later, NewLine, Overwritten, Sort, RecordCursor, InsertAt;
    if p.x + 1 >= host.cols {
      var a := BecomeTentative(p);
      var b := Overwritten(a, host, ch, now);
      var c := BecomeTentative(b);
      var d := NewLine(c, host, now);
      TentativeLater(p, e);
      OverwrittenSame(a, host, ch, now);
      OverwrittenLater(a, host, ch, now, e);
      TentativeLater(b, e);
      NewLineSame(c, host, now);
      NewLineLater(c, host, now, e);
      SortedLater(d, e);
      LaterThen(p, a, b, e);
      LaterThen(p, b, c, e);
      LaterThen(p, c, d, e);
      LaterThen(p, d, Sorted(d), e);
    } else if p.overwrite {
      var a := Overwritten(p, host, ch, now);
      var b := RecordCursor(a.(x := a.x + 1, active := true));
      OverwrittenSame(p, host, ch, now);
      OverwrittenLater(p, host, ch, now, e);
      RecordLater(a.(x := a.x + 1, active := true), e);
      LaterSame(a, b, e);
      SortedLater(b, e);
      LaterThen(p, a, b, e);
      LaterThen(p, b, Sorted(b), e);
    } else {
      InsertLater(p, host, ch, now, e);
    }
  }

  lemma {:induction false} PressLater(t: Widths, p: Predictor, host: Frame, k: KeyPress, now: nat, e: nat)
    requires e <= p.epoch
    ensures Later(p, Press(t, p, host, k, now), e)
  {
    hide Later, TypeChar, NewLine, DisplayWidth, RecordCursor;
    var q := BecomeTentative(p);
    TentativeLater(p, e);
    LaterSame(p, p, e);
    match k
    case MoreKeys =>
    case Other(_) =>
    case Left(_) =>
      RecordLater(p.(x := SatSub(p.x, 1), active := true), e);
      LaterSame(p, MoveLeft(p), e);
    case Right(_) =>
      RecordLater(p.(x := p.x + 1, active := true), e);
      LaterSame(p, MoveRight(p, host), e);
    case Typed(ch, _) =>
      TypeLater(p, host, ch, now, e);
      NewLineLater(q, host, now, e);
      LaterThen(p, q, NewLine(q, host, now), e);
  }

  lemma {:induction false} PressAllLater(t: Widths, p: Predictor, host: Frame, data: seq<byte>, now: nat, e: nat)
    requires e <= p.epoch && !p.preference.Experimental?
    ensures Later(p, PressAll(t, p, host, data, now), e)
    decreases |data|
  {
    hide Later, Press, NextKey;
    if data == [] || NextKey(data).MoreKeys? {
      LaterSame(p, PressAll(t, p, host, data, now), e);
    } else {
      var k := NextKey(data);
      var q := Press(t, p, host, k, now);
      PressSame(t, p, host, k, now);
      PressLater(t, p, host, k, now, e);
      PressAllLater(t, q, host, data[k.len..], now, e);
      LaterThen(p, q, PressAll(t, p, host, data, now), e);
    }
  }

  lemma {:induction false} ResetLater(p: Predictor, e: nat)
    requires e <= p.epoch
    ensures Later(p, Reset(p), e)
  {}

  lemma {:induction false} KeystrokeLater(t: Widths, p: Predictor, input: seq<byte>, host: Frame, now: nat, e: nat)
    requires e <= p.epoch && !p.preference.Experimental?
    ensures Later(p, Keystroke(t, p, input, host, now), e)
  {
    hide Later, PressAll, Erases;
    var q := p.(esc := []);
    LaterSame(p, p.(erase := Some(Expiry(p))), e);
    LaterSame(p, p, e);
    LaterSame(p, q, e);
    ResetLater(p, e);
    LaterSame(p, Reset(q).(erase := Some(Expiry(q))), e);
    LaterSame(p, Reset(q), e);
    PressAllLater(t, q, host, p.esc + input, now, e);
    LaterThen(p, q, PressAll(t, q, host, p.esc + input, now), e);
  }

  /** The walk only drops guesses and dresses them. */
  predicate FromPending(p: Predictor, s: seq<Guess>) {
    forall g :: g in s ==> exists h :: h in p.pending && SameGuess(g, h)
  }

  lemma {:induction false} FromDressed(p: Predictor, a: seq<Guess>, s: seq<Guess>, y: nat, attr: Attr)
    requires FromPending(p, a + s)
    ensures FromPending(p, a + Dressed(s, |s|, y, attr))
  {
    DressedLength(s, |s|, y, attr);
    var b, r := a + s, a + Dressed(s, |s|, y, attr);
    forall g | g in r
      ensures exists h :: h in p.pending && SameGuess(g, h)
    {
      var i :| 0 <= i < |r| && r[i] == g;
      assert b[i] in b;
      var h :| h in p.pending && SameGuess(b[i], h);
      assert SameGuess(g, h);
    }
  }

  lemma {:induction false} WalkFrom(p: Predictor, host: Frame, w: Walked, now: nat)
    requires FromPending(p, w.kept + w.rest)
    ensures var r := Walk(p, host, w, now); FromPending(p, r.kept + r.rest)
    decreases |w.rest|
  {
    hide Judge, SameGuess;
    if w.rest != [] {
      var g, more := w.rest[0], w.rest[1..];
      Guesses.SplitRest(w.kept, w.rest);
      assert FromPending(p, w.kept + more);
      match Judge(p.(confirmed := w.confirmed), g, host)
      case Waiting => WalkFrom(p, host, w.(kept := w.kept + [g], rest := more), now);
      case Removed => WalkFrom(p, host, w.(rest := more, removed := w.removed + 1), now);
      case Credited =>
        var c := CellAt(host, g.x, g.y);
        var attr := if c.Some? then c.value.attr else PLAIN;
        DressedLength(more, |more|, g.y, attr);
        FromDressed(p, w.kept, more, g.y, attr);
        WalkFrom(p, host, w.(rest := Dressed(more, |more|, g.y, attr), confirmed := Larger(w.confirmed, g.epoch),
                             quick := w.quick || SatSub(now, g.at) < GLITCH_AGE, removed := w.removed + 1), now);
      case _ =>
    }
  }

  lemma {:induction false} CullLater(p: Predictor, host: Frame, e: nat)
    requires e <= p.epoch
    ensures Later(p, Cull(p, host), e)
  {
    hide Later, Cull, Reset, Culled;
    CullCases(p, host);
    CulledMembers(p);
    ResetLater(p, e);
    ResetFields(p);
    LaterSame(p, Cull(p, host), e);
  }

  lemma {:induction false} CulledMembers(p: Predictor)
    ensures Culled(p) == p.(cursors := Culled(p).cursors)
    ensures forall c :: c in Culled(p).cursors ==> c in p.cursors
  {
    RetainMembers(p.cursors, CursorWaiting(p.sent, p.late));
  }

  lemma {:induction false} ResetFields(p: Predictor)
    ensures Reset(p).pending == [] && Reset(p).cursors == [] && Reset(p).epoch >= p.epoch
  {}

  lemma {:induction false} KillLater(p: Predictor, epoch: nat, host: Frame, e: nat)
    requires e <= p.epoch
    ensures Later(p, KillEpoch(p, epoch, host), e)
  {
    hide Later;
    RetainMembers(p.pending, GuessBefore(epoch));
    RetainMembers(p.cursors, CursorBefore(epoch));
    LaterSame(p, KillEpoch(p, epoch, host), e);
  }

  lemma {:induction false} ConfirmLater(p: Predictor, host: Frame, now: nat, e: nat)
    requires e <= p.epoch
    ensures Later(p, Confirm(p, host, now), e)
  {
    hide Later, Walk, Cull, KillEpoch, SameGuess, Reset;
    CullLater(p, host, e);
    if p.pending != [] && p.active {
      var w0 := Walked([], p.pending, p.confirmed, false, 0, Finished);
      SelfFrom(p);
      WalkFrom(p, host, w0, now);
      var w := Walk(p, host, w0, now);
      var q := p.(pending := w.kept + w.rest, confirmed := w.confirmed);
      WalkedLater(p, q, e);
      var r := if w.removed > 0 then Repair(q.(count := q.count + w.removed), w.quick, now) else q;
      LaterSame(q, r, e);
      CullLater(r, host, e);
      LaterThen(q, r, Cull(r, host), e);
      ResetFields(q);
      LaterSame(q, AtHost(Reset(q), host), e);
      if w.ending.KilledBy? {
        KillLater(q, w.ending.epoch, host, e);
      }
      LaterThen(p, q, Settle(p, host, w, now), e);
    } else {
      LaterSame(p, AtHost(p, host), e);
    }
  }

  lemma {:induction false} SelfFrom(p: Predictor)
    ensures FromPending(p, [] + p.pending)
  {
    forall g | g in [] + p.pending
      ensures exists h :: h in p.pending && SameGuess(g, h)
    {
      assert SameGuess(g, g);
    }
  }

  lemma {:induction false} WalkedLater(p: Predictor, q: Predictor, e: nat)
    requires e <= q.epoch && FromPending(p, q.pending) && q.cursors == p.cursors
    ensures Later(p, q, e)
  {}

  lemma {:induction false} StepLater(t: Widths, p: Predictor, op: Op, host: Frame, now: nat, e: nat)
    requires e <= p.epoch && !p.preference.Experimental?
    ensures var q := Step(t, p, op, host, now); Later(p, q, e) && q.preference == p.preference
  {
    hide Later, Keystroke, Confirm, OldestAt, Reset;
    ResetFields(p);
    match op
    case Keys(input) =>
      KeystrokeLater(t, p, input, host, now, e);
      KeystrokePreference(t, p, input, host, now);
    case HostConfirms =>
      ConfirmLater(p, host, now, e);
      ConfirmPreference(p, host, now);
    case Geometry =>
      ResetLater(p, e);
      ResetPreference(p);
    case _ => LaterSame(p, Step(t, p, op, host, now), e);
  }

  lemma {:induction false} ResetPreference(p: Predictor)
    ensures Reset(p).preference == p.preference
  {}

  lemma {:induction false} PressAllPreference(t: Widths, p: Predictor, host: Frame, data: seq<byte>, now: nat)
    ensures PressAll(t, p, host, data, now).preference == p.preference
    decreases |data|
  {
    hide Press, NextKey;
    if data != [] {
      var k := NextKey(data);
      if !k.MoreKeys? {
        PressSame(t, Opened(p), host, k, now);
        PressAllPreference(t, Press(t, Opened(p), host, k, now), host, data[k.len..], now);
      }
    }
  }

  lemma {:induction false} KeystrokePreference(t: Widths, p: Predictor, input: seq<byte>, host: Frame, now: nat)
    ensures Keystroke(t, p, input, host, now).preference == p.preference
  {
    hide PressAll, Erases;
    PressAllPreference(t, p.(esc := []), host, p.esc + input, now);
  }

  lemma {:induction false} ConfirmPreference(p: Predictor, host: Frame, now: nat)
    ensures Confirm(p, host, now).preference == p.preference
  {
    hide Walk, Cull, Settle;
    CullFixed(p, host);
    SettleConfirmed(p, host, Walk(p, host, Walked([], p.pending, p.confirmed, false, 0, Finished), now), now);
  }

  /** Whatever happens after a state whose open epoch is `e`: a guess or cursor it did not
      have then belongs to epoch `e` or a later one. */
  lemma {:induction false} CallsLater(t: Widths, p: Predictor, calls: seq<Call>, e: nat)
    requires e <= p.epoch && !p.preference.Experimental?
    ensures Later(p, Calls(t, p, calls), e) && !Calls(t, p, calls).preference.Experimental?
    decreases |calls|
  {
    hide Later, Step;
    if calls == [] {
      LaterSame(p, p, e);
    } else {
      var q := Calls(t, p, calls[..|calls| - 1]);
      var c := calls[|calls| - 1];
      CallsLater(t, p, calls[..|calls| - 1], e);
      LaterEpoch(p, q, e);
      StepLater(t, q, c.op, c.host, c.now, e);
      LaterThen(p, q, Calls(t, p, calls), e);
    }
  }

  lemma {:induction false} LaterEpoch(p: Predictor, q: Predictor, e: nat)
    requires Later(p, q, e)
    ensures e <= q.epoch
  {}

  // ---------------------------------------------------------------------- what is shown

  lemma {:induction false} HiddenGuesses(p: Predictor, f: Frame, n: nat)
    requires n <= |p.pending| && forall g :: g in p.pending ==> g.epoch > p.confirmed
    ensures OverlayUpTo(p, f, n) == f
  {
    if n > 0 {
      HiddenGuesses(p, f, n - 1);
      assert p.pending[n - 1] in p.pending;
    }
  }

  lemma {:induction false} HiddenCursors(p: Predictor, f: Frame, n: nat)
    requires n <= |p.cursors| && forall c :: c in p.cursors ==> c.epoch > p.confirmed
    ensures OverlayCursors(p, f, n) == f
  {
    if n > 0 {
      HiddenCursors(p, f, n - 1);
      assert p.cursors[n - 1] in p.cursors;
    }
  }

  /** After a reset nothing is shown, whatever is typed, until the host confirms an epoch
      that was opened after it. */
  lemma {:induction false} ResetHides(t: Widths, p: Predictor, calls: seq<Call>, f: Frame)
    requires Shape(p) && !p.preference.Experimental?
    ensures var e := Reset(p).epoch;
            var q := Calls(t, Reset(p), calls);
      p.confirmed < e && (q.confirmed < e ==> Overlay(q, f) == f)
  {
    hide Step, Calls;
    var e := Reset(p).epoch;
    var q := Calls(t, Reset(p), calls);
    CallsLater(t, Reset(p), calls, e);
    if q.confirmed < e {
      HiddenGuesses(q, f, |q.pending|);
      HiddenCursors(q, f, |q.cursors|);
    }
  }

  /** Nor is anything before the host has confirmed the first epoch. */
  lemma {:induction false} NothingAtFirst(t: Widths, preference: Preference, overwrite: bool, calls: seq<Call>, f: Frame)
    requires !preference.Experimental?
    ensures var p := New(preference, overwrite);
            var q := Calls(t, p, calls);
      p.confirmed == 0 && (q.confirmed == 0 ==> Overlay(q, f) == f)
  {
    hide Step, Calls;
    var p := New(preference, overwrite);
    var q := Calls(t, p, calls);
    NewShape(preference, overwrite);
    CallsLater(t, p, calls, 1);
    if q.confirmed == 0 {
      HiddenGuesses(q, f, |q.pending|);
      HiddenCursors(q, f, |q.cursors|);
    }
  }

  /** After a failed epoch is killed, the guesses that survive are older than it, and any
      other guess or cursor stays hidden until the host confirms an epoch opened afterwards.
      The cursors that survive are older too, but for the host's own position. */
  lemma {:induction false} KillHides(t: Widths, p: Predictor, epoch: nat, host: Frame, calls: seq<Call>)
    requires Shape(p) && !p.preference.Experimental?
    ensures var k := KillEpoch(p, epoch, host);
            var q := Calls(t, k, calls);
      && p.confirmed < k.epoch
      && (forall g :: g in k.pending ==> g.epoch < epoch)
      && (q.confirmed < k.epoch ==>
            && (forall g :: g in q.pending && g.epoch <= q.confirmed ==> exists h :: h in k.pending && SameGuess(g, h))
            && (forall c :: c in q.cursors && c.epoch <= q.confirmed ==> c in k.cursors))
      && (forall c :: c in k.cursors ==>
            (c in p.cursors && c.epoch < epoch) || (c.x == host.cursor.x && c.y == host.cursor.y && c.epoch == p.epoch))
  {
    hide Step, Calls, SameGuess;
    RetainMembers(p.pending, GuessBefore(epoch));
    RetainMembers(p.cursors, CursorBefore(epoch));
    CallsLater(t, KillEpoch(p, epoch, host), calls, KillEpoch(p, epoch, host).epoch);
  }
}
