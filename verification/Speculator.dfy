/** The predictor and the display pipeline as objects; every method refines the function of
    the same operation. */
module Speculation {
  import opened Basics
  import opened Lexer
  import opened Sgr
  import opened Cells
  import opened Screen
  import opened Prediction
  import opened Guesses
  import opened Insertion
  import opened Framebuffers

  class Speculator {
    var pending: seq<Guess>
    var cursors: seq<CursorGuess>
    var curX: nat
    var curY: nat
    var predictionEpoch: nat
    var confirmedEpoch: nat
    var active: bool
    var confirmed: nat
    const preference: Preference
    const overwrite: bool
    var show: bool
    var flagging: bool
    var glitchTrigger: nat
    var escBuf: seq<byte>
    var frameSent: nat
    var frameAcked: nat
    var frameLateAcked: nat
    var lastQuick: Option<nat>
    var eraseWait: Option<nat>

    function Value(): Predictor
      reads this
    {
      Predictor(pending, cursors, curX, curY, predictionEpoch, confirmedEpoch, active, confirmed, preference, overwrite,
                show, flagging, glitchTrigger, escBuf, frameSent, frameAcked, frameLateAcked, lastQuick, eraseWait)
    }

    constructor (preference: Preference, overwrite: bool)
      ensures Value() == New(preference, overwrite)
    {
      pending, cursors, curX, curY, predictionEpoch, confirmedEpoch := [], [], 0, 0, 1, 0;
      active, confirmed, this.preference, this.overwrite := false, 0, preference, overwrite;
      show, flagging, glitchTrigger, escBuf := preference.Always? || preference.Experimental?, false, 0, [];
      frameSent, frameAcked, frameLateAcked, lastQuick, eraseWait := 0, 0, 0, None, None;
    }

    // -------------------------------------------------------------- epochs and cursors

    method Tentative()
      modifies this`predictionEpoch
      ensures Value() == BecomeTentative(old(Value()))
    {
      if !preference.Experimental? {
        predictionEpoch := predictionEpoch + 1;
      }
    }

    method ClearGuesses()
      modifies this`pending, this`cursors, this`active, this`confirmed, this`escBuf
      ensures Value() == old(Value()).(pending := [], active := false, count := 0, esc := [], cursors := [])
    {
      pending, active, confirmed, escBuf, cursors := [], false, 0, [], [];
    }

    method ResetAll()
      modifies this`pending, this`cursors, this`predictionEpoch, this`active, this`confirmed, this`escBuf
      ensures Value() == Reset(old(Value()))
    {
      hide BecomeTentative;
      Tentative();
      ClearGuesses();
    }

    method SnapToHost(host: Frame)
      modifies this`curX, this`curY
      ensures Value() == AtHost(old(Value()), host)
    {
      curX, curY := host.cursor.x, host.cursor.y;
    }

    method ResetToHost(host: Frame)
      modifies this`pending, this`cursors, this`predictionEpoch, this`active, this`confirmed, this`escBuf, this`curX, this`curY
      ensures Value() == AtHost(Reset(old(Value())), host)
    {
      hide Reset, AtHost;
      ResetAll();
      SnapToHost(host);
    }

    method Record()
      modifies this`cursors
      ensures Value() == RecordCursor(old(Value()))
    {
      var cursor := CursorGuess(curX, curY, predictionEpoch, SatInc(frameSent));
      if |cursors| > 0 && cursors[|cursors| - 1].epoch == predictionEpoch {
        cursors := cursors[|cursors| - 1 := cursor];
      } else {
        cursors := cursors + [cursor];
      }
    }

    method RetainPending(keep: Guess -> bool)
      modifies this`pending
      ensures pending == Retain(old(pending), keep)
    {
      var out: seq<Guess> := [];
      for i := 0 to |pending|
        invariant out == RetainUpTo(pending, i, keep)
      {
        if keep(pending[i]) {
          out := out + [pending[i]];
        }
      }
      pending := out;
    }

    method RetainCursorsOnly(keep: CursorGuess -> bool)
      modifies this`cursors
      ensures cursors == Retain(old(cursors), keep)
    {
      var out: seq<CursorGuess> := [];
      for i := 0 to |cursors|
        invariant out == RetainUpTo(cursors, i, keep)
      {
        if keep(cursors[i]) {
          out := out + [cursors[i]];
        }
      }
      cursors := out;
    }

    method DropFrom(epoch: nat)
      modifies this`pending, this`cursors
      ensures var p := old(Value());
        Value() == p.(pending := Retain(p.pending, GuessBefore(epoch)), cursors := Retain(p.cursors, CursorBefore(epoch)))
    {
      hide Retain;
      RetainPending(GuessBefore(epoch));
      RetainCursorsOnly(CursorBefore(epoch));
    }

    method PushCursor()
      modifies this`cursors
      ensures Value() == old(Value()).(cursors := old(cursors) + [CursorHere(old(Value()))])
    {
      cursors := cursors + [CursorGuess(curX, curY, predictionEpoch, SatInc(frameSent))];
    }

    method Kill(epoch: nat, host: Frame)
      modifies this`pending, this`cursors, this`curX, this`curY, this`predictionEpoch, this`active
      ensures Value() == KillEpoch(old(Value()), epoch, host)
    {
      hide Retain, BecomeTentative, AtHost, CursorHere;
      DropFrom(epoch);
      SnapToHost(host);
      PushCursor();
      Tentative();
      active := true;
    }

    method FollowCursor(x: nat, y: nat)
      modifies this`curX, this`curY, this`predictionEpoch
      ensures Value() == SetCursor(old(Value()), x, y)
    {
      if !active {
        if y != curY {
          Tentative();
        }
        curX, curY := x, y;
      }
    }

    method ForgetCursors(host: Frame)
      modifies this`cursors, this`active, this`curX, this`curY
      ensures Value() == ClearCursor(old(Value()), host)
    {
      cursors := [];
      active := pending != [];
      curX, curY := host.cursor.x, host.cursor.y;
    }

    method CullCursors(host: Frame)
      modifies this`pending, this`cursors, this`predictionEpoch, this`active, this`confirmed, this`escBuf, this`curX, this`curY
      ensures Value() == Cull(old(Value()), host)
    {
      hide Retain, Reset, AtHost, ClearCursor;
      var n := |cursors|;
      if n > 0 {
        var latest := cursors[n - 1];
        if (frameSent == 0 || frameLateAcked >= latest.expires) && (latest.x != host.cursor.x || latest.y != host.cursor.y) {
          if preference.Experimental? || frameSent == 0 {
            ForgetCursors(host);
          } else {
            ResetToHost(host);
          }
          return;
        }
      }
      RetainCursorsOnly(CursorWaiting(frameSent, frameLateAcked));
      if cursors == [] && pending == [] {
        ForgetCursors(host);
      } else {
        active := true;
      }
    }

    method Observe(hostUpdated: bool)
      modifies this`eraseWait
      ensures Value() == ObserveLateAck(old(Value()), hostUpdated)
    {
      if hostUpdated && eraseWait.Some? && frameLateAcked >= eraseWait.value {
        eraseWait := None;
      }
    }

    method SeeFrames(sent: nat, early: nat, late: nat)
      modifies this`frameSent, this`frameAcked, this`frameLateAcked
      ensures Value() == SetFrames(old(Value()), sent, early, late)
    {
      if sent > frameSent {
        frameSent := sent;
      }
      if early > frameAcked {
        frameAcked := early;
      }
      if late > frameLateAcked {
        frameLateAcked := late;
      }
    }

    method AdaptShow(srtt: nat)
      modifies this`show, this`active
      ensures Value() == SetShow(old(Value()), srtt)
    {
      if srtt > SHOW_ABOVE {
        show := true;
      } else if srtt <= HIDE_UPTO && pending == [] && cursors == [] {
        show, active := false, false;
      }
    }

    method SetRoundTrip(srtt: Option<nat>)
      modifies this`show, this`flagging, this`active
      ensures Value() == SetSrtt(old(Value()), srtt)
    {
      if preference.Never? {
        show, flagging := false, false;
        return;
      }
      if preference.Adaptive? {
        if srtt.None? {
          return;
        }
        AdaptShow(srtt.value);
      } else {
        show := true;
      }
      ghost var q := Value();
      if srtt.Some? {
        if srtt.value > FLAG_ABOVE {
          flagging := true;
        } else if srtt.value <= UNFLAG_UPTO {
          flagging := false;
        }
      }
      if glitchTrigger > 0 {
        show := true;
      }
      if glitchTrigger > REPAIR_COUNT {
        flagging := true;
      }
      assert Value() == q.(show := show, flagging := flagging);
    }

    method SampleAge(now: nat)
      modifies this`glitchTrigger, this`show, this`flagging
      ensures Value() == SamplePendingAge(old(Value()), now)
    {
      if pending == [] {
        return;
      }
      var oldest := pending[0].at;
      for i := 1 to |pending|
        invariant oldest == OldestAt(pending, i)
      {
        if pending[i].at < oldest {
          oldest := pending[i].at;
        }
      }
      var age := SatSub(now, oldest);
      if age >= BIG_GLITCH_AGE {
        glitchTrigger, show, flagging := 2 * REPAIR_COUNT, true, true;
      } else if age >= GLITCH_AGE && glitchTrigger < REPAIR_COUNT {
        glitchTrigger, show := REPAIR_COUNT, true;
      }
    }

    // ------------------------------------------------------------------ making guesses

    /** The guesses of row `y` by column. */
    method DenseRow(y: nat, cols: nat) returns (row: seq<Option<Guess>>)
      ensures |row| == cols && forall x :: 0 <= x < cols ==> row[x] == GuessAt(Value(), x, y)
    {
      row := NoGuesses(cols);
      for i := 0 to |pending|
        invariant |row| == cols && forall x :: 0 <= x < cols ==> row[x] == FindAt(pending, x, y, i)
      {
        if pending[i].y == y && pending[i].x < cols {
          row := row[pending[i].x := Some(pending[i])];
        }
      }
    }

    /** Shifts a dense row from the right, down to the cursor. */
    method ShiftRow(row: seq<Option<Guess>>, host: Frame, ch: char, now: nat) returns (out: seq<Option<Guess>>)
      requires curX + 1 < host.cols == |row|
      requires forall x :: 0 <= x < |row| ==> row[x] == GuessAt(Value(), x, curY)
      ensures |out| == |row| && forall x :: 0 <= x < |row| ==> out[x] == RowGuess(Value(), host, curX, curY, ch, now, x)
    {
      hide GuessAt, ShiftedGuess, Guessed, ShiftLeft;
      var p, cx, y := Value(), curX, curY;
      out := row;
      var x := host.cols - 1;
      while x > cx
        invariant cx <= x < |row| == |out|
        invariant forall i :: 0 <= i <= x ==> out[i] == row[i]
        invariant forall i :: x < i < |row| ==> out[i] == Some(ShiftedGuess(p, host, i, y, now))
      {
        ShiftsTo(out, p, host, x, y, now);
        out := out[x := Some(ShiftLeft(out, p, host, x, y, now))];
        x := x - 1;
      }
      out := out[cx := Some(Guessed(p, ch, cx, y, out[cx], host, false, now))];
    }

    /** The guesses of a dense row, from left to right. */
    method Flatten(row: seq<Option<Guess>>, ghost p: Predictor, host: Frame, cx: nat, y: nat, ch: char, now: nat) returns (cells: seq<Guess>)
      requires forall x :: 0 <= x < |row| ==> row[x] == RowGuess(p, host, cx, y, ch, now, x)
      ensures cells == InsertedRow(p, host, cx, y, ch, now, |row|)
    {
      hide RowGuess, InsertedRow;
      cells := [];
      InsertedNext(p, host, cx, y, ch, now, 0);
      for i := 0 to |row|
        invariant cells == InsertedRow(p, host, cx, y, ch, now, i)
      {
        InsertedNext(p, host, cx, y, ch, now, i);
        if row[i].Some? {
          cells := cells + [row[i].value];
        }
      }
    }

    /** Inserts a glyph at the cursor and shifts the rest of the row. */
    method PredictInsert(host: Frame, ch: char, now: nat)
      requires curX + 1 < host.cols
      modifies this`pending, this`cursors, this`curX, this`active
      ensures Value() == InsertAt(old(Value()), host, ch, now)
    {
      hide GuessAt, RowGuess, Sort, InsertedRow, RecordCursor, Retain;
      ghost var p := Value();
      var row := DenseRow(curY, host.cols);
      row := ShiftRow(row, host, ch, now);
      var cells := Flatten(row, p, host, curX, curY, ch, now);
      RetainPending(OutsideRow(curY, host.cols));
      var guesses := pending + cells;
      pending := Sort(guesses);
      curX, active := curX + 1, true;
      ghost var q := Value();
      assert q == p.(x := p.x + 1, active := true, pending := Sort(guesses));
      Record();
      InsertShape(p, host, ch, now, Sort(guesses));
    }

    method BlankCells(host: Frame, y: nat, now: nat) returns (cells: seq<Guess>)
      ensures cells == BlankedRow(Value(), host, y, now, host.cols)
    {
      hide GuessAt, BlankedRow, Guessed;
      var p := Value();
      var prior := DenseRow(y, host.cols);
      cells := [];
      BlankedNext(p, host, y, now, 0);
      for x := 0 to host.cols
        invariant cells == BlankedRow(p, host, y, now, x)
      {
        BlankedNext(p, host, y, now, x);
        cells := cells + [Guessed(p, ' ', x, y, prior[x], host, false, now)];
      }
    }

    method PredictNewLine(host: Frame, now: nat)
      modifies this`pending, this`cursors, this`curX, this`curY, this`active
      ensures Value() == NewLine(old(Value()), host, now)
    {
      hide Sort, BlankedRow, RecordCursor, Retain;
      ghost var p := Value();
      if curY + 1 >= host.rows {
        var cells := BlankCells(host, curY, now);
        RetainPending(OutsideRow(curY, host.cols));
        var guesses := pending + cells;
        pending := Sort(guesses);
        curX, active := 0, true;
        ghost var q := Value();
        assert q == p.(x := 0, active := true, pending := Sort(guesses));
        Record();
        NewLineShape(p, host, now, Sort(guesses));
      } else {
        curX, curY, active := 0, curY + 1, true;
        Record();
      }
    }

    method ReplaceAtCursor(host: Frame, ch: char, now: nat)
      modifies this`pending
      ensures Value() == Overwritten(old(Value()), host, ch, now)
    {
      hide Retain, GuessAt;
      var g := Guessed(Value(), ch, curX, curY, GuessAt(Value(), curX, curY), host, false, now);
      RetainPending(ElsewhereThan(curX, curY));
      pending := pending + [g];
    }

    method SortPending()
      modifies this`pending
      ensures Value() == Sorted(old(Value()))
    {
      pending := Sort(pending);
    }

    method TypeLast(host: Frame, ch: char, now: nat)
      requires curX + 1 >= host.cols
      modifies this`pending, this`cursors, this`curX, this`curY, this`active, this`predictionEpoch
      ensures Value() == TypeChar(old(Value()), host, ch, now)
    {
      hide Overwritten, NewLine, Sorted, BecomeTentative;
      Tentative();
      ghost var a := Value();
      ReplaceAtCursor(host, ch, now);
      ghost var b := Value();
      assert b == Overwritten(a, host, ch, now);
      Tentative();
      ghost var c := Value();
      assert c == BecomeTentative(b);
      PredictNewLine(host, now);
      ghost var d := Value();
      assert d == NewLine(c, host, now);
      SortPending();
    }

    method TypeOver(host: Frame, ch: char, now: nat)
      requires curX + 1 < host.cols && overwrite
      modifies this`pending, this`cursors, this`curX, this`active
      ensures Value() == TypeChar(old(Value()), host, ch, now)
    {
      hide Overwritten, Sorted, RecordCursor;
      ReplaceAtCursor(host, ch, now);
      ghost var a := Value();
      curX, active := curX + 1, true;
      assert Value() == a.(x := a.x + 1, active := true);
      Record();
      SortPending();
    }

    method TypeGlyph(host: Frame, ch: char, now: nat)
      modifies this`pending, this`cursors, this`curX, this`curY, this`active, this`predictionEpoch
      ensures Value() == TypeChar(old(Value()), host, ch, now)
    {
      hide Overwritten, Sorted, RecordCursor, NewLine, InsertAt;
      if curX + 1 >= host.cols {
        hide TypeChar;
        TypeLast(host, ch, now);
      } else if overwrite {
        hide TypeChar;
        TypeOver(host, ch, now);
      } else {
        PredictInsert(host, ch, now);
      }
    }

    method HandleDecoded(t: Widths, host: Frame, ch: char, now: nat)
      modifies this`pending, this`cursors, this`curX, this`curY, this`active, this`predictionEpoch
      ensures Value() == HandleChar(t, old(Value()), host, ch, now)
    {
      hide TypeChar, NewLine, BecomeTentative, DisplayWidth;
      if ch == REPLACEMENT {
        Tentative();
        return;
      }
      if ch as nat < 0x20 {
        Tentative();
        if ch == '\r' {
          PredictNewLine(host, now);
        }
        return;
      }
      if IsControl(ch) {
        return;
      }
      if DisplayWidth(t, ch) != Some(1) {
        Tentative();
        return;
      }
      TypeGlyph(host, ch, now);
    }

    method MoveCursor(right: bool, host: Frame)
      modifies this`cursors, this`curX, this`active
      ensures Value() == if right then MoveRight(old(Value()), host) else MoveLeft(old(Value()))
    {
      hide RecordCursor;
      if right {
        if curX < SatSub(host.cols, 1) {
          curX, active := curX + 1, true;
          Record();
        }
      } else if curX > 0 {
        curX, active := curX - 1, true;
        Record();
      }
    }

    method PressKey(t: Widths, host: Frame, k: KeyPress, now: nat)
      modifies this`pending, this`cursors, this`curX, this`curY, this`active, this`predictionEpoch
      ensures Value() == Press(t, old(Value()), host, k, now)
    {
      hide HandleChar, MoveLeft, MoveRight, BecomeTentative;
      match k
      case MoreKeys =>
      case Left(_) => MoveCursor(false, host);
      case Right(_) => MoveCursor(true, host);
      case Other(_) => Tentative();
      case Typed(ch, _) => HandleDecoded(t, host, ch, now);
    }

    method OpenEpoch()
      modifies this`predictionEpoch
      ensures Value() == Opened(old(Value()))
    {
      if preference.Experimental? {
        predictionEpoch := confirmedEpoch;
      }
    }

    /** Reads the keys one by one; an unfinished one is kept for the next call. */
    method PressKeys(t: Widths, host: Frame, data: seq<byte>, now: nat)
      modifies this`pending, this`cursors, this`curX, this`curY, this`active, this`predictionEpoch, this`escBuf
      ensures Value() == PressAll(t, old(Value()), host, data, now)
    {
      hide Press, NextKey, Opened;
      ghost var p := Value();
      var i := 0;
      assert data[0..] == data;
      while i < |data|
        invariant i <= |data|
        invariant PressAll(t, Value(), host, data[i..], now) == PressAll(t, p, host, data, now)
      {
        var rest := data[i..];
        ghost var before := Value();
        OpenEpoch();
        ghost var opened' := Value();
        var k := NextKey(rest);
        if k.MoreKeys? {
          escBuf := rest;
          assert Value() == opened'.(esc := rest);
          return;
        }
        PressKey(t, host, k, now);
        assert rest[k.len..] == data[i + k.len..];
        i := i + k.len;
      }
    }

    method Keys(t: Widths, input: seq<byte>, host: Frame, now: nat)
      modifies this
      ensures Value() == Keystroke(t, old(Value()), input, host, now)
    {
      hide PressAll, Reset, Erases;
      if preference.Never? {
        ResetAll();
        return;
      }
      if eraseWait.Some? {
        if input != [] {
          eraseWait := Some(SatInc(frameSent));
        }
        return;
      }
      ghost var p := Value();
      var data := escBuf + input;
      escBuf := [];
      ghost var q := Value();
      assert q == p.(esc := []);
      if Erases(data) {
        ResetAll();
        ghost var r := Value();
        ResetSent(q);
        eraseWait := Some(SatInc(frameSent));
        assert Value() == r.(erase := Some(Expiry(q)));
        return;
      }
      if |data| > 100 {
        ResetAll();
        return;
      }
      PressKeys(t, host, data, now);
    }

    // ------------------------------------------------------------------------ confirming

    /** Walks over the guesses in order and judges each by the host's cell. */
    method WalkPending(host: Frame, now: nat) returns (w: Walked)
      ensures var w0 := Walked([], pending, confirmedEpoch, false, 0, Finished); w == Walk(Value(), host, w0, now)
    {
      hide Judge;
      var p := Value();
      w := Walked([], pending, confirmedEpoch, false, 0, Finished);
      ghost var w0 := w;
      var stop := false;
      while w.rest != [] && !stop
        invariant Walk(p, host, w0, now) == if stop then w else Walk(p, host, w, now)
        decreases |w.rest|, !stop
      {
        var g, more := w.rest[0], w.rest[1..];
        match Judge(p.(confirmed := w.confirmed), g, host)
        case Waiting =>
          w := w.(kept := w.kept + [g], rest := more);
        case Removed =>
          w := w.(rest := more, removed := w.removed + 1);
        case Credited =>
          var c := CellAt(host, g.x, g.y);
          var attr := if c.Some? then c.value.attr else PLAIN;
          DressedLength(more, |more|, g.y, attr);
          w := w.(rest := Dressed(more, |more|, g.y, attr), confirmed := Larger(w.confirmed, g.epoch),
                  quick := w.quick || SatSub(now, g.at) < GLITCH_AGE, removed := w.removed + 1);
        case Stalled =>
          stop := true;
        case Killed =>
          w, stop := w.(ending := KilledBy(g.epoch)), true;
        case Refuted =>
          w, stop := w.(ending := RefutedBy), true;
      }
    }

    method RepairGlitch(quick: bool, now: nat)
      modifies this`glitchTrigger, this`lastQuick
      ensures Value() == Repair(old(Value()), quick, now)
    {
      if quick && glitchTrigger > 0 && (lastQuick.None? || SatSub(now, lastQuick.value) >= REPAIR_INTERVAL) {
        glitchTrigger, lastQuick := glitchTrigger - 1, Some(now);
      }
    }

    method FinishWalk(host: Frame, w: Walked, now: nat)
      modifies this
      ensures var p := old(Value());
        Value() == if w.removed > 0 then Cull(Repair(p.(count := p.count + w.removed), w.quick, now), host) else Cull(p, host)
    {
      hide Cull, Repair;
      if w.removed > 0 {
        ghost var q := Value();
        confirmed := confirmed + w.removed;
        assert Value() == q.(count := q.count + w.removed);
        RepairGlitch(w.quick, now);
      }
      CullCursors(host);
    }

    method SettleWalk(host: Frame, w: Walked, now: nat)
      modifies this
      ensures Value() == Settle(old(Value()), host, w, now)
    {
      hide Cull, KillEpoch, Reset, Repair, AtHost;
      ghost var p := Value();
      pending, confirmedEpoch := w.kept + w.rest, w.confirmed;
      assert Value() == p.(pending := w.kept + w.rest, confirmed := w.confirmed);
      match w.ending
      case KilledBy(epoch) => Kill(epoch, host);
      case RefutedBy => ResetToHost(host);
      case Finished => FinishWalk(host, w, now);
    }

    method ConfirmAgainst(host: Frame, now: nat)
      modifies this
      ensures Value() == Confirm(old(Value()), host, now)
    {
      hide Cull, Settle, Walk;
      if pending == [] {
        CullCursors(host);
        return;
      }
      if !active {
        SnapToHost(host);
        return;
      }
      var w := WalkPending(host, now);
      SettleWalk(host, w, now);
    }

    // ------------------------------------------------------------------------ overlaying

    /** Lays one guess over its cell. */
    method ApplyGuess(fb: Framebuffer, g: Guess)
      modifies fb`grid
      ensures fb.Value() == OverlayGuess(Value(), old(fb.Value()), g)
    {
      hide Covered;
      if g.epoch > confirmedEpoch {
        return;
      }
      if g.y < |fb.grid| && g.x < |fb.grid[g.y]| {
        var left := if g.x > 0 then Some(fb.grid[g.y][g.x - 1].attr) else None;
        fb.SetCell(g.x, g.y, Covered(fb.grid[g.y][g.x], g, left, flagging, fb.cols));
      }
    }

    method OverlayOnto(fb: Framebuffer)
      modifies fb`grid, fb`cursor
      ensures fb.Value() == Overlay(Value(), old(fb.Value()))
    {
      hide OverlayGuess;
      if !active || !show {
        return;
      }
      ghost var f := fb.Value();
      for i := 0 to |pending|
        invariant fb.Value() == OverlayUpTo(Value(), f, i)
      {
        ApplyGuess(fb, pending[i]);
      }
      ghost var g := fb.Value();
      for i := 0 to |cursors|
        invariant fb.Value() == OverlayCursors(Value(), g, i) && fb.cols == g.cols && fb.rows == g.rows
      {
        if cursors[i].epoch <= confirmedEpoch {
          fb.cursor := fb.cursor.(x := Least(cursors[i].x, SatSub(fb.cols, 1)), y := Least(cursors[i].y, SatSub(fb.rows, 1)));
        }
      }
    }
  }

  lemma {:induction false} ResetSent(p: Predictor)
    ensures Reset(p).sent == p.sent
  {}

  function NoGuesses(n: nat): (row: seq<Option<Guess>>)
    ensures |row| == n && forall i :: 0 <= i < n ==> row[i] == None
  {
    seq(n, _ => None)
  }

  /** What goes into column `x` of the dense row: the column to its left, guessed or not. */
  function ShiftLeft(row: seq<Option<Guess>>, p: Predictor, host: Frame, x: nat, y: nat, now: nat): Guess
    requires 0 < x < |row|
  {
    var left := row[x - 1];
    var unknown := x + 1 == host.cols || (left.Some? && left.value.unknown);
    var ch := if unknown then ' ' else if left.Some? then left.value.ch else Normal(CharAt(host, x - 1, y));
    Guessed(p, ch, x, y, row[x], host, unknown, now)
  }

  lemma {:induction false} ShiftsTo(row: seq<Option<Guess>>, p: Predictor, host: Frame, x: nat, y: nat, now: nat)
    requires 0 < x < |row| && row[x - 1] == GuessAt(p, x - 1, y) && row[x] == GuessAt(p, x, y)
    ensures ShiftLeft(row, p, host, x, y, now) == ShiftedGuess(p, host, x, y, now)
  {
    hide GuessAt, Guessed;
  }

  lemma {:induction false} InsertedNext(p: Predictor, host: Frame, cx: nat, y: nat, ch: char, now: nat, x: nat)
    ensures InsertedRow(p, host, cx, y, ch, now, 0) == []
    ensures var g := RowGuess(p, host, cx, y, ch, now, x);
      InsertedRow(p, host, cx, y, ch, now, x + 1)
        == InsertedRow(p, host, cx, y, ch, now, x) + if g.Some? then [g.value] else []
  {
    hide GuessAt, Guessed, ShiftedGuess;
  }

  lemma {:induction false} BlankedNext(p: Predictor, host: Frame, y: nat, now: nat, x: nat)
    ensures BlankedRow(p, host, y, now, 0) == []
    ensures BlankedRow(p, host, y, now, x + 1)
         == BlankedRow(p, host, y, now, x) + [Guessed(p, ' ', x, y, GuessAt(p, x, y), host, false, now)]
  {
    hide GuessAt, Guessed;
  }
}
