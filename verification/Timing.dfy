/** How frame numbers, round-trip times and waiting guesses move a predictor's settings. */
module Timing {
  import opened Basics
  import opened Cells
  import opened Prediction
  import opened Pipeline
  import Printer

  /** Frame numbers and echoes only ever rise. */
  lemma {:induction false} FramesRise(p: Predictor, sent: nat, early: nat, late: nat)
    ensures var q := SetFrames(p, sent, early, late);
      && q == p.(sent := q.sent, acked := q.acked, late := q.late)
      && q.sent >= p.sent && q.sent >= sent && q.sent in {p.sent, sent}
      && q.acked >= p.acked && q.acked >= early && q.acked in {p.acked, early}
      && q.late >= p.late && q.late >= late && q.late in {p.late, late}
  {}

  /** Only an idle predictor takes up the host's cursor, and another row opens a new epoch. */
  lemma {:induction false} IdleFollows(p: Predictor, x: nat, y: nat)
    ensures var q := SetCursor(p, x, y);
      && (p.active ==> q == p)
      && (!p.active ==> q.x == x && q.y == y && q == p.(x := x, y := y, epoch := q.epoch))
      && (!p.active ==> q.epoch == if y == p.y || p.preference.Experimental? then p.epoch else p.epoch + 1)
  {}

  /** Something is guessed. */
  predicate Guessing(p: Predictor) { p.pending != [] || p.cursors != [] }

  /** Adaptive prediction is shown above 30 ms and hidden at 20 ms or less when nothing is guessed. */
  predicate ShowFollows(p: Predictor, srtt: nat, show: bool) {
    show == (p.glitch > 0 || (if srtt > 30 then true else if srtt <= 20 && !Guessing(p) then false else p.show))
  }

  /** Guesses are underlined above 80 ms and no longer at 50 ms or less. */
  predicate FlagFollows(p: Predictor, srtt: Option<nat>, flagging: bool) {
    flagging == (p.glitch > 10
                 || if srtt.Some? && srtt.value > 80 then true else if srtt.Some? && srtt.value <= 50 then false else p.flagging)
  }

  /** What a round-trip time does under each preference. */
  lemma {:induction false} RoundTripMoves(p: Predictor, srtt: Option<nat>)
    ensures var q := SetSrtt(p, srtt);
      && q == p.(show := q.show, flagging := q.flagging, active := q.active)
      && (p.preference.Never? ==> !q.show && !q.flagging && q.active == p.active)
      && (p.preference.Adaptive? && srtt.None? ==> q == p)
      && (p.preference.Adaptive? && srtt.Some? ==>
            && ShowFollows(p, srtt.value, q.show) && FlagFollows(p, srtt, q.flagging)
            && q.active == (p.active && !(srtt.value <= 20 && !Guessing(p))))
      && (p.preference.Always? || p.preference.Experimental? ==>
            q.show && FlagFollows(p, srtt, q.flagging) && q.active == p.active)
  {}

  /** No guess is older than `at`, and one is as old. */
  predicate OldestIs(s: seq<Guess>, at: nat) {
    (exists g :: g in s && g.at == at) && forall g :: g in s ==> at <= g.at
  }

  lemma {:induction false} OldestAtIs(s: seq<Guess>, n: nat)
    requires 0 < n <= |s|
    ensures (exists i :: 0 <= i < n && s[i].at == OldestAt(s, n)) && forall i :: 0 <= i < n ==> OldestAt(s, n) <= s[i].at
  {
    if n == 1 || s[n - 1].at < OldestAt(s, n - 1) {
      assert s[n - 1].at == OldestAt(s, n);
    }
    if n > 1 {
      OldestAtIs(s, n - 1);
    }
  }

  lemma {:induction false} OneOldest(s: seq<Guess>, at: nat)
    requires OldestIs(s, at)
    ensures s != [] && OldestAt(s, |s|) == at
  {
    OldestAtIs(s, |s|);
    var i :| 0 <= i < |s| && s[i].at == OldestAt(s, |s|);
    assert s[i] in s;
    var g :| g in s && g.at == at;
  }

  /** A guess that has waited for 5 s is a great glitch, one that has for 250 ms a small one. */
  lemma {:induction false} WaitingShows(p: Predictor, at: nat, now: nat)
    requires OldestIs(p.pending, at)
    ensures var q, age := SamplePendingAge(p, now), if now > at then now - at else 0;
      q == if age >= 5000 then p.(glitch := 20, show := true, flagging := true)
           else if age >= 250 && p.glitch < 10 then p.(glitch := 10, show := true)
           else p
  {
    hide OldestAt;
    OneOldest(p.pending, at);
  }

  lemma {:induction false} NothingWaits(p: Predictor, now: nat)
    ensures p.pending == [] ==> SamplePendingAge(p, now) == p
  {}

  /** Each event passes through the predictor as the display's operation says, and nothing else
      does. */
  lemma {:induction false} EventPredicts(t: Widths, d: Display, event: Event, now: nat)
    ensures var q, p := Handle(t, d, event, now).display.predictor, d.predictor;
      match event
      case HostFrame(frame) =>
        var moved := frame.cols != d.host.cols || frame.rows != d.host.rows || frame.scrolls != d.host.scrolls;
        q == SamplePendingAge(Confirm(SetCursor(if moved then Reset(p) else p, frame.cursor.x, frame.cursor.y), frame, now), now)
      case KeysTyped(keys) =>
        q == if p.preference.Never? then p
             else Keystroke(t, if p.active then p else SetCursor(p, d.host.cursor.x, d.host.cursor.y), keys, d.host, now)
      case FramesSeen(sent, early, late) =>
        var r := ObserveLateAck(SetFrames(p, sent, early, late), d.hostUpdated);
        q == if p.pending == [] && !p.active then r else SamplePendingAge(Confirm(r, d.host, now), now)
      case SrttMeasured(srtt) => q == SetSrtt(p, srtt)
      case Ticked => q == SamplePendingAge(p, now)
      case Notice(_) => q == p
  {
    hide Confirm, SamplePendingAge, SetCursor, Reset, Keystroke, SetFrames, ObserveLateAck, SetSrtt, Composed;
  }

  /** An echo counts as the host's only if a frame that looks different came since the last one. */
  lemma {:induction false} UpdatesNoted(t: Widths, d: Display, event: Event, now: nat)
    ensures var e := Handle(t, d, event, now).display;
      e.hostUpdated ==
        if event.FramesSeen? then false
        else d.hostUpdated || (event.HostFrame? && Printer.FrameDiff(event.frame, Some(d.host)) != [])
  {
    hide Confirm, SamplePendingAge, SetCursor, Reset, Keystroke, SetFrames, ObserveLateAck, SetSrtt, Composed;
  }
}
