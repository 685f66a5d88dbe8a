/** What the display shows: after every event that writes, the host's frame under the guesses and
    the notification bar; and when events write. */
module Showing {
  import opened Basics
  import opened Sgr
  import opened Cells
  import opened Screen
  import opened Printer
  import opened Prediction
  import opened Guesses
  import opened Pipeline
  import opened Overlays

  // ------------------------------------------------------------------- the notification bar

  /** White on blue. */
  const BAR := Attr(false, false, false, false, false, false, false, false, Index(7), Index(4))

  /** The characters of a message that take up a column. */
  function Printed(t: Widths, message: seq<char>): seq<char> {
    if message == [] then []
    else (if DisplayWidth(t, message[0]) == Some(1) then [message[0]] else []) + Printed(t, message[1..])
  }

  function BarCell(text: seq<char>, x: nat): Cell {
    if x < |text| then Cell(text[x], 1, BAR.(bold := true), 0, [], false) else Cell(' ', 1, BAR, 0, [], true)
  }

  /** Frame `r` is frame `f` with the message on its top row, and no cursor there. */
  predicate Barred(t: Widths, f: Frame, message: seq<char>, r: Frame) {
    && r == f.(grid := r.grid, switches := f.switches.(cursorVisible := f.switches.cursorVisible && f.cursor.y != 0))
    && |r.grid| == |f.grid| && (forall y :: 1 <= y < |f.grid| ==> r.grid[y] == f.grid[y])
    && (f.grid != [] ==> |r.grid[0]| == |f.grid[0]|)
    && (f.grid != [] ==> forall x :: 0 <= x < |f.grid[0]| ==> r.grid[0][x] == BarCell(Printed(t, message), x))
  }

  lemma {:induction false} WritesMessage(t: Widths, row: seq<Cell>, message: seq<char>, x: nat, j: nat)
    requires NoWide(t, message) && j < |row| && forall k :: 0 <= k < |row| ==> row[k].width == 1
    ensures WriteNotice(t, row, message, x)[j] ==
      if x <= j < x + |Printed(t, message)| then BarCell(Printed(t, message), j - x) else row[j]
    decreases |message|
  {
    hide DisplayWidth;
    if message != [] && x < |row| {
      var w := DisplayWidth(t, message[0]);
      assert forall i :: 0 <= i < |message[1..]| ==> message[1..][i] == message[i + 1];
      Columns(t, message[0]);
      if w.None? || w.value == 0 {
        WritesMessage(t, row, message[1..], x, j);
      } else {
        var glyph := Glyph(message[0], 1, BAR_ATTR.(bold := true), 0);
        NarrowPut(row, x, glyph);
        WritesMessage(t, row[x := glyph], message[1..], x + 1, j);
      }
    }
  }

  lemma {:induction false} Columns(t: Widths, ch: char)
    ensures DisplayWidth(t, ch) in {None, Some(0), Some(1), Some(2)}
  {}

  lemma {:induction false} NarrowPut(row: seq<Cell>, x: nat, glyph: Cell)
    requires x < |row| && glyph.width == 1 && forall k :: 0 <= k < |row| ==> row[k].width == 1
    ensures PutRow(row, x, 1, glyph) == row[x := glyph]
  {}

  lemma {:induction false} NoticeBars(t: Widths, f: Frame, message: seq<char>)
    requires NoWide(t, message)
    ensures Barred(t, f, message, WithNotice(t, f, message))
  {
    hide WriteNotice, Printed, DisplayWidth, NoWide;
    if f.grid != [] {
      var blank := Blanks(|f.grid[0]|, BLANK.(attr := BAR_ATTR));
      var r := WithNotice(t, f, message);
      forall x | 0 <= x < |f.grid[0]|
        ensures r.grid[0][x] == BarCell(Printed(t, message), x)
      {
        WritesMessage(t, blank, message, 0, x);
      }
    }
  }

  // ---------------------------------------------------------------------- composed frames

  /** What is to be shown: the host's frame, under the guesses if they are shown, under the bar if
      there is a message. */
  ghost predicate Presents(t: Widths, d: Display, r: Frame) {
    exists f :: Overlaid(d.predictor, d.host, f) && (if d.notice.Some? then Barred(t, f, d.notice.value, r) else r == f)
  }

  predicate NoticeNarrow(t: Widths, d: Display) { d.notice.Some? ==> NoWide(t, d.notice.value) }

  lemma {:induction false} ComposedPresents(t: Widths, d: Display)
    requires Shape(d.predictor) && NoticeNarrow(t, d)
    ensures Presents(t, d, Composed(t, d))
  {
    hide Overlay, WithNotice, Overlaid, Barred, Shape, NoWide;
    var f := if d.predictor.show then Overlay(d.predictor, d.host) else d.host;
    OverlayIsOverlaid(d.predictor, d.host);
    HiddenOverlaid(d.predictor, d.host);
    if d.notice.Some? {
      NoticeBars(t, f, d.notice.value);
    }
    assert Overlaid(d.predictor, d.host, f);
  }

  lemma {:induction false} HiddenOverlaid(p: Predictor, f: Frame)
    ensures !p.show ==> Overlaid(p, f, f)
  {}

  lemma {:induction false} HostPresents(t: Widths, d: Display)
    requires !d.predictor.show && d.notice.None?
    ensures Presents(t, d, d.host)
  {
    hide Overlaid, Barred;
    HiddenOverlaid(d.predictor, d.host);
  }

  /** The same frame is to be shown whichever way it is made. */
  lemma {:induction false} PathPresents(t: Widths, d: Display, e: Display, r: Frame)
    requires Presents(t, d, r) && e.predictor == d.predictor && e.host == d.host && e.notice == d.notice
    ensures Presents(t, e, r)
  {}

  // ------------------------------------------------------------------------------ events

  /** The frame just painted is what is to be shown now. */
  ghost predicate Painted(t: Widths, o: Output) { o.display.shown.Some? && Presents(t, o.display, o.display.shown.value) }

  /** Nothing is written, and what is shown stays, or is the host's first frame. */
  predicate Silent(d: Display, o: Output) {
    o.bytes == [] && (o.display.shown == d.shown || (d.shown.None? && o.display.shown == Some(d.host)))
  }

  lemma {:induction false} OverlayPaints(t: Widths, d: Display)
    requires Shape(d.predictor) && NoticeNarrow(t, d)
    ensures Painted(t, RenderOverlay(t, d))
  {
    hide FrameDiff, Composed, Presents, Shape, NoticeNarrow;
    ComposedPresents(t, d);
    PathPresents(t, d, RenderOverlay(t, d).display, Composed(t, d));
  }

  lemma {:induction false} HostPaints(t: Widths, d: Display)
    requires !d.predictor.show && d.notice.None?
    ensures Painted(t, RenderHost(d))
  {
    hide FrameDiff, Presents;
    HostPresents(t, d);
    PathPresents(t, d, RenderHost(d).display, d.host);
  }

  /** Guesses, cursor, showing or underlining changed. */
  predicate Altered(p: Predictor, q: Predictor) {
    |q.pending| != |p.pending| || q.active != p.active || q.x != p.x || q.y != p.y || q.show != p.show || q.flagging != p.flagging
  }

  /** When an event writes, given the predictor it leaves. */
  predicate Writes(d: Display, event: Event, q: Predictor) {
    var p := d.predictor;
    match event
    case HostFrame(_) => true
    case KeysTyped(_) => !p.preference.Never? && q.show
    case FramesSeen(_, _, _) =>
      (p.pending != [] || p.active) && Altered(p, q) && (q.show || d.notice.Some? || d.overlayPath)
    case SrttMeasured(_) =>
      || (p.show && !q.show) || (!p.show && q.show && (q.active || q.pending != []))
      || (q.show && p.flagging != q.flagging && (d.overlayPath || !p.show))
    case Ticked => p.flagging != q.flagging || p.show != q.show
    case Notice(message) => d.notice != message
  }

  /** The predictor that an event leaves, whatever is written. */
  function PredictorAfter(t: Widths, d: Display, event: Event, now: nat): Predictor {
    Handle(t, d, event, now).display.predictor
  }

  lemma {:induction false} KeysPaint(t: Widths, d: Display, keys: seq<byte>, now: nat)
    requires Shape(PredictorAfter(t, d, KeysTyped(keys), now)) && NoticeNarrow(t, d)
    ensures var o := OnKeystroke(t, d, keys, now);
      if Writes(d, KeysTyped(keys), o.display.predictor) then Painted(t, o) else Silent(d, o)
    ensures var o := OnKeystroke(t, d, keys, now); o.display.host == d.host && o.display.notice == d.notice
  {
    hide Keystroke, SetCursor, FrameDiff, Composed, Painted, Shape, NoWide;
    var p := if d.predictor.active then d.predictor else SetCursor(d.predictor, d.host.cursor.x, d.host.cursor.y);
    var e := d.(predictor := Keystroke(t, p, keys, d.host, now));
    if !d.predictor.preference.Never? && e.predictor.show {
      OverlayPaints(t, Based(e));
    }
  }

  lemma {:induction false} NoticePaints(t: Widths, d: Display, message: Option<seq<char>>)
    requires Shape(d.predictor) && (message.Some? ==> NoWide(t, message.value))
    ensures var o := SetNotice(t, d, message);
      if Writes(d, Notice(message), o.display.predictor) then Painted(t, o) else Silent(d, o)
    ensures var o := SetNotice(t, d, message);
      o.display.host == d.host && o.display.notice == message && o.display.predictor == d.predictor
  {
    hide FrameDiff, Composed, Painted, Shape, NoWide;
    var e := d.(notice := message);
    if d.notice != message {
      if message.Some? {
        OverlayPaints(t, Based(e));
      } else if e.predictor.show {
        OverlayPaints(t, e);
      } else {
        HostPaints(t, e);
      }
    }
  }

  lemma {:induction false} FramesPaint(t: Widths, d: Display, sent: nat, early: nat, late: nat, now: nat)
    requires Shape(PredictorAfter(t, d, FramesSeen(sent, early, late), now)) && NoticeNarrow(t, d)
    ensures var o := OnFrames(t, d, sent, early, late, now);
      if Writes(d, FramesSeen(sent, early, late), o.display.predictor) then Painted(t, o) else Silent(d, o)
    ensures var o := OnFrames(t, d, sent, early, late, now); o.display.host == d.host && o.display.notice == d.notice
  {
    hide Confirm, SamplePendingAge, ObserveLateAck, SetFrames, FrameDiff, Composed, Painted, Shape, NoWide;
    var p := ObserveLateAck(SetFrames(d.predictor, sent, early, late), d.hostUpdated);
    var q := SamplePendingAge(Confirm(p, d.host, now), now);
    var e := d.(predictor := q, hostUpdated := false);
    if d.predictor.pending != [] || d.predictor.active {
      if Altered(d.predictor, q) {
        if q.show || d.notice.Some? {
          OverlayPaints(t, Based(e));
        } else if d.overlayPath {
          HostPaints(t, e);
        }
      }
    }
  }

  lemma {:induction false} SrttPaints(t: Widths, d: Display, srtt: Option<nat>)
    requires Shape(PredictorAfter(t, d, SrttMeasured(srtt), 0)) && NoticeNarrow(t, d)
    ensures var o := OnSrtt(t, d, srtt);
      if Writes(d, SrttMeasured(srtt), o.display.predictor) then Painted(t, o) else Silent(d, o)
    ensures var o := OnSrtt(t, d, srtt); o.display.host == d.host && o.display.notice == d.notice
  {
    hide SetSrtt, FrameDiff, Composed, Painted, Shape, NoWide;
    var p := SetSrtt(d.predictor, srtt);
    var e := d.(predictor := p);
    if d.predictor.show && !p.show {
      if d.notice.Some? {
        OverlayPaints(t, e);
      } else {
        HostPaints(t, e);
      }
    } else {
      OverlayPaints(t, if !d.predictor.show && p.show then Based(e).(overlayPath := true) else e);
    }
  }

  lemma {:induction false} TickPaints(t: Widths, d: Display, now: nat)
    requires Shape(PredictorAfter(t, d, Ticked, now)) && NoticeNarrow(t, d)
    ensures var o := OnTick(t, d, now);
      if Writes(d, Ticked, o.display.predictor) then Painted(t, o) else Silent(d, o)
    ensures var o := OnTick(t, d, now); o.display.host == d.host && o.display.notice == d.notice
  {
    hide SamplePendingAge, FrameDiff, Composed, Presents, Shape, NoWide;
    var p := SamplePendingAge(d.predictor, now);
    var e := d.(predictor := p);
    if d.predictor.flagging != p.flagging || d.predictor.show != p.show {
      if p.pending == [] && !p.show && d.notice.None? {
        HostPaints(t, e);
      } else {
        OverlayPaints(t, e);
        var o := RenderOverlay(t, e).display;
        PathPresents(t, o, o.(overlayPath := d.overlayPath || p.show), o.shown.value);
      }
    }
  }

  lemma {:induction false} FramePaints(t: Widths, d: Display, frame: Frame, now: nat)
    requires Shape(PredictorAfter(t, d, HostFrame(frame), now)) && NoticeNarrow(t, d)
    ensures var o := OnHostFrame(t, d, frame, now);
      Painted(t, o) && o.display.host == frame && o.display.notice == d.notice
  {
    hide Confirm, SamplePendingAge, SetCursor, Reset, FrameDiff, Composed, Painted, Shape, NoWide;
    var geometry := d.host.cols != frame.cols || d.host.rows != frame.rows || d.host.scrolls != frame.scrolls;
    var p := SetCursor(if geometry then Reset(d.predictor) else d.predictor, frame.cursor.x, frame.cursor.y);
    var q := SamplePendingAge(Confirm(p, frame, now), now);
    var e := d.(host := frame, hostUpdated := d.hostUpdated || FrameDiff(frame, Some(d.host)) != [], predictor := q);
    if !q.show && d.notice.None? {
      HostPaints(t, e);
    } else {
      OverlayPaints(t, e);
    }
  }

  /** What the terminal is taken to show: what was last shown or, if nothing was, the blank first frame,
      where the event only adds to it, and otherwise anything. */
  function Against(d: Display, event: Event, q: Predictor): Option<Frame> {
    if d.shown.Some? then d.shown
    else
      match event
      case KeysTyped(_) => Some(d.host)
      case Notice(message) => if message.Some? then Some(d.host) else None
      case FramesSeen(_, _, _) => if q.show || d.notice.Some? then Some(d.host) else None
      case SrttMeasured(_) => if q.show && !d.predictor.show then Some(d.host) else None
      case _ => None
  }

  /** What is written is the difference to that. */
  predicate Differs(d: Display, event: Event, o: Output) {
    o.display.shown.Some? && o.bytes == FrameDiff(o.display.shown.value, Against(d, event, o.display.predictor))
  }

  lemma {:induction false} KeysDiffer(t: Widths, d: Display, keys: seq<byte>, now: nat)
    ensures var o := OnKeystroke(t, d, keys, now); Writes(d, KeysTyped(keys), o.display.predictor) ==> Differs(d, KeysTyped(keys), o)
  {
    hide Keystroke, SetCursor, FrameDiff, Composed;
  }

  lemma {:induction false} FramesDiffer(t: Widths, d: Display, sent: nat, early: nat, late: nat, now: nat)
    ensures var o, e := OnFrames(t, d, sent, early, late, now), FramesSeen(sent, early, late);
      Writes(d, e, o.display.predictor) ==> Differs(d, e, o)
  {
    hide Confirm, SamplePendingAge, ObserveLateAck, SetFrames, FrameDiff, Composed;
  }

  lemma {:induction false} SrttDiffer(t: Widths, d: Display, srtt: Option<nat>)
    ensures var o := OnSrtt(t, d, srtt); Writes(d, SrttMeasured(srtt), o.display.predictor) ==> Differs(d, SrttMeasured(srtt), o)
  {
    hide SetSrtt, FrameDiff, Composed;
  }

  lemma {:induction false} OthersDiffer(t: Widths, d: Display, frame: Frame, message: Option<seq<char>>, now: nat)
    ensures Differs(d, HostFrame(frame), OnHostFrame(t, d, frame, now))
    ensures var o := OnTick(t, d, now); Writes(d, Ticked, o.display.predictor) ==> Differs(d, Ticked, o)
    ensures d.notice != message ==> Differs(d, Notice(message), SetNotice(t, d, message))
  {
    hide Confirm, SamplePendingAge, SetCursor, Reset, FrameDiff, Composed;
  }

  /** Every event that writes, writes the difference between what it leaves shown and what was. */
  lemma {:induction false} EventDiffers(t: Widths, d: Display, event: Event, now: nat)
    ensures var o := Handle(t, d, event, now); Writes(d, event, o.display.predictor) ==> Differs(d, event, o)
  {
    hide OnHostFrame, OnKeystroke, OnFrames, OnSrtt, OnTick, SetNotice, FrameDiff, Differs;
    match event
    case HostFrame(frame) => OthersDiffer(t, d, frame, None, now);
    case KeysTyped(keys) => KeysDiffer(t, d, keys, now);
    case FramesSeen(sent, early, late) => FramesDiffer(t, d, sent, early, late, now);
    case SrttMeasured(srtt) => SrttDiffer(t, d, srtt);
    case Ticked => OthersDiffer(t, d, d.host, None, now);
    case Notice(message) => OthersDiffer(t, d, d.host, message, now);
  }

  // ----------------------------------------------------------------------------- sessions

  /** What every display keeps: the shape of the predictor and a message without wide glyphs. */
  predicate InShape(t: Widths, d: Display) { Shape(d.predictor) && NoticeNarrow(t, d) }

  lemma {:induction false} KeysShape(t: Widths, d: Display, keys: seq<byte>, now: nat)
    requires Shape(d.predictor)
    ensures Shape(OnKeystroke(t, d, keys, now).display.predictor)
  {
    hide Shape, FrameDiff, Composed, Keystroke, SetCursor;
    StepKeeps(t, d.predictor, HostCursor, d.host, now);
    StepKeeps(t, if d.predictor.active then d.predictor else SetCursor(d.predictor, d.host.cursor.x, d.host.cursor.y), Keys(keys), d.host, now);
  }

  lemma {:induction false} FramesShape(t: Widths, d: Display, sent: nat, early: nat, late: nat, now: nat)
    requires Shape(d.predictor)
    ensures Shape(OnFrames(t, d, sent, early, late, now).display.predictor)
  {
    hide Shape, FrameDiff, Composed, Confirm, SamplePendingAge, ObserveLateAck, SetFrames;
    var a := SetFrames(d.predictor, sent, early, late);
    var p := ObserveLateAck(a, d.hostUpdated);
    StepKeeps(t, d.predictor, Frames(sent, early, late), d.host, now);
    StepKeeps(t, a, LateAck(d.hostUpdated), d.host, now);
    StepKeeps(t, p, HostConfirms, d.host, now);
    StepKeeps(t, Confirm(p, d.host, now), Age, d.host, now);
  }

  lemma {:induction false} FrameShape(t: Widths, d: Display, frame: Frame, now: nat)
    requires Shape(d.predictor)
    ensures Shape(OnHostFrame(t, d, frame, now).display.predictor)
  {
    hide Shape, FrameDiff, Composed, Confirm, SamplePendingAge, SetCursor, Reset;
    var geometry := d.host.cols != frame.cols || d.host.rows != frame.rows || d.host.scrolls != frame.scrolls;
    var a := if geometry then Reset(d.predictor) else d.predictor;
    var p := SetCursor(a, frame.cursor.x, frame.cursor.y);
    StepKeeps(t, d.predictor, Geometry, frame, now);
    StepKeeps(t, a, HostCursor, frame, now);
    StepKeeps(t, p, HostConfirms, frame, now);
    StepKeeps(t, Confirm(p, frame, now), Age, frame, now);
  }

  lemma {:induction false} OthersShape(t: Widths, d: Display, srtt: Option<nat>, now: nat)
    requires Shape(d.predictor)
    ensures Shape(OnSrtt(t, d, srtt).display.predictor) && Shape(OnTick(t, d, now).display.predictor)
  {
    hide Shape, FrameDiff, Composed, SetSrtt, SamplePendingAge;
    StepKeeps(t, d.predictor, Srtt(srtt), d.host, now);
    StepKeeps(t, d.predictor, Age, d.host, now);
  }

  /** What one event does: it keeps the shape, and what it leaves shown is what is to be shown if it
      writes, and what was shown before if it does not. */
  lemma {:induction false} EventShows(t: Widths, d: Display, event: Event, now: nat)
    requires InShape(t, d) && EventOk(t, d, event)
    ensures var o := Handle(t, d, event, now);
      && InShape(t, o.display)
      && (if Writes(d, event, o.display.predictor) then Painted(t, o) else Silent(d, o))
      && o.display.host == (if event.HostFrame? then event.frame else d.host)
      && o.display.notice == (if event.Notice? then event.message else d.notice)
  {
    hide Shape, NoWide, OnHostFrame, OnKeystroke, OnFrames, OnSrtt, OnTick, SetNotice, Painted, Silent, NarrowFrame, NoticeOk;
    match event
    case HostFrame(frame) =>
      FrameShape(t, d, frame, now);
      FramePaints(t, d, frame, now);
    case KeysTyped(keys) =>
      KeysShape(t, d, keys, now);
      KeysPaint(t, d, keys, now);
    case FramesSeen(sent, early, late) =>
      FramesShape(t, d, sent, early, late, now);
      FramesPaint(t, d, sent, early, late, now);
    case SrttMeasured(srtt) =>
      OthersShape(t, d, srtt, now);
      SrttPaints(t, d, srtt);
    case Ticked =>
      OthersShape(t, d, None, now);
      TickPaints(t, d, now);
    case Notice(message) => NoticePaints(t, d, message);
  }

  lemma {:induction false} SessionInShape(t: Widths, d: Display, events: seq<Happening>)
    requires InShape(t, d) && EventsOk(t, d, events)
    ensures InShape(t, Session(t, d, events).display)
    decreases |events|
  {
    hide InShape, EventsOk, EventOk, Handle;
    if events != [] {
      var h := events[|events| - 1];
      EventsInit(t, d, events);
      SessionInShape(t, d, events[..|events| - 1]);
      EventShows(t, Session(t, d, events[..|events| - 1]).display, h.event, h.now);
    }
  }

  lemma {:induction false} NewInShape(t: Widths, cols: nat, rows: nat, preference: Preference, overwrite: bool)
    ensures InShape(t, NewDisplay(cols, rows, preference, overwrite))
  {
    NewShape(preference, overwrite);
  }

  /** In every session: what the last event leaves shown. */
  lemma {:induction false} ShownIsPresented(t: Widths, cols: nat, rows: nat, preference: Preference, overwrite: bool, events: seq<Happening>)
    requires events != [] && EventsOk(t, NewDisplay(cols, rows, preference, overwrite), events)
    ensures var d := NewDisplay(cols, rows, preference, overwrite);
            var before, after := Session(t, d, events[..|events| - 1]).display, Session(t, d, events).display;
            var h := events[|events| - 1];
      if Writes(before, h.event, after.predictor) then after.shown.Some? && Presents(t, after, after.shown.value)
      else after.shown == before.shown || (before.shown.None? && after.shown == Some(before.host))
  {
    hide InShape, EventsOk, EventOk, Handle, Presents, NewDisplay, Writes;
    var d := NewDisplay(cols, rows, preference, overwrite);
    var h := events[|events| - 1];
    NewInShape(t, cols, rows, preference, overwrite);
    EventsInit(t, d, events);
    SessionInShape(t, d, events[..|events| - 1]);
    EventShows(t, Session(t, d, events[..|events| - 1]).display, h.event, h.now);
  }
}
