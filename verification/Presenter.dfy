/** The display pipeline as the object the client drives. */
module Presenter {
  import opened Basics
  import opened Cells
  import opened Screen
  import opened Printer
  import opened Prediction
  import opened Pipeline
  import opened Speculation

  class DisplayPipeline {
    var hostFb: Frame
    var lastShown: Option<Frame>
    const predictor: Speculator
    var usingOverlayPath: bool
    var notification: Option<seq<char>>
    var hostUpdated: bool

    function Value(): Display
      reads this, predictor
    {
      Display(hostFb, lastShown, predictor.Value(), usingOverlayPath, notification, hostUpdated)
    }

    constructor (cols: nat, rows: nat, preference: Preference, overwrite: bool)
      ensures Value() == NewDisplay(cols, rows, preference, overwrite) && fresh(predictor)
    {
      hostFb, lastShown := NewFrame(cols, rows), None;
      predictor := new Speculator(preference, overwrite);
      usingOverlayPath := preference.Always? || preference.Experimental?;
      notification, hostUpdated := None, false;
    }

    method Emit(frame: Frame) returns (bytes: seq<byte>)
      modifies this`lastShown
      ensures Output(Value(), bytes) == Render(old(Value()), frame)
    {
      hide FrameDiff;
      bytes := FrameDiff(frame, lastShown);
      lastShown := Some(frame);
    }

    /** Host frame, guesses and notification, as one difference. */
    method RenderOverlayPath(t: Widths) returns (bytes: seq<byte>)
      modifies this`lastShown, this`usingOverlayPath
      ensures Output(Value(), bytes) == RenderOverlay(t, old(Value()))
    {
      hide Render, Composed;
      var frame := Composed(t, Value());
      ghost var d := Value();
      usingOverlayPath := true;
      assert Value() == d.(overlayPath := true);
      bytes := Emit(frame);
    }

    method RenderHostOnly() returns (bytes: seq<byte>)
      modifies this`lastShown, this`usingOverlayPath
      ensures Output(Value(), bytes) == RenderHost(old(Value()))
    {
      hide Render;
      ghost var d := Value();
      usingOverlayPath := false;
      assert Value() == d.(overlayPath := false);
      bytes := Emit(hostFb);
    }

    method BaseShown()
      modifies this`lastShown
      ensures Value() == Based(old(Value()))
    {
      if lastShown.None? {
        lastShown := Some(hostFb);
      }
    }

    method SetNotification(t: Widths, message: Option<seq<char>>) returns (bytes: seq<byte>)
      modifies this
      ensures Output(Value(), bytes) == SetNotice(t, old(Value()), message)
    {
      hide RenderOverlay, RenderHost, Based;
      if notification == message {
        return [];
      }
      ghost var d := Value();
      notification := message;
      ghost var e := Value();
      assert e == d.(notice := message);
      if message.Some? {
        BaseShown();
        bytes := RenderOverlayPath(t);
      } else if predictor.show {
        bytes := RenderOverlayPath(t);
      } else {
        bytes := RenderHostOnly();
      }
    }

    method KeysPressed(t: Widths, keys: seq<byte>, now: nat) returns (bytes: seq<byte>)
      modifies this, predictor
      ensures Output(Value(), bytes) == OnKeystroke(t, old(Value()), keys, now)
    {
      hide RenderOverlay, Based, Keystroke, SetCursor;
      if predictor.preference.Never? {
        return [];
      }
      ghost var d := Value();
      if !predictor.active {
        predictor.FollowCursor(hostFb.cursor.x, hostFb.cursor.y);
      }
      predictor.Keys(t, keys, hostFb, now);
      ghost var e := Value();
      assert e == d.(predictor := predictor.Value());
      if !predictor.show {
        return [];
      }
      BaseShown();
      bytes := RenderOverlayPath(t);
    }

    method RoundTrip(t: Widths, srtt: Option<nat>) returns (bytes: seq<byte>)
      modifies this, predictor
      ensures Output(Value(), bytes) == OnSrtt(t, old(Value()), srtt)
    {
      hide RenderOverlay, RenderHost, Based, SetSrtt;
      ghost var d := Value();
      var wasShow, wasFlag := predictor.show, predictor.flagging;
      predictor.SetRoundTrip(srtt);
      ghost var e := Value();
      assert e == d.(predictor := SetSrtt(d.predictor, srtt));
      if wasShow && !predictor.show {
        if notification.Some? {
          bytes := RenderOverlayPath(t);
        } else {
          bytes := RenderHostOnly();
        }
        return;
      }
      if !wasShow && predictor.show {
        BaseShown();
        usingOverlayPath := true;
        ghost var e2 := Value();
        assert e2 == Based(e).(overlayPath := true);
        if predictor.active || predictor.pending != [] {
          bytes := RenderOverlayPath(t);
          return;
        }
      }
      if predictor.show && wasFlag != predictor.flagging && usingOverlayPath {
        bytes := RenderOverlayPath(t);
        return;
      }
      bytes := [];
    }

    method HostFrameArrived(t: Widths, frame: Frame, now: nat) returns (bytes: seq<byte>)
      modifies this, predictor
      ensures Output(Value(), bytes) == OnHostFrame(t, old(Value()), frame, now)
    {
      hide RenderOverlay, RenderHost, Confirm, Reset, SetCursor, SamplePendingAge, FrameDiff;
      ghost var d := Value();
      var geometry := hostFb.cols != frame.cols || hostFb.rows != frame.rows || hostFb.scrolls != frame.scrolls;
      hostUpdated := hostUpdated || FrameDiff(frame, Some(hostFb)) != [];
      hostFb := frame;
      if geometry {
        predictor.ResetAll();
      }
      predictor.FollowCursor(frame.cursor.x, frame.cursor.y);
      predictor.ConfirmAgainst(frame, now);
      predictor.SampleAge(now);
      ghost var e := Value();
      assert e == d.(host := frame, hostUpdated := hostUpdated, predictor := predictor.Value());
      if !predictor.show && notification.None? {
        bytes := RenderHostOnly();
      } else {
        bytes := RenderOverlayPath(t);
      }
    }

    /** The frames sent and echoed: an echo alone may settle guesses. */
    method FramesReported(t: Widths, sent: nat, early: nat, late: nat, now: nat) returns (bytes: seq<byte>)
      modifies this, predictor
      ensures Output(Value(), bytes) == OnFrames(t, old(Value()), sent, early, late, now)
    {
      hide RenderOverlay, RenderHost, Based, Confirm, SamplePendingAge, ObserveLateAck, SetFrames, Differs;
      ghost var d := Value();
      var before := predictor.Value();
      var updated := hostUpdated;
      hostUpdated := false;
      predictor.SeeFrames(sent, early, late);
      predictor.Observe(updated);
      ghost var e := Value();
      assert e == d.(predictor := ObserveLateAck(SetFrames(d.predictor, sent, early, late), d.hostUpdated), hostUpdated := false);
      if before.pending == [] && !before.active {
        return [];
      }
      predictor.ConfirmAgainst(hostFb, now);
      predictor.SampleAge(now);
      ghost var e2 := Value();
      assert e2 == e.(predictor := SamplePendingAge(Confirm(e.predictor, d.host, now), now));
      if !Differs(before, predictor.Value()) {
        return [];
      }
      if predictor.show || notification.Some? {
        BaseShown();
        bytes := RenderOverlayPath(t);
      } else if usingOverlayPath {
        bytes := RenderHostOnly();
      } else {
        bytes := [];
      }
    }

    method Tick(t: Widths, now: nat) returns (bytes: seq<byte>)
      modifies this, predictor
      ensures Output(Value(), bytes) == OnTick(t, old(Value()), now)
    {
      hide RenderOverlay, RenderHost, SamplePendingAge;
      ghost var d := Value();
      var wasShow, wasFlag, wasOverlay := predictor.show, predictor.flagging, usingOverlayPath;
      predictor.SampleAge(now);
      ghost var e := Value();
      assert e == d.(predictor := SamplePendingAge(d.predictor, now));
      if wasFlag == predictor.flagging && wasShow == predictor.show {
        return [];
      }
      if predictor.pending == [] && !predictor.show && notification.None? {
        bytes := RenderHostOnly();
        return;
      }
      bytes := RenderOverlayPath(t);
      SetPath(wasOverlay || predictor.show);
    }

    method SetPath(path: bool)
      modifies this`usingOverlayPath
      ensures Value() == old(Value()).(overlayPath := path)
    {
      usingOverlayPath := path;
    }
  }
}
