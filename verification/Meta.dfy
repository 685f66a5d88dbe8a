/** What the printer's metadata does: titles, switches and margins, before any cell. */
module Meta {
  import opened Basics
  import opened Lexer
  import opened Cells
  import opened Screen
  import opened Printer
  import opened Reading

  // -------------------------------------------------------------------------- effects

  predicate EffectsOk(e: Effects) {
    && (e.icon.Some? ==> Clean(e.icon.value))
    && (e.title.Some? ==> Clean(e.title.value))
    && (e.clipboard.Some? ==> Clean(e.clipboard.value))
  }

  /** The terminal has the titles of the frame, where it has any. */
  predicate TitlesShown(e: Effects, next: Effects) {
    && (next.icon.Some? ==> e.icon == next.icon)
    && (next.title.Some? ==> e.title == next.title)
  }

  function WithEffects(s: Screen, e: Effects): Screen { s.(frame := s.frame.(effects := e)) }

  lemma {:induction false} TakesBell(t: Widths, s: Screen) returns (e: Effects)
    ensures Takes(t, s, [BEL], WithEffects(s, e))
    ensures e == s.frame.effects.(bells := e.bells)
  {
    hide Takes;
    TakesOne(t, s, [BEL], Control(BEL));
    e := s.frame.effects.(bells := WrapInc(s.frame.effects.bells));
  }

  lemma {:induction false} AppliesIcon(f: Frame, v: seq<byte>)
    ensures ApplyOsc(f, OSC_ICON + v) == f.(effects := f.effects.(icon := Some(v)))
  {
    var p := OSC_ICON + v;
    assert p[0] == 0x31 && p[2..] == v && OSC_ICON <= p;
  }

  lemma {:induction false} AppliesTitle(f: Frame, v: seq<byte>)
    ensures ApplyOsc(f, OSC_TITLE + v) == f.(effects := f.effects.(title := Some(v)))
  {
    var p := OSC_TITLE + v;
    assert p[0] == 0x32 && p[2..] == v && OSC_TITLE <= p;
  }

  lemma {:induction false} AppliesBoth(f: Frame, v: seq<byte>)
    ensures ApplyOsc(f, OSC_BOTH + v) == f.(effects := f.effects.(icon := Some(v), title := Some(v)))
  {
    var p := OSC_BOTH + v;
    assert p[2..] == v && OSC_BOTH <= p;
  }

  lemma {:induction false} AppliesClipboard(f: Frame, v: seq<byte>)
    ensures ApplyOsc(f, OSC_CLIPBOARD + v) == f.(effects := f.effects.(clipboard := Some(v)))
  {
    var p := OSC_CLIPBOARD + v;
    assert p[0] == 0x35 && p[5..] == v && OSC_CLIPBOARD <= p;
  }

  lemma {:induction false} TakesTitles(t: Widths, s: Screen, next: Effects, icon: bool, title: bool) returns (e: Effects)
    requires EffectsOk(next)
    requires !icon && next.icon.Some? ==> s.frame.effects.icon == next.icon
    requires !title && next.title.Some? ==> s.frame.effects.title == next.title
    ensures Takes(t, s, Titles(next, icon, title), WithEffects(s, e)) && TitlesShown(e, next)
  {
    hide Takes, OscBytes, ApplyOsc, Clean;
    var was := s.frame.effects;
    if (icon || title) && next.icon.Some? && next.icon == next.title {
      TakesOsc(t, s, OSC_BOTH, next.icon.value);
      AppliesBoth(s.frame, next.icon.value);
      e := was.(icon := next.icon, title := next.icon);
    } else {
      var e1 := if icon && next.icon.Some? then was.(icon := next.icon) else was;
      e := if title && next.title.Some? then e1.(title := next.title) else e1;
      TakesIcon(t, s, next, icon);
      TakesTitle(t, WithEffects(s, e1), next, title);
      TakesThen(t, s, if icon && next.icon.Some? then OscBytes(OSC_ICON, next.icon.value) else [], WithEffects(s, e1),
                if title && next.title.Some? then OscBytes(OSC_TITLE, next.title.value) else [], WithEffects(s, e));
    }
  }

  lemma {:induction false} TakesIcon(t: Widths, s: Screen, next: Effects, icon: bool)
    requires EffectsOk(next)
    ensures var was := s.frame.effects;
      Takes(t, s, if icon && next.icon.Some? then OscBytes(OSC_ICON, next.icon.value) else [],
            WithEffects(s, if icon && next.icon.Some? then was.(icon := next.icon) else was))
  {
    hide Takes, OscBytes, ApplyOsc, Clean;
    if icon && next.icon.Some? {
      TakesOsc(t, s, OSC_ICON, next.icon.value);
      AppliesIcon(s.frame, next.icon.value);
    } else {
      assert WithEffects(s, s.frame.effects) == s;
      TakesNothing(t, s);
    }
  }

  lemma {:induction false} TakesTitle(t: Widths, s: Screen, next: Effects, title: bool)
    requires EffectsOk(next)
    ensures var was := s.frame.effects;
      Takes(t, s, if title && next.title.Some? then OscBytes(OSC_TITLE, next.title.value) else [],
            WithEffects(s, if title && next.title.Some? then was.(title := next.title) else was))
  {
    hide Takes, OscBytes, ApplyOsc, Clean;
    if title && next.title.Some? {
      TakesOsc(t, s, OSC_TITLE, next.title.value);
      AppliesTitle(s.frame, next.title.value);
    } else {
      assert WithEffects(s, s.frame.effects) == s;
      TakesNothing(t, s);
    }
  }

  lemma {:induction false} TakesClipboard(t: Widths, s: Screen, next: Effects, changed: bool) returns (e: Effects)
    requires EffectsOk(next)
    ensures Takes(t, s, if changed then OscBytes(OSC_CLIPBOARD, ValueOr(next.clipboard)) else [], WithEffects(s, e))
    ensures e == s.frame.effects.(clipboard := e.clipboard)
  {
    hide Takes, OscBytes, ApplyOsc;
    if changed {
      TakesOsc(t, s, OSC_CLIPBOARD, ValueOr(next.clipboard));
      AppliesClipboard(s.frame, ValueOr(next.clipboard));
      e := s.frame.effects.(clipboard := Some(ValueOr(next.clipboard)));
    } else {
      TakesNothing(t, s);
      e := s.frame.effects;
      assert WithEffects(s, e) == s;
    }
  }

  // ------------------------------------------------------------------------- switches

  predicate ReportingMode(m: nat) { m == 0 || m == 9 || 1000 <= m <= 1003 }

  predicate EncodingMode(m: nat) { m == 0 || m == 1005 || m == 1006 || m == 1015 }

  predicate SwitchesOk(s: Switches) { ReportingMode(s.mouseReporting) && EncodingMode(s.mouseEncoding) }

  function WithSwitches(s: Screen, w: Switches): Screen { s.(frame := s.frame.(switches := w)) }

  lemma {:induction false} TakesSwitch(t: Widths, s: Screen, mode: nat, next: bool, prev: bool, force: bool, w: Switches)
    requires mode < U32_SIZE
    requires SetPrivateMode(s.frame, mode, next) == s.frame.(switches := w)
    requires !force && next == prev ==> w == s.frame.switches
    ensures Takes(t, s, SwitchDiff(mode, next, prev, force), WithSwitches(s, w))
  {
    hide Takes, PrivateMode, SetPrivateMode;
    if force || next != prev {
      TakesPrivateMode(t, s, mode, next);
    } else {
      assert WithSwitches(s, w) == s;
      TakesNothing(t, s);
    }
  }

  /** Switching a list of modes off, one by one. */
  function AllOff(f: Frame, modes: seq<nat>): Frame
    decreases |modes|
  {
    if modes == [] then f else AllOff(SetPrivateMode(f, modes[0], false), modes[1..])
  }

  lemma {:induction false} TakesSwitchOff(t: Widths, s: Screen, modes: seq<nat>)
    requires forall i :: 0 <= i < |modes| ==> modes[i] < U32_SIZE
    ensures Takes(t, s, SwitchOff(modes), s.(frame := AllOff(s.frame, modes)))
    decreases |modes|
  {
    hide Takes, PrivateMode, SetPrivateMode;
    if modes == [] {
      TakesNothing(t, s);
    } else {
      var s1 := s.(frame := SetPrivateMode(s.frame, modes[0], false));
      TakesPrivateMode(t, s, modes[0], false);
      TakesSwitchOff(t, s1, modes[1..]);
      TakesThen(t, s, PrivateMode(modes[0], false), s1, SwitchOff(modes[1..]), s.(frame := AllOff(s.frame, modes)));
    }
  }

  lemma {:induction false} AllOffStep(f: Frame, m: nat, modes: seq<nat>)
    ensures AllOff(f, [m] + modes) == AllOff(SetPrivateMode(f, m, false), modes)
  {
    assert ([m] + modes)[1..] == modes;
  }

  function ReportingOff(f: Frame, m: nat): Frame {
    if f.switches.mouseReporting == m then f.(switches := f.switches.(mouseReporting := 0)) else f
  }

  function EncodingOff(f: Frame, m: nat): Frame {
    if f.switches.mouseEncoding == m then f.(switches := f.switches.(mouseEncoding := 0)) else f
  }

  lemma {:induction false} ReportingOffIs(f: Frame, m: nat)
    requires m == 9 || 1000 <= m <= 1003
    ensures SetPrivateMode(f, m, false) == ReportingOff(f, m)
  {}

  lemma {:induction false} EncodingOffIs(f: Frame, m: nat)
    requires m == 1005 || m == 1006 || m == 1015
    ensures SetPrivateMode(f, m, false) == EncodingOff(f, m)
  {}

  lemma {:induction false} AllReportingOff(f: Frame)
    requires ReportingMode(f.switches.mouseReporting)
    ensures AllOff(f, REPORTING_MODES) == f.(switches := f.switches.(mouseReporting := 0))
  {
    hide AllOff, SetPrivateMode;
    var f1 := ReportingOff(f, 1003);
    var f2 := ReportingOff(f1, 1002);
    var f3 := ReportingOff(f2, 1001);
    var f4 := ReportingOff(f3, 1000);
    assert REPORTING_MODES == [1003] + ([1002] + ([1001] + ([1000] + ([9] + []))));
    ReportingOffIs(f, 1003);
    ReportingOffIs(f1, 1002);
    ReportingOffIs(f2, 1001);
    ReportingOffIs(f3, 1000);
    ReportingOffIs(f4, 9);
    AllOffStep(f, 1003, [1002] + ([1001] + ([1000] + ([9] + []))));
    AllOffStep(f1, 1002, [1001] + ([1000] + ([9] + [])));
    AllOffStep(f2, 1001, [1000] + ([9] + []));
    AllOffStep(f3, 1000, [9] + []);
    AllOffStep(f4, 9, []);
    AllOffNone(ReportingOff(f4, 9));
  }

  lemma {:induction false} AllOffNone(f: Frame)
    ensures AllOff(f, []) == f
  {}

  lemma {:induction false} AllEncodingOff(f: Frame)
    requires EncodingMode(f.switches.mouseEncoding)
    ensures AllOff(f, ENCODING_MODES) == f.(switches := f.switches.(mouseEncoding := 0))
  {
    hide AllOff, SetPrivateMode;
    var f1 := EncodingOff(f, 1015);
    var f2 := EncodingOff(f1, 1006);
    assert ENCODING_MODES == [1015] + ([1006] + ([1005] + []));
    EncodingOffIs(f, 1015);
    EncodingOffIs(f1, 1006);
    EncodingOffIs(f2, 1005);
    AllOffStep(f, 1015, [1006] + ([1005] + []));
    AllOffStep(f1, 1006, [1005] + []);
    AllOffStep(f2, 1005, []);
    AllOffNone(EncodingOff(f2, 1005));
  }

  /** Everything of the kind off: `off` is the frame after that. */
  lemma {:induction false} TakesChoiceOff(t: Widths, s: Screen, prev: nat, all: seq<nat>, force: bool, off: Frame)
    requires prev < U32_SIZE && forall i :: 0 <= i < |all| ==> all[i] < U32_SIZE
    requires force ==> AllOff(s.frame, all) == off
    requires !force && prev != 0 ==> SetPrivateMode(s.frame, prev, false) == off
    requires !force && prev == 0 ==> s.frame == off
    ensures Takes(t, s, if force then SwitchOff(all) else if prev != 0 then PrivateMode(prev, false) else [],
                  s.(frame := off))
  {
    hide Takes, PrivateMode, SetPrivateMode, SwitchOff, AllOff;
    if force {
      TakesSwitchOff(t, s, all);
    } else if prev != 0 {
      TakesPrivateMode(t, s, prev, false);
    } else {
      TakesNothing(t, s);
    }
  }

  lemma {:induction false} TakesChoiceOn(t: Widths, s: Screen, next: nat, on: Frame)
    requires next < U32_SIZE && (if next != 0 then SetPrivateMode(s.frame, next, true) == on else s.frame == on)
    ensures Takes(t, s, if next != 0 then PrivateMode(next, true) else [], s.(frame := on))
  {
    hide Takes, PrivateMode, SetPrivateMode;
    if next != 0 {
      TakesPrivateMode(t, s, next, true);
    } else {
      TakesNothing(t, s);
    }
  }

  lemma {:induction false} TakesChoice(t: Widths, s: Screen, next: nat, prev: nat, all: seq<nat>, force: bool, off: Frame, on: Frame)
    requires prev < U32_SIZE && next < U32_SIZE && forall i :: 0 <= i < |all| ==> all[i] < U32_SIZE
    requires force ==> AllOff(s.frame, all) == off
    requires !force && prev != 0 ==> SetPrivateMode(s.frame, prev, false) == off
    requires !force && prev == 0 ==> s.frame == off
    requires if next != 0 then SetPrivateMode(off, next, true) == on else off == on
    requires !force && next == prev ==> on == s.frame
    ensures Takes(t, s, ChoiceDiff(next, prev, all, force), s.(frame := on))
  {
    hide Takes, PrivateMode, SetPrivateMode, SwitchOff, AllOff;
    if force || next != prev {
      TakesChoiceOff(t, s, prev, all, force, off);
      TakesChoiceOn(t, s.(frame := off), next, on);
      TakesThen(t, s, if force then SwitchOff(all) else if prev != 0 then PrivateMode(prev, false) else [], s.(frame := off),
                if next != 0 then PrivateMode(next, true) else [], s.(frame := on));
    } else {
      TakesNothing(t, s);
    }
  }

  lemma {:induction false} ReportingOnIs(f: Frame, m: nat)
    requires ReportingMode(m) && m != 0
    ensures SetPrivateMode(f, m, true) == f.(switches := f.switches.(mouseReporting := m))
  {}

  lemma {:induction false} EncodingOnIs(f: Frame, m: nat)
    requires EncodingMode(m) && m != 0
    ensures SetPrivateMode(f, m, true) == f.(switches := f.switches.(mouseEncoding := m))
  {}

  lemma {:induction false} TakesReporting(t: Widths, s: Screen, next: nat, prev: nat, force: bool)
    requires ReportingMode(next) && ReportingMode(s.frame.switches.mouseReporting)
    requires ReportingMode(prev) && (force || s.frame.switches.mouseReporting == prev)
    ensures Takes(t, s, ChoiceDiff(next, prev, REPORTING_MODES, force),
                  WithSwitches(s, s.frame.switches.(mouseReporting := next)))
  {
    hide Takes, SetPrivateMode, AllOff, ChoiceDiff;
    var off := s.frame.(switches := s.frame.switches.(mouseReporting := 0));
    var on := s.frame.(switches := s.frame.switches.(mouseReporting := next));
    AllReportingOff(s.frame);
    if prev != 0 {
      ReportingOffIs(s.frame, prev);
    }
    if next != 0 {
      ReportingOnIs(off, next);
    }
    TakesChoice(t, s, next, prev, REPORTING_MODES, force, off, on);
  }

  lemma {:induction false} TakesEncoding(t: Widths, s: Screen, next: nat, prev: nat, force: bool)
    requires EncodingMode(next) && EncodingMode(s.frame.switches.mouseEncoding)
    requires EncodingMode(prev) && (force || s.frame.switches.mouseEncoding == prev)
    ensures Takes(t, s, ChoiceDiff(next, prev, ENCODING_MODES, force),
                  WithSwitches(s, s.frame.switches.(mouseEncoding := next)))
  {
    hide Takes, SetPrivateMode, AllOff, ChoiceDiff;
    var off := s.frame.(switches := s.frame.switches.(mouseEncoding := 0));
    var on := s.frame.(switches := s.frame.switches.(mouseEncoding := next));
    AllEncodingOff(s.frame);
    if prev != 0 {
      EncodingOffIs(s.frame, prev);
    }
    if next != 0 {
      EncodingOnIs(off, next);
    }
    TakesChoice(t, s, next, prev, ENCODING_MODES, force, off, on);
  }

  // -------------------------------------------------------------------- all together

  predicate Known(s: Screen, prev: Option<Frame>, force: bool) {
    && SwitchesOk(s.frame.switches) && SwitchesOk(PrevSwitches(prev))
    && (force || (TitlesShown(s.frame.effects, PrevEffects(prev)) && s.frame.switches == PrevSwitches(prev)))
  }

  lemma {:induction false} TakesBells(t: Widths, s: Screen, ring: bool) returns (e: Effects)
    ensures Takes(t, s, if ring then [BEL] else [], WithEffects(s, e))
    ensures e == s.frame.effects.(bells := e.bells)
  {
    hide Takes;
    if ring {
      e := TakesBell(t, s);
    } else {
      TakesNothing(t, s);
      e := s.frame.effects;
      assert WithEffects(s, e) == s;
    }
  }

  lemma {:induction false} TakesEffects(t: Widths, s: Screen, next: Frame, prev: Option<Frame>, force: bool) returns (e: Effects)
    requires EffectsOk(next.effects) && Known(s, prev, force)
    ensures Takes(t, s, EffectBytes(next, prev, force), WithEffects(s, e)) && TitlesShown(e, next.effects)
  {
    hide Takes, OscBytes, Titles, EffectsOk, SwitchesOk;
    var was := PrevEffects(prev);
    var bell := if next.effects.bells != was.bells then [BEL] else [];
    var e1 := TakesBells(t, s, next.effects.bells != was.bells);
    var icon, title := force || next.effects.icon != was.icon, force || next.effects.title != was.title;
    var e2 := TakesTitles(t, WithEffects(s, e1), next.effects, icon, title);
    e := TakesClipboard(t, WithEffects(s, e2), next.effects, next.effects.clipboard != was.clipboard);
    var clip := if next.effects.clipboard != was.clipboard then OscBytes(OSC_CLIPBOARD, ValueOr(next.effects.clipboard)) else [];
    TakesThen(t, WithEffects(s, e1), Titles(next.effects, icon, title), WithEffects(s, e2), clip, WithEffects(s, e));
    TakesThen(t, s, bell, WithEffects(s, e1), Titles(next.effects, icon, title) + clip, WithEffects(s, e));
  }

  lemma {:induction false} SwitchModes(f: Frame, on: bool)
    ensures SetPrivateMode(f, 5, on) == f.(switches := f.switches.(reverseVideo := on))
    ensures SetPrivateMode(f, 2004, on) == f.(switches := f.switches.(bracketedPaste := on))
    ensures SetPrivateMode(f, 1004, on) == f.(switches := f.switches.(mouseFocus := on))
    ensures SetPrivateMode(f, 25, on) == f.(switches := f.switches.(cursorVisible := on))
  {}

  lemma {:induction false} TakesSwitches(t: Widths, s: Screen, n: Switches, p: Switches, force: bool)
    requires SwitchesOk(n) && SwitchesOk(p) && SwitchesOk(s.frame.switches) && (force || s.frame.switches == p)
    ensures Takes(t, s, SwitchBytes(n, p, force), WithSwitches(s, n.(cursorVisible := s.frame.switches.cursorVisible)))
  {
    hide Takes, SetPrivateMode, SwitchDiff, ChoiceDiff;
    var w := s.frame.switches;
    var w1 := w.(reverseVideo := n.reverseVideo);
    var w2 := w1.(bracketedPaste := n.bracketedPaste);
    var w3 := w2.(mouseReporting := n.mouseReporting);
    var w4 := w3.(mouseFocus := n.mouseFocus);
    var w5 := w4.(mouseEncoding := n.mouseEncoding);
    var s1, s2, s3, s4, s5 := WithSwitches(s, w1), WithSwitches(s, w2), WithSwitches(s, w3), WithSwitches(s, w4), WithSwitches(s, w5);
    SwitchModes(s.frame, n.reverseVideo);
    SwitchModes(s1.frame, n.bracketedPaste);
    SwitchModes(s3.frame, n.mouseFocus);
    TakesSwitch(t, s, 5, n.reverseVideo, p.reverseVideo, force, w1);
    TakesSwitch(t, s1, 2004, n.bracketedPaste, p.bracketedPaste, force, w2);
    TakesReporting(t, s2, n.mouseReporting, p.mouseReporting, force);
    TakesSwitch(t, s3, 1004, n.mouseFocus, p.mouseFocus, force, w4);
    TakesEncoding(t, s4, n.mouseEncoding, p.mouseEncoding, force);
    var b5 := ChoiceDiff(n.mouseEncoding, p.mouseEncoding, ENCODING_MODES, force);
    var b4 := SwitchDiff(1004, n.mouseFocus, p.mouseFocus, force);
    var b3 := ChoiceDiff(n.mouseReporting, p.mouseReporting, REPORTING_MODES, force);
    var b2 := SwitchDiff(2004, n.bracketedPaste, p.bracketedPaste, force);
    var b1 := SwitchDiff(5, n.reverseVideo, p.reverseVideo, force);
    TakesThen(t, s3, b4, s4, b5, s5);
    TakesThen(t, s2, b3, s3, b4 + b5, s5);
    TakesThen(t, s1, b2, s2, b3 + (b4 + b5), s5);
    TakesThen(t, s, b1, s1, b2 + (b3 + (b4 + b5)), s5);
  }

  /** The terminal after the metadata: `e` is what the effects have become. */
  function AfterMeta(s: Screen, next: Frame, e: Effects, margins: bool): Screen {
    var w := next.switches.(cursorVisible := s.frame.switches.cursorVisible);
    var f := s.frame.(effects := e, switches := w);
    s.(frame := if margins then MoveTo(f.(margins := next.margins), 0, 0) else f)
  }

  predicate MetaReady(s: Screen, next: Frame) {
    && Shaped(s.frame) && s.frame.rows == next.rows < U32_SIZE && !s.frame.modes.origin
    && EffectsOk(next.effects) && SwitchesOk(next.switches) && MarginsOk(next.margins, next.rows)
  }

  lemma {:induction false} TakesMarginDiff(t: Widths, s: Screen, next: Frame, changed: bool)
    requires MetaReady(s, next)
    ensures Takes(t, s, if changed then MarginBytes(next.margins, next.rows) else [],
                  s.(frame := if changed then MoveTo(s.frame.(margins := next.margins), 0, 0) else s.frame))
  {
    hide Takes, MarginBytes, MoveTo, EffectsOk, SwitchesOk;
    if changed {
      TakesMargins(t, s, next.margins);
    } else {
      TakesNothing(t, s);
    }
  }

  lemma {:induction false} TakesMetadata(t: Widths, s: Screen, next: Frame, prev: Option<Frame>, force: bool) returns (e: Effects)
    requires MetaReady(s, next) && Known(s, prev, force)
    ensures Takes(t, s, Metadata(next, prev, force), AfterMeta(s, next, e, MarginsChanged(next, prev, force)))
    ensures TitlesShown(e, next.effects)
  {
    hide Takes, MarginBytes, MoveTo, EffectsOk, SwitchesOk, EffectBytes, SwitchBytes, MarginsOk, TitlesShown, Shaped;
    e := TakesEffects(t, s, next, prev, force);
    var s1 := WithEffects(s, e);
    var s2 := WithSwitches(s1, next.switches.(cursorVisible := s.frame.switches.cursorVisible));
    TakesSwitches(t, s1, next.switches, PrevSwitches(prev), force);
    var changed := MarginsChanged(next, prev, force);
    MetaShape(s, s2);
    TakesMarginDiff(t, s2, next, changed);
    var bytes := if changed then MarginBytes(next.margins, next.rows) else [];
    TakesThen(t, s1, SwitchBytes(next.switches, PrevSwitches(prev), force), s2, bytes, AfterMeta(s, next, e, changed));
    TakesThen(t, s, EffectBytes(next, prev, force), s1, SwitchBytes(next.switches, PrevSwitches(prev), force) + bytes, AfterMeta(s, next, e, changed));
  }

  lemma {:induction false} MetaShape(s: Screen, s': Screen)
    requires s' == s.(frame := s.frame.(effects := s'.frame.effects, switches := s'.frame.switches))
    ensures Shaped(s'.frame) == Shaped(s.frame)
  {}
}
