/** Typed text on the terminal: keystrokes, guesses, overlay, printer and interpreter together. */
module LocalEcho {
  import opened Basics
  import opened Lexer
  import opened Sgr
  import opened Cells
  import opened Screen
  import opened Printer
  import opened Reading
  import opened Repaint
  import opened Prediction
  import opened Guesses
  import opened Typing
  import opened Insertion
  import opened Pipeline

  /** The predictor that meets the next keys: an idle one takes up the host's cursor first. */
  function Following(d: Display): Predictor {
    if d.predictor.active then d.predictor else SetCursor(d.predictor, d.host.cursor.x, d.host.cursor.y)
  }

  /** Guesses are shown, those typed next will be, and no message covers them. */
  predicate ReadyToEcho(t: Widths, d: Display) {
    && Confirmed(t, Following(d), d.host) && Following(d).show && Following(d).esc == [] && d.notice.None?
    && !d.predictor.preference.Never? && !d.predictor.preference.Experimental?
  }

  predicate Typeable(t: Widths, d: Display, text: seq<char>) {
    NarrowText(t, text) && Following(d).x + |text| < d.host.cols && |TextBytes(text)| <= 100
  }

  lemma {:induction false} OverlayNarrowFrame(t: Widths, p: Predictor, host: Frame)
    requires NarrowFrame(t, host) && AllSound(t, host.cols, p.pending)
    ensures NarrowFrame(t, Overlay(p, host)) && SameSize(Overlay(p, host), host)
  {
    hide NarrowFrame, OverlayUpTo, OverlayCursors, AllSound;
    NarrowSize(t, host);
    OverlayNarrow(t, p, host, |p.pending|);
    CursorsNarrow(t, p, OverlayUpTo(p, host, |p.pending|), |p.cursors|);
  }

  lemma {:induction false} NarrowWidths(t: Widths, f: Frame, x: nat, y: nat)
    requires NarrowFrame(t, f) && y < f.rows && x < f.cols
    ensures f.grid[y][x].width == 1
  {
    hide GlyphOk, LinkOk, MarginsOk;
    assert NarrowRow(t, f.links, f.grid[y]);
    assert NarrowCell(t, f.grid[y][x]);
  }

  /** What a terminal shows of a row of single columns is the text of that row. */
  lemma {:induction false} RowOnGlass(t: Widths, s: Screen, f: Frame, y: nat)
    requires ShowsWhole(s, f) && NarrowFrame(t, f) && y < f.rows
    ensures RowText(s.frame, y) == RowText(f, y)
  {
    hide NarrowFrame, WholeGlyphs, Displays;
    NarrowSize(t, f);
    DisplayedSize(s, f);
    forall x | 0 <= x < f.cols
      ensures RowText(s.frame, y)[x] == RowText(f, y)[x]
    {
      WholeShown(s, f, y, x);
      NarrowWidths(t, f, x, y);
    }
  }

  lemma {:induction false} DisplayedSize(s: Screen, f: Frame)
    requires Displays(s, f)
    ensures SameSize(f, s.frame)
  {}

  lemma {:induction false} SetCursorSame(p: Predictor, x: nat, y: nat)
    ensures SetCursor(p, x, y).preference == p.preference
  {}

  lemma {:induction false} KeysShown(t: Widths, d: Display, keys: seq<byte>, now: nat)
    requires var q := Keystroke(t, Following(d), keys, d.host, now); q.show && d.notice.None? && !d.predictor.preference.Never?
    ensures OnKeystroke(t, d, keys, now).display.shown == Some(Overlay(Keystroke(t, Following(d), keys, d.host, now), d.host))
  {
    hide Keystroke, Overlay, FrameDiff, SetCursor;
  }

  lemma {:induction false} NarrowHost(t: Widths, s: Screen, d: Display)
    requires Agrees(t, s, d)
    ensures NarrowFrame(t, d.host) && Shaped(d.host)
  {
    hide NarrowFrame;
    NarrowSize(t, d.host);
  }

  lemma {:induction false} ShownAgrees(t: Widths, s: Screen, d: Display)
    requires Agrees(t, s, d) && d.shown.Some?
    ensures ShowsWhole(s, d.shown.value)
  {}

  lemma {:induction false} TypingKeepsShow(t: Widths, p: Predictor, host: Frame, text: seq<char>, now: nat)
    requires Confirmed(t, p, host) && p.show && p.esc == [] && !p.preference.Never? && !p.preference.Experimental?
    requires NarrowText(t, text) && p.x + |text| < host.cols && |TextBytes(text)| <= 100
    ensures Keystroke(t, p, TextBytes(text), host, now).show
  {
    hide PressAll, InsertAll, TextBytes, HostOk, ShownRow, Inserted;
    assert [] + TextBytes(text) == TextBytes(text);
    TextErases(t, text);
    PressAllInserts(t, p, host, text, now);
    InsertAllRow(t, p, host, text, now);
  }

  /** Typing on a confirmed, shown band of any display that agrees with its terminal: after the bytes
      written the row on the terminal is the row shown before with the text inserted at the cursor,
      the last column left to the host. */
  lemma {:induction false} TypedOnGlass(t: Widths, s: Screen, d: Display, text: seq<char>, now: nat) returns (s': Screen)
    requires Agrees(t, s, d) && ReadyToEcho(t, d) && Typeable(t, d, text)
    ensures Takes(t, s, OnKeystroke(t, d, TextBytes(text), now).bytes, s')
    ensures var p := Following(d);
      RowText(s'.frame, p.y) == Inserted(RowText(Overlay(p, d.host), p.y), p.x, text, CharAt(d.host, d.host.cols - 1, p.y))
  {
    hide Takes, Agrees, Keystroke, Overlay, OnKeystroke, TextBytes, RowText, Inserted, NarrowFrame, SetCursor, NarrowText, HostOk, Shape, AllSound;
    var p := Following(d);
    var keys := TextBytes(text);
    var q := Keystroke(t, p, keys, d.host, now);
    SetCursorSame(d.predictor, d.host.cursor.x, d.host.cursor.y);
    TypingInserts(t, p, d.host, text, now);
    TypingKeepsShow(t, p, d.host, text, now);
    s' := KeysAgree(t, s, d, keys, now);
    KeysShown(t, d, keys, now);
    ShownAgrees(t, s', OnKeystroke(t, d, keys, now).display);
    NarrowHost(t, s, d);
    KeystrokeSound(t, p, keys, d.host, now);
    OverlayNarrowFrame(t, q, d.host);
    RowOnGlass(t, s', Overlay(q, d.host), p.y);
  }

  /** The same from the start: over any session the text typed last is on the terminal. */
  lemma {:induction false} EchoOnGlass(t: Widths, cols: nat, rows: nat, preference: Preference, overwrite: bool, events: seq<Happening>, text: seq<char>, now: nat, pieces: seq<seq<byte>>) returns (s': Screen)
    requires SpaceIsNarrow(t) && cols < U32_SIZE && rows < U32_SIZE
    requires EventsOk(t, NewDisplay(cols, rows, preference, overwrite), events)
    requires var d := Session(t, NewDisplay(cols, rows, preference, overwrite), events).display;
      ReadyToEcho(t, d) && Typeable(t, d, text)
    requires Flat(pieces)
      == Session(t, NewDisplay(cols, rows, preference, overwrite), events + [Happening(KeysTyped(TextBytes(text)), now)]).bytes
    ensures FeedAll(Executing(t), Fed(Screen(NewFrame(cols, rows), PLAIN, UNSAVED), []), pieces) == Fed(s', [])
    ensures var d := Session(t, NewDisplay(cols, rows, preference, overwrite), events).display;
            var p := Following(d);
      RowText(s'.frame, p.y) == Inserted(RowText(Overlay(p, d.host), p.y), p.x, text, CharAt(d.host, d.host.cols - 1, p.y))
  {
    hide Takes, Agrees, Exec, Run, Overlay, Handle, OnKeystroke, TextBytes, RowText, Inserted, NarrowFrame, NewFrame, EventsOk, ReadyToEcho, Typeable, Following, SpaceIsNarrow;
    var s := Screen(NewFrame(cols, rows), PLAIN, UNSAVED);
    var d0 := NewDisplay(cols, rows, preference, overwrite);
    StartAgrees(t, cols, rows, preference, overwrite);
    var s1 := SessionAgrees(t, s, d0, events);
    var before := Session(t, d0, events);
    s' := TypedOnGlass(t, s1, before.display, text, now);
    SessionMore(t, d0, events, TextBytes(text), now);
    TakesThen(t, s, before.bytes, s1, OnKeystroke(t, before.display, TextBytes(text), now).bytes, s');
    TakesAll(t, s, pieces, s');
  }

  lemma {:induction false} TakesAll(t: Widths, s: Screen, pieces: seq<seq<byte>>, s': Screen)
    requires Takes(t, s, Flat(pieces), s')
    ensures FeedAll(Executing(t), Fed(s, []), pieces) == Fed(s', [])
  {
    hide Run;
    AnySplit(Executing(t), Fed(s, []), pieces);
  }

  lemma {:induction false} StartAgrees(t: Widths, cols: nat, rows: nat, preference: Preference, overwrite: bool)
    requires SpaceIsNarrow(t) && cols < U32_SIZE && rows < U32_SIZE
    ensures Agrees(t, Screen(NewFrame(cols, rows), PLAIN, UNSAVED), NewDisplay(cols, rows, preference, overwrite))
  {
    hide ShowsWhole, NarrowFrame, NewFrame, SpaceIsNarrow;
    BlankNarrow(t, cols, rows);
    BlankShows(t, cols, rows);
  }

  lemma {:induction false} SessionMore(t: Widths, d: Display, events: seq<Happening>, keys: seq<byte>, now: nat)
    ensures var before, all := Session(t, d, events), Session(t, d, events + [Happening(KeysTyped(keys), now)]);
      all.bytes == before.bytes + OnKeystroke(t, before.display, keys, now).bytes
  {
    hide OnKeystroke;
    assert (events + [Happening(KeysTyped(keys), now)])[..|events|] == events;
  }
}
