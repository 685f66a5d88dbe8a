/** The display pipeline: host frames, guesses and the notification bar are composed into one
    frame, and only differences between such frames are ever written to the terminal. */
module Pipeline {
  import opened Basics
  import opened Lexer
  import opened Sgr
  import opened Cells
  import opened Screen
  import opened Printer
  import opened Reading
  import opened Painting
  import opened Meta
  import opened Repaint
  import opened Prediction
  import opened Typing

  datatype Display = Display(
    host: Frame, shown: Option<Frame>, predictor: Predictor, overlayPath: bool,
    notice: Option<seq<char>>, hostUpdated: bool)

  const BAR_ATTR := PLAIN.(fg := Index(7), bg := Index(4))

  function NewDisplay(cols: nat, rows: nat, preference: Preference, overwrite: bool): Display {
    Display(NewFrame(cols, rows), None, New(preference, overwrite), preference.Always? || preference.Experimental?, None, false)
  }

  // ------------------------------------------------------------------- composing frames

  /** Writes the message on the top row from column `x` on. */
  function WriteNotice(t: Widths, row: seq<Cell>, message: seq<char>, x: nat): (r: seq<Cell>)
    ensures |r| == |row|
    decreases |message|
  {
    if message == [] || x >= |row| then row
    else
      var w := DisplayWidth(t, message[0]);
      if w.None? || w.value == 0 then WriteNotice(t, row, message[1..], x)
      else WriteNotice(t, PutRow(row, x, w.value, Glyph(message[0], w.value, BAR_ATTR.(bold := true), 0)), message[1..], x + w.value)
  }

  function WithNotice(t: Widths, f: Frame, message: seq<char>): Frame {
    var g := if f.cursor.y == 0 then f.(switches := f.switches.(cursorVisible := false)) else f;
    if f.grid == [] then g
    else g.(grid := f.grid[0 := WriteNotice(t, Blanks(|f.grid[0]|, BLANK.(attr := BAR_ATTR)), message, 0)])
  }

  function Composed(t: Widths, d: Display): Frame {
    var f := if d.predictor.show then Overlay(d.predictor, d.host) else d.host;
    if d.notice.Some? then WithNotice(t, f, d.notice.value) else f
  }

  datatype Output = Output(display: Display, bytes: seq<byte>)

  /** The only way bytes are made: the difference to what was last shown. */
  function Render(d: Display, frame: Frame): Output {
    Output(d.(shown := Some(frame)), FrameDiff(frame, d.shown))
  }

  function RenderOverlay(t: Widths, d: Display): Output {
    Render(d.(overlayPath := true), Composed(t, d))
  }

  function RenderHost(d: Display): Output {
    Render(d.(overlayPath := false), d.host)
  }

  /** A terminal that was never written to shows the initial host frame. */
  function Based(d: Display): Display {
    if d.shown.None? then d.(shown := Some(d.host)) else d
  }

  // ------------------------------------------------------------------------- operations

  function SetNotice(t: Widths, d: Display, message: Option<seq<char>>): Output {
    if d.notice == message then Output(d, [])
    else
      var e := d.(notice := message);
      if message.Some? then RenderOverlay(t, Based(e))
      else if e.predictor.show then RenderOverlay(t, e)
      else RenderHost(e)
  }

  function OnKeystroke(t: Widths, d: Display, keys: seq<byte>, now: nat): Output {
    if d.predictor.preference.Never? then Output(d, [])
    else
      var p := if d.predictor.active then d.predictor else SetCursor(d.predictor, d.host.cursor.x, d.host.cursor.y);
      var e := d.(predictor := Keystroke(t, p, keys, d.host, now));
      if !e.predictor.show then Output(e, []) else RenderOverlay(t, Based(e))
  }

  predicate Differs(p: Predictor, q: Predictor) {
    |p.pending| != |q.pending| || p.active != q.active || p.x != q.x || p.y != q.y
    || p.show != q.show || p.flagging != q.flagging
  }

  function OnFrames(t: Widths, d: Display, sent: nat, early: nat, late: nat, now: nat): Output {
    var p := ObserveLateAck(SetFrames(d.predictor, sent, early, late), d.hostUpdated);
    var e := d.(predictor := p, hostUpdated := false);
    if d.predictor.pending == [] && !d.predictor.active then Output(e, [])
    else
      var q := SamplePendingAge(Confirm(p, d.host, now), now);
      var e2 := e.(predictor := q);
      if !Differs(d.predictor, q) then Output(e2, [])
      else if q.show || d.notice.Some? then RenderOverlay(t, Based(e2))
      else if d.overlayPath then RenderHost(e2)
      else Output(e2, [])
  }

  function OnSrtt(t: Widths, d: Display, srtt: Option<nat>): Output {
    var p := SetSrtt(d.predictor, srtt);
    var e := d.(predictor := p);
    if d.predictor.show && !p.show then (if d.notice.Some? then RenderOverlay(t, e) else RenderHost(e))
    else
      var e2 := if !d.predictor.show && p.show then Based(e).(overlayPath := true) else e;
      if !d.predictor.show && p.show && (p.active || p.pending != []) then RenderOverlay(t, e2)
      else if p.show && d.predictor.flagging != p.flagging && e2.overlayPath then RenderOverlay(t, e2)
      else Output(e2, [])
  }

  function OnTick(t: Widths, d: Display, now: nat): Output {
    var p := SamplePendingAge(d.predictor, now);
    var e := d.(predictor := p);
    if d.predictor.flagging == p.flagging && d.predictor.show == p.show then Output(e, [])
    else if p.pending == [] && !p.show && d.notice.None? then RenderHost(e)
    else Output(RenderOverlay(t, e).display.(overlayPath := d.overlayPath || p.show), RenderOverlay(t, e).bytes)
  }

  function OnHostFrame(t: Widths, d: Display, frame: Frame, now: nat): Output {
    var updated := d.hostUpdated || FrameDiff(frame, Some(d.host)) != [];
    var geometry := d.host.cols != frame.cols || d.host.rows != frame.rows || d.host.scrolls != frame.scrolls;
    var p := SetCursor(if geometry then Reset(d.predictor) else d.predictor, frame.cursor.x, frame.cursor.y);
    var e := d.(host := frame, hostUpdated := updated, predictor := SamplePendingAge(Confirm(p, frame, now), now));
    if !e.predictor.show && d.notice.None? then RenderHost(e) else RenderOverlay(t, e)
  }

  datatype Event =
    | HostFrame(frame: Frame)
    | KeysTyped(keys: seq<byte>)
    | FramesSeen(sent: nat, early: nat, late: nat)
    | SrttMeasured(srtt: Option<nat>)
    | Ticked
    | Notice(message: Option<seq<char>>)

  function Handle(t: Widths, d: Display, event: Event, now: nat): Output {
    match event
    case HostFrame(frame) => OnHostFrame(t, d, frame, now)
    case KeysTyped(keys) => OnKeystroke(t, d, keys, now)
    case FramesSeen(sent, early, late) => OnFrames(t, d, sent, early, late, now)
    case SrttMeasured(srtt) => OnSrtt(t, d, srtt)
    case Ticked => OnTick(t, d, now)
    case Notice(message) => SetNotice(t, d, message)
  }

  datatype Happening = Happening(event: Event, now: nat)

  /** A whole session: what is displayed in the end, and all bytes written on the way. */
  function Session(t: Widths, d: Display, events: seq<Happening>): Output {
    if events == [] then Output(d, [])
    else
      var before := Session(t, d, events[..|events| - 1]);
      var h := events[|events| - 1];
      var after := Handle(t, before.display, h.event, h.now);
      Output(after.display, before.bytes + after.bytes)
  }

  // ------------------------------------------------------------------- drawable frames

  predicate NarrowRow(t: Widths, l: Links, row: seq<Cell>) {
    forall x :: 0 <= x < |row| ==> NarrowCell(t, row[x]) && LinkOk(Resolve(l, row[x].link))
  }

  predicate NarrowFrame(t: Widths, f: Frame) {
    && Shaped(f) && f.cols < U32_SIZE && f.rows < U32_SIZE
    && (forall y :: 0 <= y < |f.grid| ==> NarrowRow(t, f.links, f.grid[y]))
    && LinkOk(ActiveLink(f)) && MarginsOk(f.margins, f.rows) && EffectsOk(f.effects) && SwitchesOk(f.switches)
  }

  lemma {:induction false} NarrowRowDrawable(t: Widths, l: Links, row: seq<Cell>)
    requires NarrowRow(t, l, row)
    ensures RowDrawable(t, l, row) && Paired(row)
  {
    hide GlyphOk, LinkOk, Resolve, StandaloneWidth, Visible;
    assert row != [] ==> NarrowCell(t, row[|row| - 1]);
  }

  lemma {:induction false} NarrowDrawable(t: Widths, f: Frame)
    requires NarrowFrame(t, f)
    ensures Drawable(t, f) && WholeGlyphs(f)
  {
    hide NarrowRow, RowDrawable, LinkOk, Paired;
    forall y | 0 <= y < |f.grid|
      ensures RowDrawable(t, f.links, f.grid[y]) && Paired(f.grid[y])
    {
      NarrowRowDrawable(t, f.links, f.grid[y]);
    }
  }

  lemma {:induction false} NarrowHostOk(t: Widths, f: Frame)
    requires NarrowFrame(t, f) && SpaceIsNarrow(t)
    ensures HostOk(t, f)
  {
    hide GlyphOk, LinkOk;
    forall y, x | 0 <= y < |f.grid| && 0 <= x < |f.grid[y]|
      ensures NarrowCell(t, f.grid[y][x])
    {
      assert NarrowRow(t, f.links, f.grid[y]);
    }
  }

  lemma {:induction false} NarrowRowSet(t: Widths, l: Links, row: seq<Cell>, x: nat, c: Cell)
    requires NarrowRow(t, l, row) && x < |row| && NarrowCell(t, c) && LinkOk(Resolve(l, c.link))
    ensures NarrowRow(t, l, row[x := c])
  {}

  lemma {:induction false} NarrowFrameSet(t: Widths, f: Frame, y: nat, row: seq<Cell>)
    requires NarrowFrame(t, f) && y < |f.grid| && |row| == f.cols && NarrowRow(t, f.links, row)
    ensures NarrowFrame(t, f.(grid := f.grid[y := row]))
  {
    hide NarrowRow, LinkOk;
  }

  lemma {:induction false} CoveredNarrow(t: Widths, c: Cell, g: Guess, left: Option<Attr>, flagging: bool, cols: nat)
    requires NarrowCell(t, c) && Sound(t, cols, g) && (left.Some? ==> CanonicalAttr(left.value))
    ensures NarrowCell(t, Covered(c, g, left, flagging, cols)) && Covered(c, g, left, flagging, cols).link == c.link
  {
    hide ContentLength, AlikeButUnder;
    AttrOnly(t, c, c.attr.(under := true));
  }

  /** Only the attributes change: a glyph that was fit to print still is. */
  lemma {:induction false} AttrOnly(t: Widths, c: Cell, attr: Attr)
    requires GlyphOk(t, c) && CanonicalAttr(attr)
    ensures GlyphOk(t, c.(attr := attr))
  {
    hide DisplayWidth, CanonicalAttr;
    forall i | 0 <= i < |c.suffix|
      ensures ContentLength(c.(attr := attr).(suffix := c.suffix[..i], empty := false))
           == ContentLength(c.(suffix := c.suffix[..i], empty := false))
    {}
  }

  lemma {:induction false} GuessNarrow(t: Widths, p: Predictor, f: Frame, g: Guess)
    requires NarrowFrame(t, f) && Sound(t, f.cols, g)
    ensures NarrowFrame(t, OverlayGuess(p, f, g)) && SameSize(OverlayGuess(p, f, g), f)
  {
    hide Covered, Sound, GlyphOk, LinkOk, MarginsOk, EffectsOk, SwitchesOk;
    if g.epoch <= p.confirmed && Inside(f, g.x, g.y) {
      var row := f.grid[g.y];
      var left := if g.x > 0 then Some(row[g.x - 1].attr) else None;
      assert NarrowRow(t, f.links, row);
      assert NarrowCell(t, row[g.x]);
      if g.x > 0 {
        assert NarrowCell(t, row[g.x - 1]);
        GlyphAttr(t, row[g.x - 1]);
      }
      CoveredNarrow(t, row[g.x], g, left, p.flagging, f.cols);
      NarrowRowSet(t, f.links, row, g.x, Covered(row[g.x], g, left, p.flagging, f.cols));
      NarrowFrameSet(t, f, g.y, row[g.x := Covered(row[g.x], g, left, p.flagging, f.cols)]);
    }
  }

  lemma {:induction false} GlyphAttr(t: Widths, c: Cell)
    requires GlyphOk(t, c)
    ensures CanonicalAttr(c.attr)
  {}

  lemma {:induction false} OverlayNarrow(t: Widths, p: Predictor, f: Frame, n: nat)
    requires NarrowFrame(t, f) && AllSound(t, f.cols, p.pending) && n <= |p.pending|
    ensures NarrowFrame(t, OverlayUpTo(p, f, n)) && SameSize(OverlayUpTo(p, f, n), f)
  {
    hide OverlayGuess, NarrowFrame, Sound;
    NarrowSize(t, f);
    if n > 0 {
      OverlayNarrow(t, p, f, n - 1);
      assert p.pending[n - 1] in p.pending;
      GuessNarrow(t, p, OverlayUpTo(p, f, n - 1), p.pending[n - 1]);
    }
  }

  lemma {:induction false} NarrowSize(t: Widths, f: Frame)
    requires NarrowFrame(t, f)
    ensures SameSize(f, f) && Shaped(f) && SwitchesOk(f.switches)
  {}

  lemma {:induction false} CursorsNarrow(t: Widths, p: Predictor, f: Frame, n: nat)
    requires NarrowFrame(t, f) && n <= |p.cursors|
    ensures NarrowFrame(t, OverlayCursors(p, f, n)) && SameSize(OverlayCursors(p, f, n), f)
  {
    hide NarrowRow, LinkOk, MarginsOk, EffectsOk, SwitchesOk;
    if n > 0 {
      CursorsNarrow(t, p, f, n - 1);
    }
  }

  /** A message of single-column characters. */
  predicate NoticeOk(t: Widths, message: seq<char>) {
    forall i :: 0 <= i < |message| ==>
      var w := DisplayWidth(t, message[i]); w == Some(1) ==> message[i] as nat >= 0x20
  }

  predicate NoWide(t: Widths, message: seq<char>) {
    forall i :: 0 <= i < |message| ==> DisplayWidth(t, message[i]) != Some(2)
  }

  lemma {:induction false} PutNarrow(t: Widths, l: Links, row: seq<Cell>, x: nat, glyph: Cell)
    requires NarrowRow(t, l, row) && x < |row| && NarrowCell(t, glyph) && LinkOk(Resolve(l, glyph.link))
    ensures NarrowRow(t, l, PutRow(row, x, 1, glyph))
  {
    hide GlyphOk, LinkOk, Resolve;
    assert NarrowCell(t, row[x]);
    assert PutRow(row, x, 1, glyph) == row[x := glyph];
    NarrowRowSet(t, l, row, x, glyph);
  }

  lemma {:induction false} WriteNarrow(t: Widths, l: Links, row: seq<Cell>, message: seq<char>, x: nat)
    requires NarrowRow(t, l, row) && NoticeOk(t, message) && NoWide(t, message)
    ensures NarrowRow(t, l, WriteNotice(t, row, message, x))
    decreases |message|
  {
    hide NarrowRow, PutRow, LinkOk;
    if message != [] && x < |row| {
      var w := DisplayWidth(t, message[0]);
      NarrowWidth(t, message[0]);
      if w.None? || w.value == 0 {
        WriteNarrow(t, l, row, message[1..], x);
      } else {
        var glyph := Glyph(message[0], 1, BAR_ATTR.(bold := true), 0);
        BarGlyph(t, l, message[0]);
        PutNarrow(t, l, row, x, glyph);
        WriteNarrow(t, l, PutRow(row, x, 1, glyph), message[1..], x + 1);
      }
    }
  }

  lemma {:induction false} NarrowWidth(t: Widths, ch: char)
    ensures var w := DisplayWidth(t, ch); w.Some? ==> w.value <= 2
  {}

  lemma {:induction false} BarGlyph(t: Widths, l: Links, ch: char)
    requires DisplayWidth(t, ch) == Some(1) && ch as nat >= 0x20
    ensures NarrowCell(t, Glyph(ch, 1, BAR_ATTR.(bold := true), 0)) && LinkOk(Resolve(l, 0))
  {}

  lemma {:induction false} BarNarrow(t: Widths, l: Links, n: nat)
    requires SpaceIsNarrow(t)
    ensures NarrowRow(t, l, Blanks(n, BLANK.(attr := BAR_ATTR)))
  {}

  lemma {:induction false} NoticeNarrow(t: Widths, f: Frame, message: seq<char>)
    requires NarrowFrame(t, f) && SpaceIsNarrow(t) && NoticeOk(t, message) && NoWide(t, message)
    ensures NarrowFrame(t, WithNotice(t, f, message)) && SameSize(WithNotice(t, f, message), f)
  {
    hide NarrowRow, WriteNotice, LinkOk, MarginsOk, EffectsOk;
    var row := WriteNotice(t, Blanks(f.cols, BLANK.(attr := BAR_ATTR)), message, 0);
    BarNarrow(t, f.links, f.cols);
    WriteNarrow(t, f.links, Blanks(f.cols, BLANK.(attr := BAR_ATTR)), message, 0);
    NarrowFrameSet(t, f, 0, row);
  }

  // ------------------------------------------------------------------- what is kept

  predicate DisplayOk(t: Widths, d: Display) {
    && NarrowFrame(t, d.host) && SpaceIsNarrow(t)
    && AllSound(t, d.host.cols, d.predictor.pending)
    && (d.notice.Some? ==> NoticeOk(t, d.notice.value) && NoWide(t, d.notice.value))
  }

  lemma {:induction false} ComposedNarrow(t: Widths, d: Display)
    requires DisplayOk(t, d)
    ensures NarrowFrame(t, Composed(t, d)) && SameSize(Composed(t, d), d.host)
  {
    hide NarrowFrame, OverlayUpTo, OverlayCursors, WithNotice, AllSound;
    var p := d.predictor;
    NarrowSize(t, d.host);
    OverlayNarrow(t, p, d.host, |p.pending|);
    CursorsNarrow(t, p, OverlayUpTo(p, d.host, |p.pending|), |p.cursors|);
    var f := if p.show then Overlay(p, d.host) else d.host;
    if d.notice.Some? {
      NoticeNarrow(t, f, d.notice.value);
    }
  }

  /** The terminal shows the frame, every cell of it. */
  predicate ShowsWhole(s: Screen, f: Frame) { Displays(s, f) && WholeGlyphs(f) }

  /** The terminal shows what was last shown: at first, the blank host frame. */
  predicate Agrees(t: Widths, s: Screen, d: Display) {
    && DisplayOk(t, d)
    && (d.shown.Some? ==> SwitchesOk(d.shown.value.switches) && SameSize(d.shown.value, d.host))
    && ShowsWhole(s, if d.shown.Some? then d.shown.value else d.host)
  }

  lemma {:induction false} WholeClearable(s: Screen, f: Frame, next: Frame)
    requires ShowsWhole(s, f) && SwitchesOk(f.switches) && SameSize(f, next)
    ensures Clearable(s, next)
  {}

  /** Rendering any drawable frame of the size makes the terminal show it. */
  lemma {:induction false} RenderShows(t: Widths, s: Screen, d: Display, frame: Frame) returns (s': Screen)
    requires NarrowFrame(t, frame) && SpaceIsNarrow(t)
    requires d.shown.Some? ==> ShowsWhole(s, d.shown.value) && SwitchesOk(d.shown.value.switches) && SameSize(d.shown.value, frame)
    requires d.shown.None? ==> Clearable(s, frame)
    ensures Takes(t, s, Render(d, frame).bytes, s') && ShowsWhole(s', frame)
  {
    hide Takes, FrameDiff, Displays, WholeGlyphs, Clearable, NarrowFrame, Drawable, SwitchesOk;
    NarrowDrawable(t, frame);
    Unswitched();
    if d.shown.Some? {
      SameSizeBack(d.shown.value, frame);
    }
    s' := FrameDiffShows(t, s, frame, d.shown);
  }

  lemma {:induction false} SameSizeBack(a: Frame, b: Frame)
    requires SameSize(a, b)
    ensures SameSize(b, a)
  {}

  lemma {:induction false} Unswitched()
    ensures SwitchesOk(NO_SWITCHES)
  {}

  /** What an operation may do before it renders. */
  predicate Prepared(t: Widths, d: Display, e: Display) {
    && DisplayOk(t, e) && SameSize(e.host, d.host)
    && (e.shown == d.shown || (d.shown.None? && e.shown == Some(d.host)))
  }

  lemma {:induction false} RenderAgrees(t: Widths, s: Screen, d: Display, e: Display, frame: Frame) returns (s': Screen)
    requires Agrees(t, s, d) && Prepared(t, d, e) && NarrowFrame(t, frame) && SameSize(frame, e.host)
    ensures Takes(t, s, Render(e, frame).bytes, s') && Agrees(t, s', Render(e, frame).display)
  {
    hide Takes, FrameDiff, ShowsWhole, Clearable, NarrowFrame, SwitchesOk, AllSound;
    NarrowSize(t, frame);
    NarrowSize(t, d.host);
    if d.shown.None? {
      WholeClearable(s, d.host, frame);
    }
    s' := RenderShows(t, s, e, frame);
  }

  /** Nothing written: the terminal still shows what it should. */
  lemma {:induction false} QuietAgrees(t: Widths, s: Screen, d: Display, e: Display)
    requires Agrees(t, s, d) && Prepared(t, d, e) && e.host == d.host
    ensures Agrees(t, s, e)
  {
    hide ShowsWhole, NarrowFrame, SwitchesOk, AllSound;
    NarrowSize(t, d.host);
  }

  lemma {:induction false} OverlayAgrees(t: Widths, s: Screen, d: Display, e: Display) returns (s': Screen)
    requires Agrees(t, s, d) && Prepared(t, d, e)
    ensures var r := RenderOverlay(t, e); Takes(t, s, r.bytes, s') && Agrees(t, s', r.display)
  {
    hide Takes, Agrees, DisplayOk, NarrowFrame, Composed, Render, SameSize;
    var e' := e.(overlayPath := true);
    PathPrepared(t, d, e, true);
    SamePath(t, e, true);
    ComposedNarrow(t, e);
    s' := RenderAgrees(t, s, d, e', Composed(t, e));
  }

  lemma {:induction false} HostAgrees(t: Widths, s: Screen, d: Display, e: Display) returns (s': Screen)
    requires Agrees(t, s, d) && Prepared(t, d, e)
    ensures var r := RenderHost(e); Takes(t, s, r.bytes, s') && Agrees(t, s', r.display)
  {
    hide Takes, Agrees, NarrowFrame, Composed, Render, AllSound;
    PathPrepared(t, d, e, false);
    NarrowSize(t, e.host);
    s' := RenderAgrees(t, s, d, e.(overlayPath := false), e.host);
  }

  lemma {:induction false} PathPrepared(t: Widths, d: Display, e: Display, path: bool)
    requires Prepared(t, d, e)
    ensures Prepared(t, d, e.(overlayPath := path))
  {}

  lemma {:induction false} SamePath(t: Widths, e: Display, path: bool)
    requires DisplayOk(t, e)
    ensures DisplayOk(t, e.(overlayPath := path)) && Composed(t, e.(overlayPath := path)) == Composed(t, e)
  {
    hide Overlay, WithNotice;
  }

  lemma {:induction false} PathAgrees(t: Widths, s: Screen, d: Display, path: bool)
    requires Agrees(t, s, d)
    ensures Agrees(t, s, d.(overlayPath := path))
  {
    hide ShowsWhole, NarrowFrame, SwitchesOk, AllSound;
  }

  /** The same display with other guesses, perhaps based on the host frame. */
  lemma {:induction false} PreparedSame(t: Widths, s: Screen, d: Display, e: Display)
    requires Agrees(t, s, d)
    requires e == d.(predictor := e.predictor, notice := e.notice, hostUpdated := e.hostUpdated, overlayPath := e.overlayPath)
    requires AllSound(t, d.host.cols, e.predictor.pending)
    requires e.notice.Some? ==> NoticeOk(t, e.notice.value) && NoWide(t, e.notice.value)
    ensures Prepared(t, d, e) && Prepared(t, d, Based(e))
    ensures Prepared(t, d, e.(overlayPath := true)) && Prepared(t, d, Based(e).(overlayPath := true))
  {
    hide ShowsWhole, NarrowFrame, SwitchesOk, AllSound, NoticeOk, NoWide;
    NarrowSize(t, d.host);
  }

  predicate EventOk(t: Widths, d: Display, event: Event) {
    match event
    case HostFrame(frame) => NarrowFrame(t, frame) && SameSize(frame, d.host)
    case Notice(message) => message.Some? ==> NoticeOk(t, message.value) && NoWide(t, message.value)
    case _ => true
  }

  lemma {:induction false} AgreesParts(t: Widths, s: Screen, d: Display)
    requires Agrees(t, s, d)
    ensures HostOk(t, d.host) && AllSound(t, d.host.cols, d.predictor.pending)
    ensures d.notice.Some? ==> NoticeOk(t, d.notice.value) && NoWide(t, d.notice.value)
  {
    hide ShowsWhole, NarrowFrame, SwitchesOk, AllSound, HostOk;
    NarrowHostOk(t, d.host);
  }

  lemma {:induction false} CursorPending(p: Predictor, x: nat, y: nat)
    ensures SetCursor(p, x, y).pending == p.pending
  {}

  lemma {:induction false} KeysAgree(t: Widths, s: Screen, d: Display, keys: seq<byte>, now: nat) returns (s': Screen)
    requires Agrees(t, s, d)
    ensures var r := OnKeystroke(t, d, keys, now); Takes(t, s, r.bytes, s') && Agrees(t, s', r.display)
  {
    hide Takes, Agrees, HostOk, AllSound, Keystroke, RenderOverlay, Prepared, NoticeOk, NoWide;
    TakesNothing(t, s);
    s' := s;
    AgreesParts(t, s, d);
    if !d.predictor.preference.Never? {
      var p := if d.predictor.active then d.predictor else SetCursor(d.predictor, d.host.cursor.x, d.host.cursor.y);
      CursorPending(d.predictor, d.host.cursor.x, d.host.cursor.y);
      var e := d.(predictor := Keystroke(t, p, keys, d.host, now));
      KeystrokeSound(t, p, keys, d.host, now);
      PreparedSame(t, s, d, e);
      if e.predictor.show {
        s' := OverlayAgrees(t, s, d, Based(e));
      } else {
        QuietAgrees(t, s, d, e);
      }
    }
  }

  lemma {:induction false} SampledPending(p: Predictor, now: nat)
    ensures SamplePendingAge(p, now).pending == p.pending
  {
    hide OldestAt;
  }

  lemma {:induction false} FramedPending(p: Predictor, sent: nat, early: nat, late: nat, hostUpdated: bool)
    ensures ObserveLateAck(SetFrames(p, sent, early, late), hostUpdated).pending == p.pending
  {}

  lemma {:induction false} FramesAgree(t: Widths, s: Screen, d: Display, sent: nat, early: nat, late: nat, now: nat) returns (s': Screen)
    requires Agrees(t, s, d)
    ensures var r := OnFrames(t, d, sent, early, late, now); Takes(t, s, r.bytes, s') && Agrees(t, s', r.display)
  {
    hide Takes, Agrees, HostOk, AllSound, Confirm, SamplePendingAge, RenderOverlay, RenderHost, Prepared, NoticeOk, NoWide, Differs, ObserveLateAck, SetFrames;
    AgreesParts(t, s, d);
    TakesNothing(t, s);
    s' := s;
    var p := ObserveLateAck(SetFrames(d.predictor, sent, early, late), d.hostUpdated);
    FramedPending(d.predictor, sent, early, late, d.hostUpdated);
    var e := d.(predictor := p, hostUpdated := false);
    PreparedSame(t, s, d, e);
    if d.predictor.pending == [] && !d.predictor.active {
      QuietAgrees(t, s, d, e);
    } else {
      var q := SamplePendingAge(Confirm(p, d.host, now), now);
      ConfirmSound(t, p, d.host, now);
      SampledPending(Confirm(p, d.host, now), now);
      var e2 := e.(predictor := q);
      PreparedSame(t, s, d, e2);
      if Differs(d.predictor, q) && (q.show || d.notice.Some?) {
        s' := OverlayAgrees(t, s, d, Based(e2));
      } else if Differs(d.predictor, q) && d.overlayPath {
        s' := HostAgrees(t, s, d, e2);
      } else {
        QuietAgrees(t, s, d, e2);
      }
    }
  }

  lemma {:induction false} SrttPending(p: Predictor, srtt: Option<nat>)
    ensures SetSrtt(p, srtt).pending == p.pending
  {}

  lemma {:induction false} SrttAgrees(t: Widths, s: Screen, d: Display, srtt: Option<nat>) returns (s': Screen)
    requires Agrees(t, s, d)
    ensures var r := OnSrtt(t, d, srtt); Takes(t, s, r.bytes, s') && Agrees(t, s', r.display)
  {
    hide Takes, Agrees, HostOk, AllSound, SetSrtt, RenderOverlay, RenderHost, Prepared, NoticeOk, NoWide;
    AgreesParts(t, s, d);
    TakesNothing(t, s);
    s' := s;
    var p := SetSrtt(d.predictor, srtt);
    SrttPending(d.predictor, srtt);
    var e := d.(predictor := p);
    PreparedSame(t, s, d, e);
    if d.predictor.show && !p.show {
      if d.notice.Some? {
        s' := OverlayAgrees(t, s, d, e);
      } else {
        s' := HostAgrees(t, s, d, e);
      }
    } else {
      var e2 := if !d.predictor.show && p.show then Based(e).(overlayPath := true) else e;
      if OnSrtt(t, d, srtt) == RenderOverlay(t, e2) {
        s' := OverlayAgrees(t, s, d, e2);
      } else {
        QuietAgrees(t, s, d, e2);
      }
    }
  }

  lemma {:induction false} TickAgrees(t: Widths, s: Screen, d: Display, now: nat) returns (s': Screen)
    requires Agrees(t, s, d)
    ensures var r := OnTick(t, d, now); Takes(t, s, r.bytes, s') && Agrees(t, s', r.display)
  {
    hide Takes, Agrees, HostOk, AllSound, SamplePendingAge, RenderOverlay, RenderHost, Prepared, NoticeOk, NoWide;
    AgreesParts(t, s, d);
    TakesNothing(t, s);
    s' := s;
    var p := SamplePendingAge(d.predictor, now);
    SampledPending(d.predictor, now);
    var e := d.(predictor := p);
    PreparedSame(t, s, d, e);
    if d.predictor.flagging == p.flagging && d.predictor.show == p.show {
      QuietAgrees(t, s, d, e);
    } else if p.pending == [] && !p.show && d.notice.None? {
      s' := HostAgrees(t, s, d, e);
    } else {
      s' := OverlayAgrees(t, s, d, e);
      PathAgrees(t, s', RenderOverlay(t, e).display, d.overlayPath || p.show);
    }
  }

  lemma {:induction false} NoticeAgrees(t: Widths, s: Screen, d: Display, message: Option<seq<char>>) returns (s': Screen)
    requires Agrees(t, s, d) && EventOk(t, d, Notice(message))
    ensures var r := SetNotice(t, d, message); Takes(t, s, r.bytes, s') && Agrees(t, s', r.display)
  {
    hide Takes, Agrees, HostOk, AllSound, RenderOverlay, RenderHost, Prepared, NoticeOk, NoWide;
    AgreesParts(t, s, d);
    TakesNothing(t, s);
    s' := s;
    var e := d.(notice := message);
    PreparedSame(t, s, d, e);
    if d.notice != message {
      if message.Some? {
        s' := OverlayAgrees(t, s, d, Based(e));
      } else if e.predictor.show {
        s' := OverlayAgrees(t, s, d, e);
      } else {
        s' := HostAgrees(t, s, d, e);
      }
    }
  }

  lemma {:induction false} PreparedFrame(t: Widths, s: Screen, d: Display, e: Display)
    requires Agrees(t, s, d) && NarrowFrame(t, e.host) && SameSize(e.host, d.host)
    requires e == d.(host := e.host, predictor := e.predictor, hostUpdated := e.hostUpdated)
    requires AllSound(t, e.host.cols, e.predictor.pending)
    ensures Prepared(t, d, e)
  {
    hide ShowsWhole, NarrowFrame, SwitchesOk, AllSound, NoticeOk, NoWide;
  }

  lemma {:induction false} ResetPending(t: Widths, p: Predictor, cols: nat)
    requires AllSound(t, cols, p.pending)
    ensures AllSound(t, cols, Reset(p).pending)
  {}

  lemma {:induction false} FrameAgrees(t: Widths, s: Screen, d: Display, frame: Frame, now: nat) returns (s': Screen)
    requires Agrees(t, s, d) && EventOk(t, d, HostFrame(frame))
    ensures var r := OnHostFrame(t, d, frame, now); Takes(t, s, r.bytes, s') && Agrees(t, s', r.display)
  {
    hide Takes, Agrees, HostOk, AllSound, Confirm, SamplePendingAge, RenderOverlay, RenderHost, Prepared, NarrowFrame, Reset, SetCursor, FrameDiff;
    AgreesParts(t, s, d);
    Spaced(t, s, d);
    NarrowHostOk(t, frame);
    var geometry := d.host.cols != frame.cols || d.host.rows != frame.rows || d.host.scrolls != frame.scrolls;
    var p0 := if geometry then Reset(d.predictor) else d.predictor;
    ResetPending(t, d.predictor, frame.cols);
    var p := SetCursor(p0, frame.cursor.x, frame.cursor.y);
    CursorPending(p0, frame.cursor.x, frame.cursor.y);
    ConfirmSound(t, p, frame, now);
    var q := SamplePendingAge(Confirm(p, frame, now), now);
    SampledPending(Confirm(p, frame, now), now);
    var e := d.(host := frame, hostUpdated := d.hostUpdated || FrameDiff(frame, Some(d.host)) != [], predictor := q);
    PreparedFrame(t, s, d, e);
    if !q.show && d.notice.None? {
      s' := HostAgrees(t, s, d, e);
    } else {
      s' := OverlayAgrees(t, s, d, e);
    }
  }

  lemma {:induction false} Spaced(t: Widths, s: Screen, d: Display)
    requires Agrees(t, s, d)
    ensures SpaceIsNarrow(t)
  {
    hide ShowsWhole, NarrowFrame, SpaceIsNarrow;
  }

  /** Whatever happens, the bytes written make the terminal show what was last shown. */
  lemma {:induction false} HandleAgrees(t: Widths, s: Screen, d: Display, event: Event, now: nat) returns (s': Screen)
    requires Agrees(t, s, d) && EventOk(t, d, event)
    ensures var r := Handle(t, d, event, now); Takes(t, s, r.bytes, s') && Agrees(t, s', r.display)
  {
    hide Takes, Agrees, OnHostFrame, OnKeystroke, OnFrames, OnSrtt, OnTick, SetNotice, EventOk;
    match event
    case HostFrame(frame) => s' := FrameAgrees(t, s, d, frame, now);
    case KeysTyped(keys) => s' := KeysAgree(t, s, d, keys, now);
    case FramesSeen(sent, early, late) => s' := FramesAgree(t, s, d, sent, early, late, now);
    case SrttMeasured(srtt) => s' := SrttAgrees(t, s, d, srtt);
    case Ticked => s' := TickAgrees(t, s, d, now);
    case Notice(message) => s' := NoticeAgrees(t, s, d, message);
  }

  // ------------------------------------------------------------------- whole sessions

  /** Every host frame that arrives fits the display it arrives at. */
  predicate EventsOk(t: Widths, d: Display, events: seq<Happening>) {
    forall i :: 0 <= i < |events| ==> EventOk(t, Session(t, d, events[..i]).display, events[i].event)
  }

  lemma {:induction false} EventsInit(t: Widths, d: Display, events: seq<Happening>)
    requires events != [] && EventsOk(t, d, events)
    ensures EventsOk(t, d, events[..|events| - 1])
    ensures EventOk(t, Session(t, d, events[..|events| - 1]).display, events[|events| - 1].event)
  {
    hide EventOk, Session;
    var init := events[..|events| - 1];
    forall i | 0 <= i < |init|
      ensures EventOk(t, Session(t, d, init[..i]).display, init[i].event)
    {
      assert init[..i] == events[..i];
    }
  }

  lemma {:induction false} SessionAgrees(t: Widths, s: Screen, d: Display, events: seq<Happening>) returns (s': Screen)
    requires Agrees(t, s, d) && EventsOk(t, d, events)
    ensures var r := Session(t, d, events); Takes(t, s, r.bytes, s') && Agrees(t, s', r.display)
    decreases |events|
  {
    hide Takes, Agrees, Handle, EventOk, EventsOk;
    if events == [] {
      s' := s;
      TakesNothing(t, s);
    } else {
      var h := events[|events| - 1];
      EventsInit(t, d, events);
      var before := Session(t, d, events[..|events| - 1]);
      var s1 := SessionAgrees(t, s, d, events[..|events| - 1]);
      s' := HandleAgrees(t, s1, before.display, h.event, h.now);
      TakesThen(t, s, before.bytes, s1, Handle(t, before.display, h.event, h.now).bytes, s');
    }
  }

  lemma {:induction false} BlankNarrow(t: Widths, cols: nat, rows: nat)
    requires SpaceIsNarrow(t) && cols < U32_SIZE && rows < U32_SIZE
    ensures NarrowFrame(t, NewFrame(cols, rows))
  {
    hide SpaceIsNarrow;
    var f := NewFrame(cols, rows);
    forall y | 0 <= y < |f.grid|
      ensures NarrowRow(t, f.links, f.grid[y])
    {
      BlankGridRows(f.rows, f.cols, y);
      PlainRow(t, f.links, f.cols);
    }
  }

  lemma {:induction false} PlainRow(t: Widths, l: Links, n: nat)
    requires SpaceIsNarrow(t)
    ensures NarrowRow(t, l, Blanks(n, BLANK)) && RowOk(Blanks(n, BLANK), |l.table|)
  {}

  lemma {:induction false} SelfShown(l: Links, row: seq<Cell>)
    ensures Glass.RowShown(l, row, l, row)
  {}

  /** A blank terminal shows a blank frame. */
  lemma {:induction false} BlankShows(t: Widths, cols: nat, rows: nat)
    requires SpaceIsNarrow(t) && cols < U32_SIZE && rows < U32_SIZE
    ensures ShowsWhole(Screen(NewFrame(cols, rows), PLAIN, UNSAVED), NewFrame(cols, rows))
  {
    var f := NewFrame(cols, rows);
    hide NarrowRow;
    forall y | 0 <= y < f.rows
      ensures RowOk(f.grid[y], |f.links.table|) && Glass.RowShown(f.links, f.grid[y], f.links, f.grid[y])
    {
      BlankGridRows(f.rows, f.cols, y);
      PlainRow(t, f.links, f.cols);
      SelfShown(f.links, f.grid[y]);
    }
  }

  /** Glass agreement: over a whole session at a fixed size with single-column cells, all the
      bytes written, applied to a blank terminal in any pieces, show exactly what the display
      last showed. */
  lemma {:induction false} GlassAgreement(t: Widths, cols: nat, rows: nat, preference: Preference, overwrite: bool, events: seq<Happening>, pieces: seq<seq<byte>>) returns (s': Screen)
    requires SpaceIsNarrow(t) && cols < U32_SIZE && rows < U32_SIZE
    requires EventsOk(t, NewDisplay(cols, rows, preference, overwrite), events)
    requires Flat(pieces) == Session(t, NewDisplay(cols, rows, preference, overwrite), events).bytes
    ensures FeedAll(Executing(t), Fed(Screen(NewFrame(cols, rows), PLAIN, UNSAVED), []), pieces) == Fed(s', [])
    ensures var d := Session(t, NewDisplay(cols, rows, preference, overwrite), events).display;
      ShowsWhole(s', if d.shown.Some? then d.shown.value else d.host)
  {
    hide ShowsWhole, EventsOk, Session, Run, Exec, NarrowFrame, NewFrame;
    var s := Screen(NewFrame(cols, rows), PLAIN, UNSAVED);
    var d := NewDisplay(cols, rows, preference, overwrite);
    BlankNarrow(t, cols, rows);
    BlankShows(t, cols, rows);
    s' := SessionAgrees(t, s, d, events);
    AnySplit(Executing(t), Fed(s, []), pieces);
  }

  function LastFrame(events: seq<Happening>, start: Frame): Frame {
    if events == [] then start
    else if events[|events| - 1].event.HostFrame? then events[|events| - 1].event.frame
    else LastFrame(events[..|events| - 1], start)
  }

  lemma {:induction false} RenderedHost(t: Widths, d: Display)
    ensures RenderOverlay(t, d).display.host == d.host && RenderHost(d).display.host == d.host && Based(d).host == d.host
  {
    hide Composed, FrameDiff;
  }

  lemma {:induction false} FramesHost(t: Widths, d: Display, sent: nat, early: nat, late: nat, now: nat)
    ensures OnFrames(t, d, sent, early, late, now).display.host == d.host
  {
    hide Confirm, SamplePendingAge, ObserveLateAck, SetFrames, Differs, RenderOverlay, RenderHost, Based;
    var p := ObserveLateAck(SetFrames(d.predictor, sent, early, late), d.hostUpdated);
    var e := d.(hostUpdated := false, predictor := SamplePendingAge(Confirm(p, d.host, now), now));
    RenderedHost(t, e);
    RenderedHost(t, Based(e));
  }

  lemma {:induction false} SrttHost(t: Widths, d: Display, srtt: Option<nat>)
    ensures OnSrtt(t, d, srtt).display.host == d.host
  {
    hide SetSrtt, RenderOverlay, RenderHost, Based;
    var e := d.(predictor := SetSrtt(d.predictor, srtt));
    RenderedHost(t, e);
    RenderedHost(t, Based(e).(overlayPath := true));
  }

  lemma {:induction false} HandleHost(t: Widths, d: Display, event: Event, now: nat)
    ensures Handle(t, d, event, now).display.host == if event.HostFrame? then event.frame else d.host
  {
    hide Keystroke, Confirm, SamplePendingAge, SetCursor, Reset, FrameDiff, Composed, OnFrames, OnSrtt;
    match event
    case FramesSeen(sent, early, late) => FramesHost(t, d, sent, early, late, now);
    case SrttMeasured(srtt) => SrttHost(t, d, srtt);
    case _ =>
  }

  /** Guesses never enter the host's frame: it is always the last one received. */
  lemma {:induction false} HostIsReceived(t: Widths, d: Display, events: seq<Happening>)
    ensures Session(t, d, events).display.host == LastFrame(events, d.host)
    decreases |events|
  {
    hide Handle;
    if events != [] {
      var init, h := events[..|events| - 1], events[|events| - 1];
      HostIsReceived(t, d, init);
      HandleHost(t, Session(t, d, init).display, h.event, h.now);
    }
  }
}
