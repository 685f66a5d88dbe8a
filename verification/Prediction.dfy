/** Speculative local echo: guesses about cells and cursor, as functions of the predictor. */
module Prediction {
  import opened Basics
  import opened Lexer
  import opened Sgr
  import opened Cells
  import opened Screen

  datatype Preference = Always | Never | Adaptive | Experimental

  /** A guessed cell. It is hidden while `epoch` is not confirmed, and waits for the server
      until state `expires` has been echoed. */
  datatype Guess = Guess(
    ch: char, x: nat, y: nat, epoch: nat, at: nat, expires: nat,
    originals: seq<char>, unknown: bool, attr: Option<Attr>)

  datatype CursorGuess = CursorGuess(x: nat, y: nat, epoch: nat, expires: nat)

  datatype Predictor = Predictor(
    pending: seq<Guess>, cursors: seq<CursorGuess>, x: nat, y: nat, epoch: nat, confirmed: nat,
    active: bool, count: nat, preference: Preference, overwrite: bool, show: bool, flagging: bool,
    glitch: nat, esc: seq<byte>, sent: nat, acked: nat, late: nat,
    quickAt: Option<nat>, erase: Option<nat>)

  /** Times are in milliseconds. */
  const SHOW_ABOVE: nat := 30
  const HIDE_UPTO: nat := 20
  const FLAG_ABOVE: nat := 80
  const UNFLAG_UPTO: nat := 50
  const GLITCH_AGE: nat := 250
  const BIG_GLITCH_AGE: nat := 5000
  const REPAIR_COUNT: nat := 10
  const REPAIR_INTERVAL: nat := 150

  function New(preference: Preference, overwrite: bool): Predictor {
    Predictor([], [], 0, 0, 1, 0, false, 0, preference, overwrite,
              preference.Always? || preference.Experimental?, false, 0, [], 0, 0, 0, None, None)
  }

  function Larger(a: nat, b: nat): nat { if a < b then b else a }

  function SetFrames(p: Predictor, sent: nat, early: nat, late: nat): Predictor {
    p.(sent := Larger(p.sent, sent), acked := Larger(p.acked, early), late := Larger(p.late, late))
  }

  // -------------------------------------------------------------- epochs and cursors

  function BecomeTentative(p: Predictor): Predictor {
    if p.preference.Experimental? then p else p.(epoch := p.epoch + 1)
  }

  function Reset(p: Predictor): Predictor {
    BecomeTentative(p).(pending := [], active := false, count := 0, esc := [], cursors := [])
  }

  function Expiry(p: Predictor): nat { SatInc(p.sent) }

  function CursorHere(p: Predictor): CursorGuess { CursorGuess(p.x, p.y, p.epoch, Expiry(p)) }

  /** One cursor per epoch: a later move in the same epoch replaces the last one. */
  function RecordCursor(p: Predictor): Predictor {
    var n := |p.cursors|;
    if n > 0 && p.cursors[n - 1].epoch == p.epoch then p.(cursors := p.cursors[n - 1 := CursorHere(p)])
    else p.(cursors := p.cursors + [CursorHere(p)])
  }

  function GuessBefore(epoch: nat): Guess -> bool { (g: Guess) => g.epoch < epoch }

  function CursorBefore(epoch: nat): CursorGuess -> bool { (c: CursorGuess) => c.epoch < epoch }

  function AtHost(p: Predictor, host: Frame): Predictor { p.(x := host.cursor.x, y := host.cursor.y) }

  function KillEpoch(p: Predictor, epoch: nat, host: Frame): Predictor {
    var q := AtHost(p.(pending := Retain(p.pending, GuessBefore(epoch)), cursors := Retain(p.cursors, CursorBefore(epoch))), host);
    BecomeTentative(q.(cursors := q.cursors + [CursorHere(q)])).(active := true)
  }

  function SetCursor(p: Predictor, x: nat, y: nat): Predictor {
    if p.active then p else (if y != p.y then BecomeTentative(p) else p).(x := x, y := y)
  }

  function ClearCursor(p: Predictor, host: Frame): Predictor {
    AtHost(p.(cursors := [], active := p.pending != []), host)
  }

  function ObserveLateAck(p: Predictor, hostUpdated: bool): Predictor {
    if hostUpdated && p.erase.Some? && p.late >= p.erase.value then p.(erase := None) else p
  }

  predicate Due(p: Predictor, expires: nat) { p.sent == 0 || p.late >= expires }

  function CursorWaiting(sent: nat, late: nat): CursorGuess -> bool {
    (c: CursorGuess) => sent > 0 && late < c.expires
  }

  function Cull(p: Predictor, host: Frame): Predictor {
    var n := |p.cursors|;
    if n > 0 && Due(p, p.cursors[n - 1].expires)
       && (p.cursors[n - 1].x != host.cursor.x || p.cursors[n - 1].y != host.cursor.y) then
      if p.preference.Experimental? || p.sent == 0 then ClearCursor(p, host) else AtHost(Reset(p), host)
    else
      var q := p.(cursors := Retain(p.cursors, CursorWaiting(p.sent, p.late)));
      if q.cursors == [] && q.pending == [] then ClearCursor(q, host) else q.(active := true)
  }

  // ------------------------------------------------------------- settings and sampling

  function SetShow(p: Predictor, srtt: nat): Predictor {
    if srtt > SHOW_ABOVE then p.(show := true)
    else if srtt <= HIDE_UPTO && p.pending == [] && p.cursors == [] then p.(show := false, active := false)
    else p
  }

  function SetSrtt(p: Predictor, srtt: Option<nat>): Predictor {
    if p.preference.Never? then p.(show := false, flagging := false)
    else if p.preference.Adaptive? && srtt.None? then p
    else
      var q := if p.preference.Adaptive? then SetShow(p, srtt.value) else p.(show := true);
      var flagging := if srtt.Some? && srtt.value > FLAG_ABOVE then true
                      else if srtt.Some? && srtt.value <= UNFLAG_UPTO then false else q.flagging;
      q.(show := q.show || q.glitch > 0, flagging := flagging || q.glitch > REPAIR_COUNT)
  }

  /** The earliest time at which one of the first `n` guesses was made. */
  function OldestAt(s: seq<Guess>, n: nat): nat
    requires 0 < n <= |s|
  {
    if n == 1 || s[n - 1].at < OldestAt(s, n - 1) then s[n - 1].at else OldestAt(s, n - 1)
  }

  function SamplePendingAge(p: Predictor, now: nat): Predictor {
    if p.pending == [] then p
    else
      var age := SatSub(now, OldestAt(p.pending, |p.pending|));
      if age >= BIG_GLITCH_AGE then p.(glitch := 2 * REPAIR_COUNT, show := true, flagging := true)
      else if age >= GLITCH_AGE && p.glitch < REPAIR_COUNT then p.(glitch := REPAIR_COUNT, show := true)
      else p
  }

  // ------------------------------------------------------------------ order of guesses

  predicate SameCell(a: Guess, b: Guess) { a.x == b.x && a.y == b.y }

  predicate Less(a: Guess, b: Guess) { a.y < b.y || (a.y == b.y && a.x < b.x) }

  /** Strictly from left to right and top to bottom: at most one guess per cell. */
  predicate Ordered(s: seq<Guess>) {
    forall i, j :: 0 <= i < j < |s| ==> Less(s[i], s[j])
  }

  /** Inserts behind everything that is not greater. */
  function InOrder(s: seq<Guess>, g: Guess): seq<Guess> {
    if s == [] || !Less(g, s[|s| - 1]) then s + [g] else InOrder(s[..|s| - 1], g) + [s[|s| - 1]]
  }

  function SortUpTo(s: seq<Guess>, n: nat): seq<Guess>
    requires n <= |s|
  {
    if n == 0 then [] else InOrder(SortUpTo(s, n - 1), s[n - 1])
  }

  function Sort(s: seq<Guess>): seq<Guess> { SortUpTo(s, |s|) }

  // --------------------------------------------------------------------- making guesses

  function CharAt(f: Frame, x: nat, y: nat): char {
    if y < |f.grid| && x < |f.grid[y]| then f.grid[y][x].ch else ' '
  }

  /** What a cell was known to hold before, ending with what the host shows there. */
  function History(previous: Option<Guess>, host: char): seq<char> {
    (if previous.Some? && !previous.value.unknown then previous.value.originals + [previous.value.ch] else []) + [host]
  }

  function Guessed(p: Predictor, ch: char, x: nat, y: nat, previous: Option<Guess>, host: Frame, unknown: bool, now: nat): Guess {
    Guess(ch, x, y, p.epoch, now, Expiry(p), History(previous, CharAt(host, x, y)), unknown, None)
  }

  /** The guess for column `x` of row `y`, if there is one. */
  function FindAt(s: seq<Guess>, x: nat, y: nat, n: nat): Option<Guess>
    requires n <= |s|
  {
    if n == 0 then None else if s[n - 1].x == x && s[n - 1].y == y then Some(s[n - 1]) else FindAt(s, x, y, n - 1)
  }

  function GuessAt(p: Predictor, x: nat, y: nat): Option<Guess> { FindAt(p.pending, x, y, |p.pending|) }

  function ElsewhereThan(x: nat, y: nat): Guess -> bool { (g: Guess) => g.x != x || g.y != y }

  function OutsideRow(y: nat, cols: nat): Guess -> bool { (g: Guess) => g.y != y || g.x >= cols }

  function Normal(ch: char): char { if ch == '\0' then ' ' else ch }

  /** What insertion moves into column `x`: unknown in the last column, else what the column
      to the left holds, guessed or shown by the host. */
  function ShiftedGuess(p: Predictor, host: Frame, x: nat, y: nat, now: nat): Guess
    requires x > 0
  {
    var left := GuessAt(p, x - 1, y);
    var unknown := x + 1 == host.cols || (left.Some? && left.value.unknown);
    var ch := if unknown then ' ' else if left.Some? then left.value.ch else Normal(CharAt(host, x - 1, y));
    Guessed(p, ch, x, y, GuessAt(p, x, y), host, unknown, now)
  }

  /** The guesses of a row after inserting `ch` at column `cx`, up to column `n`. */
  function InsertedRow(p: Predictor, host: Frame, cx: nat, y: nat, ch: char, now: nat, n: nat): seq<Guess> {
    if n == 0 then []
    else
      var x := n - 1;
      var before := InsertedRow(p, host, cx, y, ch, now, n - 1);
      if x < cx then before + (if GuessAt(p, x, y).Some? then [GuessAt(p, x, y).value] else [])
      else if x == cx then before + [Guessed(p, ch, x, y, GuessAt(p, x, y), host, false, now)]
      else before + [ShiftedGuess(p, host, x, y, now)]
  }

  function InsertAt(p: Predictor, host: Frame, ch: char, now: nat): Predictor {
    var guesses := Retain(p.pending, OutsideRow(p.y, host.cols)) + InsertedRow(p, host, p.x, p.y, ch, now, host.cols);
    var q := RecordCursor(p.(x := p.x + 1, active := true));
    q.(pending := Sort(guesses))
  }

  function BlankedRow(p: Predictor, host: Frame, y: nat, now: nat, n: nat): seq<Guess> {
    if n == 0 then []
    else BlankedRow(p, host, y, now, n - 1) + [Guessed(p, ' ', n - 1, y, GuessAt(p, n - 1, y), host, false, now)]
  }

  /** Carriage return and line feed; on the bottom row the whole row is guessed blank. */
  function NewLine(p: Predictor, host: Frame, now: nat): Predictor {
    if p.y + 1 >= host.rows then
      var q := RecordCursor(p.(x := 0, active := true));
      q.(pending := Sort(Retain(p.pending, OutsideRow(p.y, host.cols)) + BlankedRow(p, host, p.y, now, host.cols)))
    else RecordCursor(p.(x := 0, y := p.y + 1, active := true))
  }

  /** The guess at the cursor replaced by a known glyph. Every guess at that cell goes; in the
      shape that all predictors keep there is at most one, the first that a search finds. */
  function Overwritten(p: Predictor, host: Frame, ch: char, now: nat): Predictor {
    p.(pending := Retain(p.pending, ElsewhereThan(p.x, p.y))
                  + [Guessed(p, ch, p.x, p.y, GuessAt(p, p.x, p.y), host, false, now)])
  }

  function Sorted(p: Predictor): Predictor { p.(pending := Sort(p.pending)) }

  function TypeChar(p: Predictor, host: Frame, ch: char, now: nat): Predictor {
    if p.x + 1 >= host.cols then
      Sorted(NewLine(BecomeTentative(Overwritten(BecomeTentative(p), host, ch, now)), host, now))
    else if p.overwrite then
      var q := Overwritten(p, host, ch, now);
      Sorted(RecordCursor(q.(x := q.x + 1, active := true)))
    else InsertAt(p, host, ch, now)
  }

  predicate IsControl(ch: char) { ch as nat < 0x20 || 0x7f <= ch as nat < 0xA0 }

  function HandleChar(t: Widths, p: Predictor, host: Frame, ch: char, now: nat): Predictor {
    if ch == REPLACEMENT then BecomeTentative(p)
    else if ch as nat < 0x20 then
      var q := BecomeTentative(p);
      if ch == '\r' then NewLine(q, host, now) else q
    else if IsControl(ch) then p
    else if DisplayWidth(t, ch) != Some(1) then BecomeTentative(p)
    else TypeChar(p, host, ch, now)
  }

  // ------------------------------------------------------------------------- keystrokes

  function MoveLeft(p: Predictor): Predictor {
    if p.x == 0 then p else RecordCursor(p.(x := p.x - 1, active := true))
  }

  function MoveRight(p: Predictor, host: Frame): Predictor {
    var last := SatSub(host.cols, 1);
    if p.x >= last then p else RecordCursor(p.(x := p.x + 1, active := true))
  }

  datatype KeyPress = MoreKeys | Left(len: nat) | Right(len: nat) | Other(len: nat) | Typed(ch: char, len: nat)

  /** First index from `i` on that is no parameter or intermediate byte, or the length. */
  function KeyEnd(data: seq<byte>, i: nat): (k: nat)
    requires i <= |data|
    ensures i <= k <= |data|
    decreases |data| - i
  {
    if i == |data| || !(0x20 <= data[i] <= 0x3f) then i else KeyEnd(data, i + 1)
  }

  function Arrow(final: byte, len: nat): KeyPress {
    if final == 'C' as byte then Right(len) else if final == 'D' as byte then Left(len) else Other(len)
  }

  /** A key that starts with an escape: only the horizontal arrows are predicted. */
  function EscapedKey(data: seq<byte>): KeyPress
    requires data != [] && data[0] == ESC
  {
    if |data| < 2 then MoreKeys
    else if data[1] == 'O' as byte then (if |data| < 3 then MoreKeys else Arrow(data[2], 3))
    else if data[1] != '[' as byte then Other(2)
    else
      var end := KeyEnd(data, 2);
      if end == |data| then MoreKeys
      else if 0x40 <= data[end] <= 0x7e then Arrow(data[end], end + 1)
      else Other(end + 1)
  }

  function NextKey(data: seq<byte>): (k: KeyPress)
    requires data != []
    ensures !k.MoreKeys? ==> 0 < k.len <= |data|
  {
    if data[0] == ESC then EscapedKey(data)
    else
      var n := SequenceLength(data[0]);
      if n == 1 then Typed(data[0] as char, 1)
      else if n == 0 then Other(1)
      else if n > |data| then MoreKeys
      else if WellFormed(data[..n]) then Typed(CodePoint(data[..n]) as char, n)
      else Other(1)
  }

  function Press(t: Widths, p: Predictor, host: Frame, k: KeyPress, now: nat): Predictor {
    match k
    case MoreKeys => p
    case Left(_) => MoveLeft(p)
    case Right(_) => MoveRight(p, host)
    case Other(_) => BecomeTentative(p)
    case Typed(ch, _) => HandleChar(t, p, host, ch, now)
  }

  /** In experimental mode every new guess belongs to the confirmed epoch. */
  function Opened(p: Predictor): Predictor {
    if p.preference.Experimental? then p.(epoch := p.confirmed) else p
  }

  function PressAll(t: Widths, p: Predictor, host: Frame, data: seq<byte>, now: nat): Predictor
    decreases |data|
  {
    if data == [] then p
    else
      var k := NextKey(data);
      var q := Opened(p);
      if k.MoreKeys? then q.(esc := data)
      else PressAll(t, Press(t, q, host, k, now), host, data[k.len..], now)
  }

  predicate Erases(data: seq<byte>) { 0x08 in data || 0x7f in data }

  function Keystroke(t: Widths, p: Predictor, input: seq<byte>, host: Frame, now: nat): Predictor {
    if p.preference.Never? then Reset(p)
    else if p.erase.Some? then (if input != [] then p.(erase := Some(Expiry(p))) else p)
    else
      var data := p.esc + input;
      var q := p.(esc := []);
      if Erases(data) then Reset(q).(erase := Some(Expiry(q)))
      else if |data| > 100 then Reset(q)
      else PressAll(t, q, host, data, now)
  }

  // ------------------------------------------------------------------------ confirming

  predicate IsBlank(ch: char) { ch == ' ' || ch == '\0' }

  predicate DefaultBlank(c: Cell) { IsBlank(c.ch) && c.attr == PLAIN }

  /** What the host's cell says about a guess. */
  datatype Verdict = Waiting | Removed | Credited | Stalled | Killed | Refuted

  function CellAt(f: Frame, x: nat, y: nat): Option<Cell> {
    if y < |f.grid| && x < |f.grid[y]| then Some(f.grid[y][x]) else None
  }

  function Judge(p: Predictor, g: Guess, host: Frame): Verdict {
    var cell := CellAt(host, g.x, g.y);
    var wrong := if p.preference.Experimental? then Removed else if g.epoch > p.confirmed then Killed else Refuted;
    if !Due(p, g.expires) then Waiting
    else if cell.None? then wrong
    else if g.unknown || IsBlank(g.ch) then Removed
    else if cell.value.ch == g.ch then
      if DefaultBlank(cell.value) || g.ch in g.originals then Removed else Credited
    else if IsBlank(cell.value.ch) && p.sent == 0 then Stalled
    else wrong
  }

  /** After a credit the rest of the row takes on the host's attributes. */
  function Dressed(s: seq<Guess>, n: nat, y: nat, attr: Attr): seq<Guess>
    requires n <= |s|
  {
    if n == 0 then []
    else Dressed(s, n - 1, y, attr) + [if s[n - 1].y == y then s[n - 1].(attr := Some(attr)) else s[n - 1]]
  }

  datatype Ending = Finished | KilledBy(epoch: nat) | RefutedBy

  /** Guesses looked at and kept, those not looked at, and how the walk went. */
  datatype Walked = Walked(kept: seq<Guess>, rest: seq<Guess>, confirmed: nat, quick: bool, removed: nat, ending: Ending)

  /** Walks over the guesses in order; `p` supplies the frame numbers and the preference. */
  function Walk(p: Predictor, host: Frame, w: Walked, now: nat): Walked
    decreases |w.rest|
  {
    if w.rest == [] then w
    else
      var g, more := w.rest[0], w.rest[1..];
      match Judge(p.(confirmed := w.confirmed), g, host)
      case Waiting => Walk(p, host, w.(kept := w.kept + [g], rest := more), now)
      case Removed => Walk(p, host, w.(rest := more, removed := w.removed + 1), now)
      case Credited =>
        var c := CellAt(host, g.x, g.y);
        DressedLength(more, |more|, g.y, if c.Some? then c.value.attr else PLAIN);
        Walk(p, host, w.(rest := Dressed(more, |more|, g.y, if c.Some? then c.value.attr else PLAIN),
                         confirmed := Larger(w.confirmed, g.epoch),
                         quick := w.quick || SatSub(now, g.at) < GLITCH_AGE, removed := w.removed + 1), now)
      case Stalled => w
      case Killed => w.(ending := KilledBy(g.epoch))
      case Refuted => w.(ending := RefutedBy)
  }

  lemma {:induction false} DressedLength(s: seq<Guess>, n: nat, y: nat, attr: Attr)
    requires n <= |s|
    ensures |Dressed(s, n, y, attr)| == n
    ensures forall i :: 0 <= i < n ==> Dressed(s, n, y, attr)[i] == s[i].(attr := Dressed(s, n, y, attr)[i].attr)
    ensures forall i :: 0 <= i < n ==> Dressed(s, n, y, attr)[i].attr in {s[i].attr, Some(attr)}
  {
    if n > 0 {
      DressedLength(s, n - 1, y, attr);
    }
  }

  /** A quick confirmation repairs one glitch, at most every 150 ms. */
  function Repair(p: Predictor, quick: bool, now: nat): Predictor {
    if quick && p.glitch > 0 && (p.quickAt.None? || SatSub(now, p.quickAt.value) >= REPAIR_INTERVAL)
    then p.(glitch := p.glitch - 1, quickAt := Some(now)) else p
  }

  function Settle(p: Predictor, host: Frame, w: Walked, now: nat): Predictor {
    var q := p.(pending := w.kept + w.rest, confirmed := w.confirmed);
    match w.ending
    case KilledBy(epoch) => KillEpoch(q, epoch, host)
    case RefutedBy => AtHost(Reset(q), host)
    case Finished =>
      if w.removed > 0 then Cull(Repair(q.(count := q.count + w.removed), w.quick, now), host) else Cull(q, host)
  }

  function Confirm(p: Predictor, host: Frame, now: nat): Predictor {
    if p.pending == [] then Cull(p, host)
    else if !p.active then AtHost(p, host)
    else Settle(p, host, Walk(p, host, Walked([], p.pending, p.confirmed, false, 0, Finished), now), now)
  }

  // ------------------------------------------------------------------------- overlaying

  predicate AlikeButUnder(a: Attr, b: Attr) {
    && a.bold == b.bold && a.dim == b.dim && a.italic == b.italic && a.blink == b.blink
    && a.reverse == b.reverse && a.strike == b.strike && a.fg == b.fg && a.bg == b.bg
  }

  function Replaced(c: Cell, ch: char, attr: Attr): Cell {
    c.(ch := ch, width := 1, suffix := [], empty := false, attr := attr)
  }

  /** A cell with a guess laid over it; `left` is the attribute to the left. */
  function Covered(c: Cell, g: Guess, left: Option<Attr>, flagging: bool, cols: nat): Cell {
    var flag := flagging && !(IsBlank(g.ch) && IsBlank(c.ch));
    if g.unknown then (if flag && g.x + 1 < cols then c.(attr := c.attr.(under := true)) else c)
    else
      var base := if g.attr.Some? then g.attr.value else if left.Some? then left.value else c.attr;
      var attr := base.(under := c.attr.under && !flag);
      if c.ch == g.ch && c.width == 1 && AlikeButUnder(c.attr, attr) then c
      else Replaced(c, g.ch, if flag then attr.(under := true) else attr)
  }

  function OverlayGuess(p: Predictor, f: Frame, g: Guess): Frame {
    if g.epoch > p.confirmed || !Inside(f, g.x, g.y) then f
    else
      var row := f.grid[g.y];
      var left := if g.x > 0 then Some(row[g.x - 1].attr) else None;
      RowSet(f, g.y, row[g.x := Covered(row[g.x], g, left, p.flagging, f.cols)])
  }

  function OverlayUpTo(p: Predictor, f: Frame, n: nat): Frame
    requires n <= |p.pending|
  {
    if n == 0 then f else OverlayGuess(p, OverlayUpTo(p, f, n - 1), p.pending[n - 1])
  }

  function OverlayCursors(p: Predictor, f: Frame, n: nat): Frame
    requires n <= |p.cursors|
  {
    if n == 0 then f
    else
      var g := OverlayCursors(p, f, n - 1);
      var c := p.cursors[n - 1];
      if c.epoch <= p.confirmed
      then g.(cursor := g.cursor.(x := Least(c.x, SatSub(f.cols, 1)), y := Least(c.y, SatSub(f.rows, 1)))) else g
  }

  function Overlay(p: Predictor, f: Frame): Frame {
    if !p.active || !p.show then f
    else OverlayCursors(p, OverlayUpTo(p, f, |p.pending|), |p.cursors|)
  }
}
