/** The text typed on a confirmed band, and the row the overlay shows for it. */
module Insertion {
  import opened Basics
  import opened Lexer
  import opened Cells
  import opened Screen
  import opened Prediction
  import opened Guesses
  import opened Typing

  // -------------------------------------------------------------------- what is shown

  function ShownBy(g: Option<Guess>, confirmed: nat, host: char): char {
    if g.Some? && g.value.epoch <= confirmed && !g.value.unknown then g.value.ch else host
  }

  /** The character at a cell once the guesses are laid over the host's screen. */
  function ShownAt(p: Predictor, host: Frame, x: nat, y: nat): char {
    ShownBy(GuessAt(p, x, y), p.confirmed, CharAt(host, x, y))
  }

  lemma {:induction false} OverlayOne(p: Predictor, f: Frame, g: Guess, x: nat, y: nat)
    requires Inside(f, x, y)
    ensures var r := OverlayGuess(p, f, g);
      && Inside(r, x, y) && |r.grid| == |f.grid| && |r.grid[y]| == |f.grid[y]|
      && CharAt(r, x, y) == (if g.x == x && g.y == y then ShownBy(Some(g), p.confirmed, CharAt(f, x, y)) else CharAt(f, x, y))
  {}

  lemma {:induction false} FindAtNone(s: seq<Guess>, x: nat, y: nat, n: nat)
    requires n <= |s| && forall k :: 0 <= k < n ==> s[k].x != x || s[k].y != y
    ensures FindAt(s, x, y, n) == None
  {
    if n > 0 {
      FindAtNone(s, x, y, n - 1);
    }
  }

  lemma {:induction false} DistinctNone(s: seq<Guess>, n: nat)
    requires Distinct(s) && n < |s|
    ensures FindAt(s, s[n].x, s[n].y, n) == None
  {
    forall k | 0 <= k < n
      ensures s[k].x != s[n].x || s[k].y != s[n].y
    {
      assert !SameCell(s[k], s[n]);
    }
    FindAtNone(s, s[n].x, s[n].y, n);
  }

  lemma {:induction false} OverlayShows(p: Predictor, f: Frame, n: nat, x: nat, y: nat)
    requires n <= |p.pending| && Distinct(p.pending) && Inside(f, x, y)
    ensures var r := OverlayUpTo(p, f, n);
      Inside(r, x, y) && CharAt(r, x, y) == ShownBy(FindAt(p.pending, x, y, n), p.confirmed, CharAt(f, x, y))
  {
    hide OverlayGuess, CharAt, Inside;
    if n > 0 {
      OverlayShows(p, f, n - 1, x, y);
      OverlayOne(p, OverlayUpTo(p, f, n - 1), p.pending[n - 1], x, y);
      DistinctNone(p.pending, n - 1);
    }
  }

  lemma {:induction false} OverlayCursorsGrid(p: Predictor, f: Frame, n: nat)
    requires n <= |p.cursors|
    ensures OverlayCursors(p, f, n).grid == f.grid
  {
    if n > 0 {
      OverlayCursorsGrid(p, f, n - 1);
    }
  }

  lemma {:induction false} NoGuessShown(p: Predictor, host: Frame, x: nat, y: nat)
    requires p.pending == []
    ensures ShownAt(p, host, x, y) == CharAt(host, x, y)
  {}

  /** The overlay puts just that character on the screen. */
  lemma {:induction false} OverlayIs(p: Predictor, host: Frame, x: nat, y: nat)
    requires Shape(p) && p.show && Inside(host, x, y)
    ensures CharAt(Overlay(p, host), x, y) == ShownAt(p, host, x, y)
  {
    hide OverlayUpTo, OverlayCursors, Ordered, Banded;
    if p.active {
      OrderedDistinct(p.pending);
      OverlayShows(p, host, |p.pending|, x, y);
      OverlayCursorsGrid(p, OverlayUpTo(p, host, |p.pending|), |p.cursors|);
    } else {
      NoGuessShown(p, host, x, y);
    }
  }

  // ------------------------------------------------------------------- one character

  lemma {:induction false} OrderedInjective(s: seq<Guess>, g: Guess, h: Guess)
    requires Ordered(s) && g in s && h in s && SameCell(g, h)
    ensures g == h
  {
    var i :| 0 <= i < |s| && s[i] == g;
    var j :| 0 <= j < |s| && s[j] == h;
  }

  lemma {:induction false} MemberFound(p: Predictor, g: Guess)
    requires Ordered(p.pending) && g in p.pending
    ensures GuessAt(p, g.x, g.y) == Some(g)
  {
    GuessAtIs(p, g.x, g.y);
    var r := GuessAt(p, g.x, g.y);
    OrderedInjective(p.pending, g, r.value);
  }

  lemma {:induction false} NoneFound(p: Predictor, x: nat, y: nat)
    requires forall g :: g in p.pending ==> g.x != x || g.y != y
    ensures GuessAt(p, x, y) == None
  {
    GuessAtIs(p, x, y);
  }

  /** What the new row holds at column `x`. */
  function RowGuess(p: Predictor, host: Frame, cx: nat, y: nat, ch: char, now: nat, x: nat): Option<Guess> {
    if x < cx then GuessAt(p, x, y)
    else if x == cx then Some(Guessed(p, ch, x, y, GuessAt(p, x, y), host, false, now))
    else Some(ShiftedGuess(p, host, x, y, now))
  }

  lemma {:induction false} InsertedHas(p: Predictor, host: Frame, cx: nat, y: nat, ch: char, now: nat, n: nat, x: nat)
    requires x < n
    ensures var r, s := RowGuess(p, host, cx, y, ch, now, x), InsertedRow(p, host, cx, y, ch, now, n);
      if r.Some? then r.value in s && r.value.x == x && r.value.y == y else forall g :: g in s ==> g.x != x
  {
    hide GuessAt;
    GuessAtIs(p, n - 1, y);
    if x < n - 1 {
      InsertedHas(p, host, cx, y, ch, now, n - 1, x);
    } else {
      InsertedRowShape(p, host, cx, y, ch, now, n - 1);
    }
  }

  lemma {:induction false} InsertFinds(p: Predictor, host: Frame, ch: char, now: nat, x: nat)
    requires Ordered(p.pending) && x < host.cols
    ensures GuessAt(InsertAt(p, host, ch, now), x, p.y) == RowGuess(p, host, p.x, p.y, ch, now, x)
  {
    hide GuessAt, RowGuess, InsertedRow, Sort, RecordCursor, Ordered, Distinct;
    var q := InsertAt(p, host, ch, now);
    var row := InsertedRow(p, host, p.x, p.y, ch, now, host.cols);
    InsertedRowShape(p, host, p.x, p.y, ch, now, host.cols);
    RowReplaced(p.pending, row, p.y, host.cols);
    InsertedHas(p, host, p.x, p.y, ch, now, host.cols, x);
    var r := RowGuess(p, host, p.x, p.y, ch, now, x);
    InsertFields(p, host, ch, now);
    if r.Some? {
      MemberFound(q, r.value);
    } else {
      NoneFound(q, x, p.y);
    }
  }

  lemma {:induction false} InsertFields(p: Predictor, host: Frame, ch: char, now: nat)
    ensures var q := InsertAt(p, host, ch, now);
      && q.pending == Sort(Retain(p.pending, OutsideRow(p.y, host.cols)) + InsertedRow(p, host, p.x, p.y, ch, now, host.cols))
      && q == p.(pending := q.pending, cursors := q.cursors, x := p.x + 1, active := true)
  {
    hide Sort, InsertedRow;
    RecordSame(p.(x := p.x + 1, active := true));
  }

  /** A predictor whose guesses are all shown and whose next ones will be. */
  predicate Confirmed(t: Widths, p: Predictor, host: Frame) {
    && Shape(p) && p.erase.None? && !p.overwrite && p.epoch <= p.confirmed
    && PendingUpTo(p.pending, p.confirmed)
    && HostOk(t, host) && AllSound(t, host.cols, p.pending) && p.y < host.rows
  }

  lemma {:induction false} LeftShown(t: Widths, p: Predictor, host: Frame, x: nat)
    requires Confirmed(t, p, host) && 0 < x && x + 1 < host.cols
    ensures ShiftedGuess(p, host, x, p.y, 0).ch == ShownAt(p, host, x - 1, p.y) && !ShiftedGuess(p, host, x, p.y, 0).unknown
  {
    hide GuessAt, HostOk, CharAt, Shape;
    GuessAtIs(p, x - 1, p.y);
    HostChar(t, host, x - 1, p.y);
    var left := GuessAt(p, x - 1, p.y);
    if left.Some? {
      assert Sound(t, host.cols, left.value);
    }
  }

  /** Inserting one character shifts what is shown behind it by one column. */
  lemma {:induction false} InsertShows(t: Widths, p: Predictor, host: Frame, ch: char, now: nat, x: nat)
    requires Confirmed(t, p, host) && p.x + 1 < host.cols && x < host.cols
    ensures ShownAt(InsertAt(p, host, ch, now), host, x, p.y) ==
      if x < p.x then ShownAt(p, host, x, p.y)
      else if x == p.x then ch
      else if x + 1 == host.cols then CharAt(host, x, p.y)
      else ShownAt(p, host, x - 1, p.y)
  {
    hide GuessAt, HostOk, CharAt, InsertAt, Ordered, Sound;
    InsertFinds(p, host, ch, now, x);
    InsertFields(p, host, ch, now);
    if p.x < x && x + 1 < host.cols {
      LeftShown(t, p, host, x);
    }
  }

  lemma {:induction false} InsertConfirmed(t: Widths, p: Predictor, host: Frame, ch: char, now: nat)
    requires Confirmed(t, p, host) && p.x + 1 < host.cols && NarrowChar(t, ch)
    ensures var q := InsertAt(p, host, ch, now);
      && Confirmed(t, q, host) && q.x == p.x + 1 && q.y == p.y && q.confirmed == p.confirmed
      && q.show == p.show && q.preference == p.preference && q.esc == p.esc
  {
    hide HostOk, InsertAt, NarrowChar, Sound, Shape, Ordered, Sort, InsertedRow;
    InsertKeeps(p, host, ch, now);
    InsertFields(p, host, ch, now);
    var row := InsertedRow(p, host, p.x, p.y, ch, now, host.cols);
    InsertedRowShape(p, host, p.x, p.y, ch, now, host.cols);
    InsertedSound(t, p, host, p.x, p.y, ch, now, host.cols);
    SortedSound(t, host.cols, p.pending, OutsideRow(p.y, host.cols), row);
    RetainMembers(p.pending, OutsideRow(p.y, host.cols));
    SortIs(Retain(p.pending, OutsideRow(p.y, host.cols)) + row);
  }

  // ------------------------------------------------------------------------ whole rows

  function ShownRow(p: Predictor, host: Frame, y: nat): (s: seq<char>)
    ensures |s| == host.cols && forall x :: 0 <= x < host.cols ==> s[x] == ShownAt(p, host, x, y)
  {
    seq(host.cols, x requires 0 <= x < host.cols => ShownAt(p, host, x, y))
  }

  /** The row with text inserted at column `cx`; the last column is left to the host. */
  function Inserted(row: seq<char>, cx: nat, text: seq<char>, last: char): (s: seq<char>)
    ensures |s| == |row|
  {
    if text == [] || cx + |text| >= |row| then row
    else row[..cx] + text + row[cx..|row| - 1 - |text|] + [last]
  }

  lemma {:induction false} InsertRow(t: Widths, p: Predictor, host: Frame, ch: char, now: nat)
    requires Confirmed(t, p, host) && p.x + 1 < host.cols
    ensures ShownRow(InsertAt(p, host, ch, now), host, p.y)
         == Inserted(ShownRow(p, host, p.y), p.x, [ch], CharAt(host, host.cols - 1, p.y))
  {
    hide ShownAt, CharAt, InsertAt, Confirmed;
    var q := InsertAt(p, host, ch, now);
    var a, b := ShownRow(q, host, p.y), Inserted(ShownRow(p, host, p.y), p.x, [ch], CharAt(host, host.cols - 1, p.y));
    forall x | 0 <= x < host.cols
      ensures a[x] == b[x]
    {
      InsertShows(t, p, host, ch, now, x);
    }
  }

  lemma {:induction false} InsertedAt(row: seq<char>, cx: nat, text: seq<char>, last: char, x: nat)
    requires cx + |text| < |row| && text != [] && x < |row|
    ensures Inserted(row, cx, text, last)[x] ==
      if x < cx then row[x] else if x < cx + |text| then text[x - cx] else if x + 1 == |row| then last else row[x - |text|]
  {}

  lemma {:induction false} InsertedTwice(row: seq<char>, cx: nat, text: seq<char>, last: char)
    requires cx + |text| < |row| && text != []
    ensures Inserted(Inserted(row, cx, [text[0]], last), cx + 1, text[1..], last) == Inserted(row, cx, text, last)
  {
    hide Inserted;
    var one := Inserted(row, cx, [text[0]], last);
    if |text| == 1 {
      assert text == [text[0]] && text[1..] == [];
      InsertedNothing(one, cx + 1, last);
    } else {
      var a, b := Inserted(one, cx + 1, text[1..], last), Inserted(row, cx, text, last);
      forall x | 0 <= x < |row|
        ensures a[x] == b[x]
      {
        InsertedAt(one, cx + 1, text[1..], last, x);
        InsertedAt(row, cx, text, last, x);
        if x < cx + 1 || x >= cx + |text| {
          var z := if x < cx + 1 || x + 1 == |row| then x else x - (|text| - 1);
          InsertedAt(row, cx, [text[0]], last, z);
        }
      }
    }
  }

  function InsertAll(p: Predictor, host: Frame, text: seq<char>, now: nat): Predictor
    decreases |text|
  {
    if text == [] then p else InsertAll(InsertAt(p, host, text[0], now), host, text[1..], now)
  }

  predicate NarrowText(t: Widths, text: seq<char>) {
    forall i :: 0 <= i < |text| ==> NarrowChar(t, text[i]) && !IsControl(text[i]) && text[i] != REPLACEMENT
  }

  lemma {:induction false} InsertAllRow(t: Widths, p: Predictor, host: Frame, text: seq<char>, now: nat)
    requires Confirmed(t, p, host) && p.x + |text| < host.cols && NarrowText(t, text)
    ensures var q := InsertAll(p, host, text, now);
      && Confirmed(t, q, host) && q.x == p.x + |text| && q.y == p.y && q.show == p.show
      && ShownRow(q, host, p.y) == Inserted(ShownRow(p, host, p.y), p.x, text, CharAt(host, host.cols - 1, p.y))
    decreases |text|
  {
    hide ShownRow, CharAt, InsertAt, Confirmed, NarrowChar, Inserted;
    if text == [] {
      InsertedNothing(ShownRow(p, host, p.y), p.x, CharAt(host, host.cols - 1, p.y));
    } else {
      var q := InsertAt(p, host, text[0], now);
      InsertRow(t, p, host, text[0], now);
      InsertConfirmed(t, p, host, text[0], now);
      InsertAllRow(t, q, host, text[1..], now);
      InsertedTwice(ShownRow(p, host, p.y), p.x, text, CharAt(host, host.cols - 1, p.y));
    }
  }

  lemma {:induction false} InsertedNothing(row: seq<char>, cx: nat, last: char)
    ensures Inserted(row, cx, [], last) == row
  {}

  // ------------------------------------------------------------------- the typed bytes

  function TextBytes(text: seq<char>): seq<byte> {
    if text == [] then [] else EncodeChar(text[0]) + TextBytes(text[1..])
  }

  lemma {:induction false} NextTyped(ch: char, rest: seq<byte>)
    requires ch as nat >= 0x20
    ensures NextKey(EncodeChar(ch) + rest) == Typed(ch, |EncodeChar(ch)|)
  {
    var s := EncodeChar(ch);
    if ch as nat >= 0x80 {
      EncodeCharJoined(ch);
      assert (s + rest)[..|s|] == s;
    }
  }

  lemma {:induction false} HandleInserts(t: Widths, p: Predictor, host: Frame, ch: char, now: nat)
    requires NarrowChar(t, ch) && !IsControl(ch) && ch != REPLACEMENT && p.x + 1 < host.cols && !p.overwrite
    ensures HandleChar(t, p, host, ch, now) == InsertAt(p, host, ch, now)
  {
    hide InsertAt;
  }

  lemma {:induction false} PressAllInserts(t: Widths, p: Predictor, host: Frame, text: seq<char>, now: nat)
    requires Confirmed(t, p, host) && p.x + |text| < host.cols && NarrowText(t, text) && !p.preference.Experimental?
    ensures PressAll(t, p, host, TextBytes(text), now) == InsertAll(p, host, text, now)
    decreases |text|
  {
    hide InsertAt, NextKey, NarrowChar, HandleChar, IsControl, HostOk, Shape;
    if text != [] {
      var ch, rest := text[0], TextBytes(text[1..]);
      NarrowIs(t, ch);
      NextTyped(ch, rest);
      HandleInserts(t, p, host, ch, now);
      InsertConfirmed(t, p, host, ch, now);
      assert (EncodeChar(ch) + rest)[|EncodeChar(ch)|..] == rest;
      PressAllInserts(t, InsertAt(p, host, ch, now), host, text[1..], now);
    }
  }

  lemma {:induction false} NarrowIs(t: Widths, ch: char)
    requires NarrowChar(t, ch)
    ensures ch as nat >= 0x20
  {}

  lemma {:induction false} TextErases(t: Widths, text: seq<char>)
    requires NarrowText(t, text)
    ensures !Erases(TextBytes(text))
    decreases |text|
  {
    hide NarrowChar;
    if text != [] {
      NarrowIs(t, text[0]);
      TextErases(t, text[1..]);
      CharErases(text[0]);
    }
  }

  lemma {:induction false} CharErases(ch: char)
    requires ch as nat >= 0x20 && !IsControl(ch)
    ensures !Erases(EncodeChar(ch))
  {}

  function RowText(f: Frame, y: nat): seq<char> {
    seq(f.cols, x requires 0 <= x => CharAt(f, x, y))
  }

  lemma {:induction false} OverlayRow(p: Predictor, host: Frame, y: nat)
    requires Shape(p) && p.show && Shaped(host) && y < host.rows
    ensures RowText(Overlay(p, host), y) == ShownRow(p, host, y)
  {
    hide Overlay, ShownAt, CharAt, Shape;
    OverlaySize(p, host);
    forall x | 0 <= x < host.cols
      ensures CharAt(Overlay(p, host), x, y) == ShownAt(p, host, x, y)
    {
      OverlayIs(p, host, x, y);
    }
  }

  lemma {:induction false} OverlayUpToSize(p: Predictor, f: Frame, n: nat)
    requires n <= |p.pending|
    ensures OverlayUpTo(p, f, n).cols == f.cols
  {
    if n > 0 {
      OverlayUpToSize(p, f, n - 1);
    }
  }

  lemma {:induction false} OverlayCursorsSize(p: Predictor, f: Frame, n: nat)
    requires n <= |p.cursors|
    ensures OverlayCursors(p, f, n).cols == f.cols
  {
    if n > 0 {
      OverlayCursorsSize(p, f, n - 1);
    }
  }

  lemma {:induction false} OverlaySize(p: Predictor, f: Frame)
    ensures Overlay(p, f).cols == f.cols
  {
    OverlayUpToSize(p, f, |p.pending|);
    OverlayCursorsSize(p, OverlayUpTo(p, f, |p.pending|), |p.cursors|);
  }

  /** Typing text on a confirmed, shown band: the row on the screen is the row shown before
      with the text inserted at the cursor, the last column left to the host. */
  lemma {:induction false} TypingInserts(t: Widths, p: Predictor, host: Frame, text: seq<char>, now: nat)
    requires Confirmed(t, p, host) && p.show && p.esc == [] && !p.preference.Never? && !p.preference.Experimental?
    requires NarrowText(t, text) && p.x + |text| < host.cols && |TextBytes(text)| <= 100
    ensures var q := Keystroke(t, p, TextBytes(text), host, now);
      && RowText(Overlay(q, host), p.y) == Inserted(RowText(Overlay(p, host), p.y), p.x, text, CharAt(host, host.cols - 1, p.y))
      && q.x == p.x + |text| && q.y == p.y
  {
    hide PressAll, Overlay, ShownRow, InsertAll, TextBytes, RowText, HostOk, Inserted;
    assert [] + TextBytes(text) == TextBytes(text);
    TextErases(t, text);
    PressAllInserts(t, p, host, text, now);
    InsertAllRow(t, p, host, text, now);
    HostShaped(t, host);
    OverlayRow(p, host, p.y);
    OverlayRow(InsertAll(p, host, text, now), host, p.y);
  }

  lemma {:induction false} HostShaped(t: Widths, host: Frame)
    requires HostOk(t, host)
    ensures Shaped(host)
  {}
}
