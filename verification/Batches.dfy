/** Input as it is read: which bytes are which key, and what a whole read does to the predictor. */
module Batches {
  import opened Basics
  import opened Lexer
  import opened Cells
  import opened Screen
  import opened Prediction
  import opened Guesses
  import opened Insertion
  import opened Keystrokes

  // ------------------------------------------------------------------------------ spelling

  predicate Parameters(s: seq<byte>) { forall i :: 0 <= i < |s| ==> 0x20 <= s[i] <= 0x3f }

  /** ESC [, parameters, and the byte that ends them. */
  predicate Sequence(bytes: seq<byte>, final: byte) {
    |bytes| >= 3 && bytes[0] == 0x1b && bytes[1] == 0x5b && Parameters(bytes[2..|bytes| - 1]) && bytes[|bytes| - 1] == final
  }

  predicate ShortSequence(bytes: seq<byte>, final: byte) { bytes == [0x1b, 0x4f, final] }

  predicate Spells(bytes: seq<byte>, key: Key) {
    match key
    case LeftArrow => ShortSequence(bytes, 0x44) || Sequence(bytes, 0x44)
    case RightArrow => ShortSequence(bytes, 0x43) || Sequence(bytes, 0x43)
    case Character(ch) => ch as nat != 0x1b && bytes == EncodeChar(ch)
    case Unpredicted =>
      || (|bytes| == 1 && (0x80 <= bytes[0] < 0xc0 || bytes[0] >= 0xf8))
      || (|bytes| == 2 && bytes[0] == 0x1b && bytes[1] != 0x4f && bytes[1] != 0x5b)
      || (|bytes| == 3 && bytes[0] == 0x1b && ShortSequence(bytes, bytes[2]) && bytes[2] != 0x43 && bytes[2] != 0x44)
      || (|bytes| >= 3 && Sequence(bytes, bytes[|bytes| - 1]) && bytes[|bytes| - 1] !in {0x43, 0x44}
          && !(0x20 <= bytes[|bytes| - 1] <= 0x3f))
  }

  /** The beginning of a key whose end has not been read. */
  predicate Unfinished(tail: seq<byte>) {
    || tail == [0x1b] || tail == [0x1b, 0x4f]
    || (|tail| >= 2 && tail[0] == 0x1b && tail[1] == 0x5b && Parameters(tail[2..]))
    || (tail != [] && 0xc0 <= tail[0] < 0xe0 && |tail| < 2)
    || (tail != [] && 0xe0 <= tail[0] < 0xf0 && |tail| < 3)
    || (tail != [] && 0xf0 <= tail[0] < 0xf8 && |tail| < 4)
  }

  lemma {:induction false} KeyEndIs(data: seq<byte>, i: nat, n: nat)
    requires i <= n <= |data| && (forall j :: i <= j < n ==> 0x20 <= data[j] <= 0x3f)
    requires n == |data| || !(0x20 <= data[n] <= 0x3f)
    ensures KeyEnd(data, i) == n
    decreases n - i
  {
    if i < n {
      KeyEndIs(data, i + 1, n);
    }
  }

  lemma {:induction false} KeyEndFound(data: seq<byte>, i: nat)
    requires i <= |data|
    ensures forall j :: i <= j < KeyEnd(data, i) ==> 0x20 <= data[j] <= 0x3f
    decreases |data| - i
  {
    if i < |data| && 0x20 <= data[i] <= 0x3f {
      KeyEndFound(data, i + 1);
    }
  }

  lemma {:induction false} SequenceRead(bytes: seq<byte>, final: byte, rest: seq<byte>)
    requires Sequence(bytes, final) && !(0x20 <= final <= 0x3f)
    ensures var k := NextKey(bytes + rest);
      && !k.MoreKeys? && k.len == |bytes|
      && KeyOf(k) == if final == 0x43 then RightArrow else if final == 0x44 then LeftArrow else Unpredicted
  {
    var data, n := bytes + rest, |bytes| - 1;
    forall j | 2 <= j < n ensures 0x20 <= data[j] <= 0x3f {
      assert data[j] == bytes[2..n][j - 2];
    }
    KeyEndIs(data, 2, n);
  }

  /** The bytes of a key are read as that key, whatever follows. */
  lemma {:induction false} KeyRead(bytes: seq<byte>, key: Key, rest: seq<byte>)
    requires Spells(bytes, key)
    ensures bytes != [] && var k := NextKey(bytes + rest); !k.MoreKeys? && k.len == |bytes| && KeyOf(k) == key
  {
    if bytes != [] && Sequence(bytes, bytes[|bytes| - 1]) && !key.Character? {
      SequenceRead(bytes, bytes[|bytes| - 1], rest);
    } else if key.Character? {
      hide NextKey;
      CharacterRead(key.ch, rest);
    }
  }

  lemma {:induction false} CharacterRead(ch: char, rest: seq<byte>)
    requires ch as nat != 0x1b
    ensures NextKey(EncodeChar(ch) + rest) == Typed(ch, |EncodeChar(ch)|)
  {
    if ch as nat >= 0x20 {
      NextTyped(ch, rest);
    }
  }

  /** What waits for more input is exactly an unfinished key. */
  lemma {:induction false} WaitsExactly(data: seq<byte>)
    requires data != []
    ensures NextKey(data).MoreKeys? <==> Unfinished(data)
  {
    if data[0] == 0x1b && |data| >= 2 && data[1] == 0x5b {
      KeyEndFound(data, 2);
      if Parameters(data[2..]) {
        forall j | 2 <= j < |data| ensures 0x20 <= data[j] <= 0x3f {
          assert data[j] == data[2..][j - 2];
        }
        KeyEndIs(data, 2, |data|);
      }
    }
  }

  // --------------------------------------------------------------------------- whole reads

  datatype Spelling = Spelling(bytes: seq<byte>, key: Key)

  predicate SpellingOk(s: Spelling) { Spells(s.bytes, s.key) }

  predicate SpellingsOk(ks: seq<Spelling>) { forall i :: 0 <= i < |ks| ==> SpellingOk(ks[i]) }

  function Spelled(ks: seq<Spelling>): seq<byte> {
    if ks == [] then [] else ks[0].bytes + Spelled(ks[1..])
  }

  /** In experimental mode every key is guessed in the confirmed epoch. */
  function Opens(p: Predictor): Predictor { if p.preference == Experimental then p.(epoch := p.confirmed) else p }

  /** One key after the other. */
  ghost predicate InTurn(t: Widths, states: seq<Predictor>, ks: seq<Spelling>, host: Frame, now: nat) {
    && |states| == |ks| + 1
    && forall i :: 0 <= i < |ks| ==> Pressed(t, Opens(states[i]), states[i + 1], host, ks[i].key, now)
  }

  lemma {:induction false} OneMore(t: Widths, p: Predictor, states: seq<Predictor>, k: Spelling, ks: seq<Spelling>, host: Frame, now: nat)
    requires InTurn(t, states, ks, host, now) && Pressed(t, Opens(p), states[0], host, k.key, now)
    ensures InTurn(t, [p] + states, [k] + ks, host, now)
  {
    hide Pressed;
    var s, l := [p] + states, [k] + ks;
    forall i | 0 <= i < |l| ensures Pressed(t, Opens(s[i]), s[i + 1], host, l[i].key, now) {
      if i > 0 {
        assert s[i] == states[i - 1] && s[i + 1] == states[i] && l[i] == ks[i - 1];
      }
    }
  }

  lemma {:induction false} KeyPressed(t: Widths, p: Predictor, host: Frame, k: Spelling, rest: seq<byte>, now: nat) returns (q: Predictor)
    requires Shape(p) && p.erase.None? && SpellingOk(k)
    ensures Pressed(t, Opens(p), q, host, k.key, now) && Shape(q) && q.erase.None?
    ensures PressAll(t, p, host, k.bytes + rest, now) == PressAll(t, q, host, rest, now)
  {
    hide Spells, NextKey, Press, Pressed, Shape;
    KeyRead(k.bytes, k.key, rest);
    var press := NextKey(k.bytes + rest);
    OpenedKeeps(p);
    assert Opened(p) == Opens(p);
    ShapeOpen(Opened(p));
    q := Press(t, Opened(p), host, press, now);
    PressIsPressed(t, Opened(p), host, press, now);
    PressKeeps(t, Opened(p), host, press, now);
    PressSame(t, Opened(p), host, press, now);
    assert (k.bytes + rest)[|k.bytes|..] == rest;
  }

  lemma {:induction false} AllPressed(t: Widths, p: Predictor, host: Frame, ks: seq<Spelling>, tail: seq<byte>, now: nat) returns (states: seq<Predictor>)
    requires Shape(p) && p.erase.None? && SpellingsOk(ks) && (tail == [] || Unfinished(tail))
    ensures InTurn(t, states, ks, host, now) && states[0] == p
    ensures var last := states[|ks|];
      PressAll(t, p, host, Spelled(ks) + tail, now) == if tail == [] then last else Opens(last).(esc := tail)
    decreases |ks|
  {
    hide Pressed, Shape, SpellingOk, Unfinished, NextKey, Press;
    if ks == [] {
      states := [p];
      assert Spelled(ks) + tail == tail;
      if tail != [] {
        WaitsExactly(tail);
      }
    } else {
      var rest := Spelled(ks[1..]) + tail;
      assert Spelled(ks) + tail == ks[0].bytes + rest;
      var q := KeyPressed(t, p, host, ks[0], rest, now);
      var more := AllPressed(t, q, host, ks[1..], tail, now);
      OneMore(t, p, more, ks[0], ks[1..], host, now);
      assert ks == [ks[0]] + ks[1..];
      states := [p] + more;
    }
  }

  /** Backspace or delete. */
  predicate Erasing(data: seq<byte>) { exists i :: 0 <= i < |data| && (data[i] == 0x08 || data[i] == 0x7f) }

  /** Everything guessed is forgotten, and what follows belongs to a later epoch. */
  function Forgotten(p: Predictor): Predictor { Later(p).(pending := [], active := false, count := 0, esc := [], cursors := []) }

  /** A read that holds an erasing byte stops prediction until the server has echoed it, and a read during
      that time is waited for too. A read of more than a hundred bytes, or any at all when prediction is
      off, just forgets every guess. */
  lemma {:induction false} ReadForgets(t: Widths, p: Predictor, input: seq<byte>, host: Frame, now: nat)
    ensures var q, data := Keystroke(t, p, input, host, now), p.esc + input;
      && (p.preference == Never ==> q == Forgotten(p))
      && (p.preference != Never && p.erase.Some? ==> q == p.(erase := if input == [] then p.erase else Some(NextSent(p))))
      && (p.preference != Never && p.erase.None? && Erasing(data) ==> q == Forgotten(p).(erase := Some(NextSent(p))))
      && (p.preference != Never && p.erase.None? && !Erasing(data) && |data| > 100 ==> q == Forgotten(p))
  {
    hide PressAll;
    LaterIs(p);
  }

  /** Any other read presses its keys in turn; the beginning of one at its end is kept for the next read. */
  lemma {:induction false} ReadPresses(t: Widths, p: Predictor, input: seq<byte>, ks: seq<Spelling>, tail: seq<byte>, host: Frame, now: nat) returns (states: seq<Predictor>)
    requires Shape(p) && p.erase.None? && p.preference != Never
    requires SpellingsOk(ks) && (tail == [] || Unfinished(tail)) && p.esc + input == Spelled(ks) + tail
    requires |p.esc + input| <= 100 && !Erasing(p.esc + input)
    ensures InTurn(t, states, ks, host, now) && states[0] == p.(esc := [])
    ensures var last := states[|ks|];
      Keystroke(t, p, input, host, now) == if tail == [] then last else Opens(last).(esc := tail)
  {
    hide PressAll, Shape, InTurn, Unfinished, SpellingsOk, Spelled;
    EscKeeps(p, []);
    states := AllPressed(t, p.(esc := []), host, ks, tail, now);
    var data := p.esc + input;
    assert !Erases(data);
  }
}
