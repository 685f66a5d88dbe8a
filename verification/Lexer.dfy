/** The grammar of host bytes: one command at a time, and whole strings in any split. */
module Lexer {
  import opened Basics

  const BEL: byte := 0x07
  const ESC: byte := 0x1b
  const REPLACEMENT: char := '\U{FFFD}'

  datatype Command =
    | Ignored
    | Control(code: byte)
    | Rune(ch: char)
    | Escape(kind: byte)
    | Csi(params: seq<byte>, final: byte)
    | Osc(payload: seq<byte>)

  /** A recognised command and its length, or the need for bytes not yet received. */
  datatype Item = NeedMore | Item(cmd: Command, len: nat)

  // ------------------------------------------------------------------------- UTF-8

  function SequenceLength(lead: byte): nat {
    if lead < 0x80 then 1 else if lead < 0xC0 then 0 else if lead < 0xE0 then 2
    else if lead < 0xF0 then 3 else if lead < 0xF8 then 4 else 0
  }

  /** The value carried by a sequence of two to four bytes: five, four or three bits of
      the first, and six of each of the others. */
  function CodePoint(s: seq<byte>): nat
    requires 2 <= |s| <= 4
  {
    var low := s[|s| - 1] as nat % 0x40;
    if |s| == 2 then s[0] as nat % 0x20 * 0x40 + low
    else
      var mid := s[|s| - 2] as nat % 0x40;
      if |s| == 3 then (s[0] as nat % 0x10 * 0x40 + mid) * 0x40 + low
      else ((s[0] as nat % 8 * 0x40 + s[1] as nat % 0x40) * 0x40 + mid) * 0x40 + low
  }

  predicate IsScalar(v: nat) {
    v < 0xD800 || 0xE000 <= v < 0x11_0000
  }

  /** Least value that needs `n` bytes. */
  function LeastIn(n: nat): nat {
    if n == 2 then 0x80 else if n == 3 then 0x800 else 0x1_0000
  }

  predicate WellFormed(s: seq<byte>)
    requires 2 <= |s| <= 4
  {
    (forall i :: 1 <= i < |s| ==> 0x80 <= s[i] < 0xC0) && LeastIn(|s|) <= CodePoint(s) && IsScalar(CodePoint(s))
  }

  function DecodeChar(data: seq<byte>): (r: Item)
    requires data != []
    ensures r.Item? ==> 0 < r.len <= |data|
  {
    var n := SequenceLength(data[0]);
    if n == 1 then Item(Rune(data[0] as char), 1)
    else if n == 0 then Item(Rune(REPLACEMENT), 1)
    else if n > |data| then NeedMore
    else if WellFormed(data[..n]) then Item(Rune(CodePoint(data[..n]) as char), n)
    else Item(Rune(REPLACEMENT), 1)
  }

  // --------------------------------------------------------------- escape sequences

  /** First index from `i` on whose byte ends a control sequence, or the length. */
  function CsiEnd(data: seq<byte>, i: nat): (k: nat)
    requires i <= |data|
    ensures i <= k <= |data|
    decreases |data| - i
  {
    if i == |data| || data[i] >= 0x40 then i else CsiEnd(data, i + 1)
  }

  /** First index from `i` on of an intermediate byte before `end`, or `end`. */
  function ParamEnd(data: seq<byte>, i: nat, end: nat): (k: nat)
    requires i <= end <= |data|
    ensures i <= k <= end
    decreases end - i
  {
    if i == end || 0x20 <= data[i] < 0x30 then i else ParamEnd(data, i + 1, end)
  }

  function LexCsi(data: seq<byte>): (r: Item)
    requires |data| >= 2
    ensures r.Item? ==> 0 < r.len <= |data|
  {
    var end := CsiEnd(data, 2);
    if end == |data| then NeedMore
    else if data[end] <= 0x7e then Item(Csi(data[2..ParamEnd(data, 2, end)], data[end]), end + 1)
    else Item(Ignored, end + 1)
  }

  predicate StringEnd(data: seq<byte>, i: nat) {
    i + 1 < |data| && data[i] == ESC && data[i + 1] == '\\' as byte
  }

  /** First index from `i` on where an operating system command ends, or the length. */
  function OscEnd(data: seq<byte>, i: nat): (k: nat)
    requires i <= |data|
    ensures i <= k <= |data|
    ensures k < |data| ==> data[k] == BEL || StringEnd(data, k)
    decreases |data| - i
  {
    if i == |data| || data[i] == BEL || StringEnd(data, i) then i else OscEnd(data, i + 1)
  }

  function LexOsc(data: seq<byte>): (r: Item)
    requires |data| >= 2
    ensures r.Item? ==> 0 < r.len <= |data|
  {
    var end := OscEnd(data, 2);
    if end == |data| then NeedMore
    else Item(Osc(data[2..end]), if data[end] == BEL then end + 1 else end + 2)
  }

  function Lex(data: seq<byte>): (r: Item)
    requires data != []
    ensures r.Item? ==> 0 < r.len <= |data|
  {
    if data[0] == ESC then
      if |data| == 1 then NeedMore
      else if data[1] == '[' as byte then LexCsi(data)
      else if data[1] == ']' as byte then LexOsc(data)
      else Item(Escape(data[1]), 2)
    else if data[0] < 0x20 then Item(Control(data[0]), 1)
    else DecodeChar(data)
  }

  // ------------------------------------------------------------------ whole strings

  /** A state under construction and the bytes that still wait for their continuation. */
  datatype Fed<S> = Fed(state: S, carry: seq<byte>)

  function Run<S>(exec: (S, Command) -> S, s: S, data: seq<byte>): Fed<S>
    decreases |data|
  {
    if data == [] then Fed(s, [])
    else
      match Lex(data)
      case NeedMore => Fed(s, data)
      case Item(cmd, len) => Run(exec, exec(s, cmd), data[len..])
  }

  function Feed<S>(exec: (S, Command) -> S, t: Fed<S>, data: seq<byte>): Fed<S> {
    Run(exec, t.state, t.carry + data)
  }

  // ------------------------------------------------------------- streaming in pieces

  lemma {:induction false} CsiEndStable(data: seq<byte>, more: seq<byte>, i: nat)
    requires i <= |data| && CsiEnd(data, i) < |data|
    ensures CsiEnd(data + more, i) == CsiEnd(data, i)
    decreases |data| - i
  {
    if data[i] < 0x40 {
      CsiEndStable(data, more, i + 1);
    }
  }

  lemma {:induction false} ParamEndStable(data: seq<byte>, more: seq<byte>, i: nat, end: nat)
    requires i <= end <= |data|
    ensures ParamEnd(data + more, i, end) == ParamEnd(data, i, end)
    decreases end - i
  {
    if i < end && !(0x20 <= data[i] < 0x30) {
      ParamEndStable(data, more, i + 1, end);
    }
  }

  lemma {:induction false} OscEndStable(data: seq<byte>, more: seq<byte>, i: nat)
    requires i <= |data| && OscEnd(data, i) < |data|
    ensures OscEnd(data + more, i) == OscEnd(data, i)
    decreases |data| - i
  {
    if data[i] != BEL && !StringEnd(data, i) {
      OscEndStable(data, more, i + 1);
    }
  }

  lemma {:induction false} DecodeCharStable(data: seq<byte>, more: seq<byte>)
    requires data != [] && DecodeChar(data).Item?
    ensures DecodeChar(data + more) == DecodeChar(data)
  {
    var n := SequenceLength(data[0]);
    if n <= |data| {
      assert (data + more)[..n] == data[..n];
    }
  }

  /** A recognised command stays the same however the bytes go on. */
  lemma {:induction false} LexStable(data: seq<byte>, more: seq<byte>)
    requires data != [] && Lex(data).Item?
    ensures Lex(data + more) == Lex(data)
  {
    hide DecodeChar, CsiEnd, ParamEnd, OscEnd;
    if data[0] == ESC && data[1] == '[' as byte {
      var end := CsiEnd(data, 2);
      CsiEndStable(data, more, 2);
      ParamEndStable(data, more, 2, end);
      assert (data + more)[2..ParamEnd(data, 2, end)] == data[2..ParamEnd(data, 2, end)];
    } else if data[0] == ESC && data[1] == ']' as byte {
      var end := OscEnd(data, 2);
      OscEndStable(data, more, 2);
      assert (data + more)[2..end] == data[2..end];
    } else if data[0] >= 0x20 {
      DecodeCharStable(data, more);
    }
  }

  lemma {:induction false} RunResumes<S>(exec: (S, Command) -> S, s: S, data: seq<byte>, more: seq<byte>)
    ensures var r := Run(exec, s, data); Run(exec, s, data + more) == Run(exec, r.state, r.carry + more)
    decreases |data|
  {
    hide Lex;
    if data == [] {
      assert data + more == more && [] + more == more;
    } else if Lex(data).Item? {
      var item := Lex(data);
      LexStable(data, more);
      assert (data + more)[item.len..] == data[item.len..] + more;
      RunResumes(exec, exec(s, item.cmd), data[item.len..], more);
    }
  }

  /** Bytes may arrive in any pieces, split anywhere: the state and the carry are the same. */
  lemma {:induction false} FeedConcat<S>(exec: (S, Command) -> S, t: Fed<S>, a: seq<byte>, b: seq<byte>)
    ensures Feed(exec, Feed(exec, t, a), b) == Feed(exec, t, a + b)
  {
    RunResumes(exec, t.state, t.carry + a, b);
    assert t.carry + (a + b) == (t.carry + a) + b;
  }

  function Flat(pieces: seq<seq<byte>>): seq<byte> {
    if pieces == [] then [] else Flat(pieces[..|pieces| - 1]) + pieces[|pieces| - 1]
  }

  function FeedAll<S>(exec: (S, Command) -> S, t: Fed<S>, pieces: seq<seq<byte>>): Fed<S> {
    if pieces == [] then t else Feed(exec, FeedAll(exec, t, pieces[..|pieces| - 1]), pieces[|pieces| - 1])
  }

  /** A carry waits: on its own it is not a whole command. */
  predicate Waiting(carry: seq<byte>) {
    carry == [] || Lex(carry).NeedMore?
  }

  lemma {:induction false} RunWaits<S>(exec: (S, Command) -> S, s: S, data: seq<byte>)
    ensures Waiting(Run(exec, s, data).carry)
    decreases |data|
  {
    if data != [] && Lex(data).Item? {
      RunWaits(exec, exec(s, Lex(data).cmd), data[Lex(data).len..]);
    }
  }

  /** However a string is cut up, the outcome is that of the whole string. */
  lemma {:induction false} AnySplit<S>(exec: (S, Command) -> S, t: Fed<S>, pieces: seq<seq<byte>>)
    requires Waiting(t.carry)
    ensures FeedAll(exec, t, pieces) == Feed(exec, t, Flat(pieces))
    decreases |pieces|
  {
    if pieces == [] {
      assert t.carry + [] == t.carry;
    } else {
      AnySplit(exec, t, pieces[..|pieces| - 1]);
      FeedConcat(exec, t, Flat(pieces[..|pieces| - 1]), pieces[|pieces| - 1]);
    }
  }

  /** In particular bytes that follow a feed, with whatever carry it left, may be cut anywhere. */
  lemma {:induction false} AnySplitAfter<S>(exec: (S, Command) -> S, t: Fed<S>, before: seq<byte>, pieces: seq<seq<byte>>)
    ensures FeedAll(exec, Feed(exec, t, before), pieces) == Feed(exec, t, before + Flat(pieces))
  {
    RunWaits(exec, t.state, t.carry + before);
    AnySplit(exec, Feed(exec, t, before), pieces);
    FeedConcat(exec, t, before, Flat(pieces));
  }

  // ---------------------------------------------------------------- rendered commands

  /** `bytes` is one whole command. */
  predicate Renders(bytes: seq<byte>, cmd: Command) {
    bytes != [] && Lex(bytes) == Item(cmd, |bytes|)
  }

  lemma {:induction false} FeedOne<S>(exec: (S, Command) -> S, s: S, bytes: seq<byte>, cmd: Command)
    requires Renders(bytes, cmd)
    ensures Feed(exec, Fed(s, []), bytes) == Fed(exec(s, cmd), [])
  {
    assert [] + bytes == bytes;
    assert bytes[|bytes|..] == [];
    assert Run(exec, s, bytes) == Run(exec, exec(s, cmd), bytes[|bytes|..]);
  }

  /** Two strings that are consumed whole, one after the other. */
  lemma {:induction false} FeedThen<S>(exec: (S, Command) -> S, s: S, a: seq<byte>, s': S, b: seq<byte>, s'': S)
    requires Feed(exec, Fed(s, []), a) == Fed(s', [])
    requires Feed(exec, Fed(s', []), b) == Fed(s'', [])
    ensures Feed(exec, Fed(s, []), a + b) == Fed(s'', [])
  {
    FeedConcat(exec, Fed(s, []), a, b);
  }

  // ------------------------------------------------------------------ encoding a char

  function EncodeChar(ch: char): (s: seq<byte>)
    ensures 0 < |s| <= 4
  {
    var v := ch as nat;
    if v < 0x80 then [v as byte]
    else if v < 0x800 then [(0xC0 + v / 0x40) as byte, (0x80 + v % 0x40) as byte]
    else if v < 0x1_0000 then
      [(0xE0 + v / 0x1000) as byte, (0x80 + v / 0x40 % 0x40) as byte, (0x80 + v % 0x40) as byte]
    else
      [(0xF0 + v / 0x4_0000) as byte, (0x80 + v / 0x1000 % 0x40) as byte,
       (0x80 + v / 0x40 % 0x40) as byte, (0x80 + v % 0x40) as byte]
  }

  lemma {:induction false} SplitSix(v: nat)
    ensures v / 0x40 * 0x40 + v % 0x40 == v
    ensures v / 0x40 / 0x40 == v / 0x1000 && v / 0x1000 / 0x40 == v / 0x4_0000
  {}

  lemma {:induction false} EncodeCharTwo(ch: char)
    requires 0x80 <= ch as nat < 0x800
    ensures var s := EncodeChar(ch); |s| == 2 && SequenceLength(s[0]) == 2 && WellFormed(s) && CodePoint(s) == ch as nat
  {}

  lemma {:induction false} JoinThree(s: seq<byte>, v: nat)
    requires |s| == 3 && v < 0x1_0000
    requires s[0] as nat == 0xE0 + v / 0x1000 && s[1] as nat == 0x80 + v / 0x40 % 0x40 && s[2] as nat == 0x80 + v % 0x40
    ensures CodePoint(s) == v
  {
    SplitSix(v);
    var q := v / 0x40;
    assert s[0] as nat % 0x10 == q / 0x40;
    assert s[1] as nat % 0x40 == q % 0x40;
  }

  lemma {:induction false} JoinFour(s: seq<byte>, v: nat)
    requires |s| == 4 && v < 0x11_0000
    requires s[0] as nat == 0xF0 + v / 0x4_0000 && s[1] as nat == 0x80 + v / 0x1000 % 0x40
    requires s[2] as nat == 0x80 + v / 0x40 % 0x40 && s[3] as nat == 0x80 + v % 0x40
    ensures CodePoint(s) == v
  {
    SplitSix(v);
    var q, p := v / 0x40, v / 0x1000;
    assert s[0] as nat % 8 == p / 0x40;
    assert s[1] as nat % 0x40 == p % 0x40;
    assert s[2] as nat % 0x40 == q % 0x40;
    assert p / 0x40 * 0x40 + p % 0x40 == p;
    assert p * 0x40 + q % 0x40 == q;
  }

  lemma {:induction false} EncodeCharJoined(ch: char)
    requires ch as nat >= 0x80
    ensures var s := EncodeChar(ch);
      2 <= |s| && SequenceLength(s[0]) == |s| && CodePoint(s) == ch as nat && WellFormed(s)
  {
    hide CodePoint;
    var s := EncodeChar(ch);
    if |s| == 2 {
      EncodeCharTwo(ch);
    } else if |s| == 3 {
      JoinThree(s, ch as nat);
    } else {
      JoinFour(s, ch as nat);
    }
  }

  /** Every printable character survives UTF-8 encoding and decoding. */
  lemma {:induction false} EncodeCharRenders(ch: char)
    requires ch as nat >= 0x20
    ensures Renders(EncodeChar(ch), Rune(ch))
  {
    var s := EncodeChar(ch);
    if ch as nat >= 0x80 {
      EncodeCharJoined(ch);
      assert s[..|s|] == s;
    }
  }
}
