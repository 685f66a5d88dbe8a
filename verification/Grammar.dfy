/** Which bytes are which command of the host, and what happens to bytes that are none. */
module Grammar {
  import opened Basics
  import opened Lexer

  /** Parameters and, from the first byte between 20 and 2F on, what is passed over. */
  predicate Body(s: seq<byte>, params: seq<byte>) {
    && params <= s && (forall i :: 0 <= i < |s| ==> s[i] < 0x40)
    && (forall i :: 0 <= i < |params| ==> !(0x20 <= params[i] < 0x30))
    && (|params| < |s| ==> 0x20 <= s[|params|] < 0x30)
  }

  /** ESC [, a body, and a byte from 40 on. */
  predicate Sequence(bytes: seq<byte>, params: seq<byte>, final: byte) {
    && |bytes| >= 3 && bytes[0] == 0x1b && bytes[1] == 0x5b && bytes[|bytes| - 1] == final && final >= 0x40
    && Body(bytes[2..|bytes| - 1], params)
  }

  /** No bell, and no ESC \ inside. */
  predicate Payload(s: seq<byte>) {
    forall i :: 0 <= i < |s| ==> s[i] != 0x07 && (i + 1 < |s| ==> !(s[i] == 0x1b && s[i + 1] == 0x5c))
  }

  /** The bytes of a command. */
  predicate Spells(bytes: seq<byte>, cmd: Command) {
    match cmd
    case Control(code) => code < 0x20 && code != 0x1b && bytes == [code]
    case Rune(ch) => ch as nat >= 0x20 && bytes == EncodeChar(ch)
    case Escape(kind) => kind != 0x5b && kind != 0x5d && bytes == [0x1b, kind]
    case Csi(params, final) => final <= 0x7e && Sequence(bytes, params, final)
    case Osc(payload) => Payload(payload) && (bytes == [0x1b, 0x5d] + payload + [0x07] || bytes == [0x1b, 0x5d] + payload + [0x1b, 0x5c])
    case Ignored => |bytes| >= 3 && bytes[|bytes| - 1] > 0x7e && Body(bytes[2..|bytes| - 1], Before(bytes[2..|bytes| - 1], 0)) && bytes[..2] == [0x1b, 0x5b]
  }

  /** What comes before the first byte between 20 and 2F. */
  function Before(s: seq<byte>, i: nat): seq<byte>
    requires i <= |s|
    decreases |s| - i
  {
    if i == |s| || 0x20 <= s[i] < 0x30 then s[..i] else Before(s, i + 1)
  }

  /** The beginning of a command whose end has not arrived. */
  predicate Partial(data: seq<byte>) {
    || data == [0x1b]
    || (|data| >= 2 && data[0] == 0x1b && data[1] == 0x5b && forall i :: 2 <= i < |data| ==> data[i] < 0x40)
    || (|data| >= 2 && data[0] == 0x1b && data[1] == 0x5d && Payload(data[2..]))
    || (data != [] && 0xc0 <= data[0] < 0xe0 && |data| < 2)
    || (data != [] && 0xe0 <= data[0] < 0xf0 && |data| < 3)
    || (data != [] && 0xf0 <= data[0] < 0xf8 && |data| < 4)
  }

  // ------------------------------------------------------------------------ escape sequences

  lemma {:induction false} CsiEndIs(data: seq<byte>, i: nat, n: nat)
    requires i <= n <= |data| && (forall j :: i <= j < n ==> data[j] < 0x40) && (n < |data| ==> data[n] >= 0x40)
    ensures CsiEnd(data, i) == n
    decreases n - i
  {
    if i < n {
      CsiEndIs(data, i + 1, n);
    }
  }

  lemma {:induction false} ParamEndIs(data: seq<byte>, i: nat, n: nat, end: nat)
    requires i <= n <= end <= |data| && (forall j :: i <= j < n ==> !(0x20 <= data[j] < 0x30)) && (n < end ==> 0x20 <= data[n] < 0x30)
    ensures ParamEnd(data, i, end) == n
    decreases n - i
  {
    if i < n {
      ParamEndIs(data, i + 1, n, end);
    }
  }

  lemma {:induction false} SequenceRead(bytes: seq<byte>, params: seq<byte>, final: byte, rest: seq<byte>)
    requires Sequence(bytes, params, final)
    ensures Lex(bytes + rest) == Item(if final <= 0x7e then Csi(params, final) else Ignored, |bytes|)
  {
    var data, n := bytes + rest, |bytes| - 1;
    var body := bytes[2..n];
    forall j | 2 <= j < n ensures data[j] == body[j - 2] {}
    CsiEndIs(data, 2, n);
    ParamEndIs(data, 2, 2 + |params|, n);
    assert data[2..2 + |params|] == params;
  }

  lemma {:induction false} BeforeIs(s: seq<byte>, i: nat)
    requires i <= |s| && forall j :: 0 <= j < i ==> !(0x20 <= s[j] < 0x30)
    ensures Before(s, i) <= s && (forall j :: 0 <= j < |Before(s, i)| ==> !(0x20 <= s[j] < 0x30))
    ensures |Before(s, i)| < |s| ==> 0x20 <= s[|Before(s, i)|] < 0x30
    decreases |s| - i
  {
    if i < |s| && !(0x20 <= s[i] < 0x30) {
      BeforeIs(s, i + 1);
    }
  }

  lemma {:induction false} OscEndIs(data: seq<byte>, i: nat, n: nat)
    requires i <= n <= |data| && (forall j :: i <= j < n ==> data[j] != 0x07 && !StringEnd(data, j))
    requires n < |data| ==> data[n] == 0x07 || StringEnd(data, n)
    ensures OscEnd(data, i) == n
    decreases n - i
  {
    if i < n {
      OscEndIs(data, i + 1, n);
    }
  }

  lemma {:induction false} OscRead(payload: seq<byte>, end: seq<byte>, rest: seq<byte>)
    requires Payload(payload) && (end == [0x07] || end == [0x1b, 0x5c])
    ensures Lex([0x1b, 0x5d] + payload + end + rest) == Item(Osc(payload), 2 + |payload| + |end|)
  {
    var data, n := [0x1b, 0x5d] + payload + end + rest, 2 + |payload|;
    forall j | 2 <= j < n ensures data[j] == payload[j - 2] {}
    assert data[n..n + |end|] == end;
    assert data[n] == end[0] && data[n + |end| - 1] == end[|end| - 1];
    forall j | 2 <= j < n ensures data[j] != 0x07 && !StringEnd(data, j) {
      if j + 1 < n {
        assert data[j + 1] == payload[j - 1];
      }
    }
    OscEndIs(data, 2, n);
    assert data[2..n] == payload;
  }

  // ------------------------------------------------------------------------------- characters

  lemma {:induction false} CharacterRead(ch: char, rest: seq<byte>)
    requires ch as nat >= 0x20
    ensures Lex(EncodeChar(ch) + rest) == Item(Rune(ch), |EncodeChar(ch)|)
  {
    var s := EncodeChar(ch);
    if ch as nat >= 0x80 {
      EncodeCharJoined(ch);
      assert (s + rest)[..|s|] == s;
    }
  }

  lemma {:induction false} Digits(a: nat, b: nat)
    requires b < 0x40
    ensures (a * 0x40 + b) / 0x40 == a && (a * 0x40 + b) % 0x40 == b
  {}

  lemma {:induction false} FourDigits(a: nat, b: nat, c: nat, d: nat)
    requires b < 0x40 && c < 0x40 && d < 0x40
    ensures var v := ((a * 0x40 + b) * 0x40 + c) * 0x40 + d;
      && v / 0x4_0000 == a && v / 0x1000 == a * 0x40 + b && v / 0x1000 % 0x40 == b
      && v / 0x40 % 0x40 == c && v % 0x40 == d
  {
    var v := ((a * 0x40 + b) * 0x40 + c) * 0x40 + d;
    SplitSix(v);
    Digits((a * 0x40 + b) * 0x40 + c, d);
    Digits(a * 0x40 + b, c);
    Digits(a, b);
  }

  /** What decodes as a character is the encoding of that character, and of no other form. */
  lemma {:induction false} TwoEncodes(s: seq<byte>)
    requires |s| == 2 && SequenceLength(s[0]) == 2 && WellFormed(s)
    ensures EncodeChar(CodePoint(s) as char) == s
  {
    var a, b := s[0] as nat % 0x20, s[1] as nat % 0x40;
    Digits(a, b);
    assert s[0] as nat == 0xC0 + a && s[1] as nat == 0x80 + b;
  }

  lemma {:induction false} ThreeEncodes(s: seq<byte>)
    requires |s| == 3 && SequenceLength(s[0]) == 3 && WellFormed(s)
    ensures EncodeChar(CodePoint(s) as char) == s
  {
    var a, b, c := s[0] as nat % 0x10, s[1] as nat % 0x40, s[2] as nat % 0x40;
    FourDigits(0, a, b, c);
    assert s[0] as nat == 0xE0 + a && s[1] as nat == 0x80 + b && s[2] as nat == 0x80 + c;
  }

  lemma {:induction false} FourEncodes(s: seq<byte>)
    requires |s| == 4 && SequenceLength(s[0]) == 4 && WellFormed(s)
    ensures EncodeChar(CodePoint(s) as char) == s
  {
    var a, b, c, d := s[0] as nat % 8, s[1] as nat % 0x40, s[2] as nat % 0x40, s[3] as nat % 0x40;
    FourDigits(a, b, c, d);
    assert s[0] as nat == 0xF0 + a && s[1] as nat == 0x80 + b && s[2] as nat == 0x80 + c && s[3] as nat == 0x80 + d;
  }

  // ----------------------------------------------------------------------------- the theorem

  /** A command is read as itself, whatever follows. */
  lemma {:induction false} CommandRead(bytes: seq<byte>, cmd: Command, rest: seq<byte>)
    requires Spells(bytes, cmd)
    ensures bytes != [] && Lex(bytes + rest) == Item(cmd, |bytes|)
  {
    match cmd
    case Csi(params, final) => SequenceRead(bytes, params, final, rest);
    case Ignored => SequenceRead(bytes, Before(bytes[2..|bytes| - 1], 0), bytes[|bytes| - 1], rest);
    case Rune(ch) => CharacterRead(ch, rest);
    case Osc(payload) =>
      if bytes == [0x1b, 0x5d] + payload + [0x07] {
        OscRead(payload, [0x07], rest);
      } else {
        OscRead(payload, [0x1b, 0x5c], rest);
      }
    case _ =>
  }

  lemma {:induction false} CsiEndFound(data: seq<byte>, i: nat)
    requires i <= |data|
    ensures forall j :: i <= j < CsiEnd(data, i) ==> data[j] < 0x40
    ensures CsiEnd(data, i) < |data| ==> data[CsiEnd(data, i)] >= 0x40
    decreases |data| - i
  {
    if i < |data| && data[i] < 0x40 {
      CsiEndFound(data, i + 1);
    }
  }

  lemma {:induction false} ParamEndFound(data: seq<byte>, i: nat, end: nat)
    requires i <= end <= |data|
    ensures var k := ParamEnd(data, i, end);
      (forall j :: i <= j < k ==> !(0x20 <= data[j] < 0x30)) && (k < end ==> 0x20 <= data[k] < 0x30)
    decreases end - i
  {
    if i < end && !(0x20 <= data[i] < 0x30) {
      ParamEndFound(data, i + 1, end);
    }
  }

  lemma {:induction false} OscEndFound(data: seq<byte>, i: nat)
    requires i <= |data|
    ensures forall j :: i <= j < OscEnd(data, i) ==> data[j] != 0x07 && !StringEnd(data, j)
    decreases |data| - i
  {
    if i < |data| && data[i] != 0x07 && !StringEnd(data, i) {
      OscEndFound(data, i + 1);
    }
  }

  lemma {:induction false} SequenceIs(data: seq<byte>)
    requires |data| >= 2 && data[0] == 0x1b && data[1] == 0x5b
    ensures Lex(data).NeedMore? <==> Partial(data)
    ensures var r := Lex(data); r.Item? ==> Spells(data[..r.len], r.cmd)
  {
    var end := CsiEnd(data, 2);
    CsiEndFound(data, 2);
    if end < |data| {
      var k := ParamEnd(data, 2, end);
      ParamEndFound(data, 2, end);
      var body := data[..end + 1][2..end];
      assert body == data[2..end];
      assert data[2..k] <= body;
      BeforeIs(body, 0);
    }
  }

  lemma {:induction false} StringIs(data: seq<byte>)
    requires |data| >= 2 && data[0] == 0x1b && data[1] == 0x5d
    ensures Lex(data).NeedMore? <==> Partial(data)
    ensures var r := Lex(data); r.Item? ==> Spells(data[..r.len], r.cmd)
  {
    var end := OscEnd(data, 2);
    OscEndFound(data, 2);
    var payload := data[2..end];
    forall i | 0 <= i < |payload|
      ensures payload[i] != 0x07 && (i + 1 < |payload| ==> !(payload[i] == 0x1b && payload[i + 1] == 0x5c))
    {
      assert payload[i] == data[i + 2] && !StringEnd(data, i + 2);
    }
    if end < |data| {
      assert [0x1b, 0x5d] + payload == data[..end];
      if data[end] == 0x07 {
        assert data[..end + 1] == [0x1b, 0x5d] + payload + [0x07];
      } else {
        assert data[..end + 2] == [0x1b, 0x5d] + payload + [0x1b, 0x5c];
        EscapeStays(data, end);
      }
    }
    if Partial(data) {
      assert Payload(data[2..]);
      forall j | 2 <= j < |data| ensures data[j] != 0x07 && !StringEnd(data, j) {
        assert data[2..][j - 2] == data[j];
      }
      OscEndIs(data, 2, |data|);
    }
  }

  lemma {:induction false} EscapeStays(data: seq<byte>, end: nat)
    requires end + 1 < |data|
    ensures data[..end + 2][end] == data[end]
  {}

  lemma {:induction false} CharacterIs(data: seq<byte>)
    requires data != [] && data[0] >= 0x20
    ensures Lex(data).NeedMore? <==> Partial(data)
    ensures var r := Lex(data); r.Item? ==> Spells(data[..r.len], r.cmd) || (r == Item(Rune('\U{FFFD}'), 1) && data[0] >= 0x80)
  {
    var n := SequenceLength(data[0]);
    if 2 <= n <= |data| && WellFormed(data[..n]) {
      if n == 2 {
        TwoEncodes(data[..n]);
      } else if n == 3 {
        ThreeEncodes(data[..n]);
      } else {
        FourEncodes(data[..n]);
      }
    }
  }

  /** Bytes that begin no command and wait for nothing are replaced, one at a time. */
  lemma {:induction false} EveryByteRead(data: seq<byte>)
    requires data != []
    ensures Lex(data).NeedMore? <==> Partial(data)
    ensures var r := Lex(data);
      r.Item? ==>
        if exists n: nat, cmd :: n <= |data| && Spells(data[..n], cmd) then Spells(data[..r.len], r.cmd)
        else r == Item(Rune('\U{FFFD}'), 1) && data[0] >= 0x80
  {
    hide Spells, Lex, Partial;
    var r := Lex(data);
    LexSpells(data);
    if n: nat, cmd :| n <= |data| && Spells(data[..n], cmd) {
      CommandRead(data[..n], cmd, data[n..]);
      assert data[..n] + data[n..] == data;
    }
  }

  lemma {:induction false} LexSpells(data: seq<byte>)
    requires data != []
    ensures Lex(data).NeedMore? <==> Partial(data)
    ensures var r := Lex(data); r.Item? ==> Spells(data[..r.len], r.cmd) || (r == Item(Rune('\U{FFFD}'), 1) && data[0] >= 0x80)
  {
    if data[0] >= 0x20 {
      CharacterIs(data);
    } else if |data| >= 2 && data[0] == 0x1b && data[1] == 0x5b {
      SequenceIs(data);
    } else if |data| >= 2 && data[0] == 0x1b && data[1] == 0x5d {
      StringIs(data);
    }
  }
}
