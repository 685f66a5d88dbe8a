/** What a terminal makes of each part that the printer emits. */
module Reading {
  import opened Basics
  import opened Lexer
  import opened Sgr
  import opened Cells
  import opened Screen
  import opened Printer

  /** The terminal in state `s` consumes all of `bytes` and ends in state `s'`. */
  predicate Takes(t: Widths, s: Screen, bytes: seq<byte>, s': Screen) {
    Feed(Executing(t), Fed(s, []), bytes) == Fed(s', [])
  }

  lemma {:induction false} TakesNothing(t: Widths, s: Screen)
    ensures Takes(t, s, [], s)
  {}

  lemma {:induction false} TakesThen(t: Widths, s: Screen, a: seq<byte>, s1: Screen, b: seq<byte>, s2: Screen)
    requires Takes(t, s, a, s1) && Takes(t, s1, b, s2)
    ensures Takes(t, s, a + b, s2)
  {
    hide Feed, Exec;
    FeedThen(Executing(t), s, a, s1, b, s2);
  }

  /** The bytes determine the state. */
  lemma {:induction false} TakesOnce(t: Widths, s: Screen, bytes: seq<byte>, s1: Screen, s2: Screen)
    requires Takes(t, s, bytes, s1) && Takes(t, s, bytes, s2)
    ensures s1 == s2
  {}

  lemma {:induction false} TakesRestOf(t: Widths, s: Screen, a: seq<byte>, s1: Screen, b: seq<byte>, s2: Screen)
    requires Takes(t, s, a, s1) && Takes(t, s, a + b, s2)
    ensures Takes(t, s1, b, s2)
  {
    hide Run;
    FeedConcat(Executing(t), Fed(s, []), a, b);
  }

  lemma {:induction false} TakesOne(t: Widths, s: Screen, bytes: seq<byte>, cmd: Command)
    requires Renders(bytes, cmd)
    ensures Takes(t, s, bytes, Exec(t, s, cmd))
  {
    hide Feed, Exec, Renders;
    FeedOne(Executing(t), s, bytes, cmd);
  }

  // -------------------------------------------------------------- control sequences

  lemma {:induction false} TakesCsi(t: Widths, s: Screen, params: seq<byte>, final: byte)
    requires ParamBytes(params) && 0x40 <= final <= 0x7e
    ensures Takes(t, s, CsiBytes(params, final), ExecCsi(s, params, final as char))
  {
    hide ExecCsi, CsiBytes, Renders, Takes;
    CsiRenders(params, final);
    TakesOne(t, s, CsiBytes(params, final), Csi(params, final));
  }

  lemma {:induction false} TakesCup(t: Widths, s: Screen, y: nat, x: nat)
    requires x < s.frame.cols < U32_SIZE && y < s.frame.rows < U32_SIZE && !s.frame.modes.origin
    ensures Takes(t, s, Cup(y, x), s.(frame := MoveTo(s.frame, x, y)))
  {
    hide Takes, CsiBytes, Joined, ParseParams, MoveTo;
    JoinedBytes([y + 1, x + 1]);
    ParamsRoundTrip([y + 1, x + 1]);
    TakesCsi(t, s, Joined([y + 1, x + 1]), 'H' as byte);
  }

  lemma {:induction false} TakesPrivateMode(t: Widths, s: Screen, mode: nat, on: bool)
    requires mode < U32_SIZE
    ensures Takes(t, s, PrivateMode(mode, on), s.(frame := SetPrivateMode(s.frame, mode, on)))
  {
    hide Takes, CsiBytes, Joined, ParseParams, SetPrivateMode;
    var params := ['?' as byte] + Joined([mode]);
    JoinedBytes([mode]);
    ParamsRoundTrip([mode]);
    assert ParamBytes(params);
    TakesCsi(t, s, params, if on then 'h' as byte else 'l' as byte);
    assert SetPrivateModes(s.frame, [mode], on) == SetPrivateMode(s.frame, mode, on);
  }

  lemma {:induction false} TakesAllRows(t: Widths, s: Screen)
    requires Shaped(s.frame) && s.frame.rows < U32_SIZE && !s.frame.modes.origin
    ensures Takes(t, s, ALL_ROWS, s.(frame := MoveTo(s.frame.(margins := Margins(0, s.frame.rows - 1)), 0, 0)))
  {
    hide Takes, CsiBytes, MoveTo;
    TakesCsi(t, s, [], 'r' as byte);
  }

  predicate MarginsOk(m: Margins, rows: nat) {
    m.top < m.bottom < rows || (m.top == 0 && m.bottom + 1 == rows)
  }

  lemma {:induction false} TakesMargins(t: Widths, s: Screen, m: Margins)
    requires Shaped(s.frame) && s.frame.rows < U32_SIZE && !s.frame.modes.origin && MarginsOk(m, s.frame.rows)
    ensures Takes(t, s, MarginBytes(m, s.frame.rows), s.(frame := MoveTo(s.frame.(margins := m), 0, 0)))
  {
    hide Takes, CsiBytes, Joined, ParseParams, MoveTo;
    if m.top == 0 && m.bottom + 1 == s.frame.rows {
      TakesAllRows(t, s);
    } else {
      JoinedBytes([m.top + 1, m.bottom + 1]);
      ParamsRoundTrip([m.top + 1, m.bottom + 1]);
      TakesCsi(t, s, Joined([m.top + 1, m.bottom + 1]), 'r' as byte);
    }
  }

  lemma {:induction false} TakesHome(t: Widths, s: Screen)
    requires Shaped(s.frame) && !s.frame.modes.origin
    ensures Takes(t, s, HOME, s.(frame := MoveTo(s.frame, 0, 0)))
  {
    hide Takes, CsiBytes, MoveTo;
    TakesCsi(t, s, [], 'H' as byte);
  }

  lemma {:induction false} TakesClear(t: Widths, s: Screen)
    ensures Takes(t, s, CLEAR, s.(frame := EraseAll(s.frame, Erased(s.attr.bg))))
  {
    hide Takes, CsiBytes, EraseAll;
    var params: seq<byte> := [0x32];
    ReadsTwo();
    TakesCsi(t, s, params, 'J' as byte);
  }

  lemma {:induction false} ReadsTwo()
    ensures ParseParams([0x32]) == [2]
  {
    var digits: seq<byte> := [0x32];
    assert digits[..0] == [];
    assert Value(digits) == 2;
    assert FieldEnd(digits, 0) == 1;
  }

  lemma {:induction false} TakesReset(t: Widths, s: Screen)
    ensures Takes(t, s, RESET, s.(attr := PLAIN))
  {
    hide Takes, CsiBytes;
    TakesCsi(t, s, [], 'm' as byte);
  }

  lemma {:induction false} TakesResetDiff(t: Widths, s: Screen)
    ensures Takes(t, s, ResetDiff(s.attr), s.(attr := PLAIN))
  {
    hide Takes, RESET;
    if s.attr == PLAIN {
      TakesNothing(t, s);
    } else {
      TakesReset(t, s);
    }
  }

  lemma {:induction false} SameAttrDiff(attr: Attr)
    ensures AttrDiff(attr, attr) == []
  {
    hide DiffCodes, CsiBytes;
  }

  lemma {:induction false} ExecSgr(t: Widths, s: Screen, params: seq<byte>)
    ensures Exec(t, s, Csi(params, 'm' as byte)) == s.(attr := ApplySgr(s.attr, ParseParams(params)))
  {
    hide ApplySgr, ParseParams, Moves, Edits, Settings, Shaped;
  }

  lemma {:induction false} TakesAttr(t: Widths, s: Screen, next: Attr)
    requires CanonicalAttr(next)
    ensures Takes(t, s, AttrDiff(s.attr, next), s.(attr := next))
  {
    hide *;
    if s.attr == next {
      SameAttrDiff(next);
      TakesNothing(t, s);
    } else {
      var codes := DiffCodes(s.attr, next);
      SgrRoundTrip(s.attr, next);
      ExecSgr(t, s, Joined(codes));
      TakesOne(t, s, AttrDiff(s.attr, next), Csi(Joined(codes), 'm' as byte));
    }
  }

  // -------------------------------------------------------- operating system commands

  /** Holds nothing that would end the command early. */
  predicate Clean(s: seq<byte>) {
    forall i :: 0 <= i < |s| ==> s[i] != BEL && !StringEnd(s, i)
  }

  lemma {:induction false} OscEndAfter(data: seq<byte>, i: nat, end: nat)
    requires i <= end < |data| && (data[end] == BEL || StringEnd(data, end))
    requires forall j :: i <= j < end ==> data[j] != BEL && !StringEnd(data, j)
    ensures OscEnd(data, i) == end
    decreases end - i
  {
    if i < end {
      OscEndAfter(data, i + 1, end);
    }
  }

  lemma {:induction false} BellEndRenders(payload: seq<byte>)
    requires Clean(payload)
    ensures Renders([ESC, ']' as byte] + payload + [BEL], Osc(payload))
  {
    var data := [ESC, ']' as byte] + payload + [BEL];
    forall j | 2 <= j < |payload| + 2
      ensures data[j] != BEL && !StringEnd(data, j)
    {
      assert payload[j - 2] != BEL && !StringEnd(payload, j - 2);
    }
    OscEndAfter(data, 2, |payload| + 2);
    assert data[2..|payload| + 2] == payload;
  }

  lemma {:induction false} StringEndRenders(payload: seq<byte>)
    requires Clean(payload)
    ensures Renders([ESC, ']' as byte] + payload + [ESC, '\\' as byte], Osc(payload))
  {
    var data := [ESC, ']' as byte] + payload + [ESC, '\\' as byte];
    forall j | 2 <= j < |payload| + 2
      ensures data[j] != BEL && !StringEnd(data, j)
    {
      assert payload[j - 2] != BEL && !StringEnd(payload, j - 2);
    }
    OscEndAfter(data, 2, |payload| + 2);
    assert data[2..|payload| + 2] == payload;
  }

  predicate ShortPrefix(prefix: seq<byte>) {
    prefix != [] && (forall i :: 0 <= i < |prefix| ==> 0x30 <= prefix[i] < 0x80) && prefix[|prefix| - 1] == SEMICOLON
  }

  lemma {:induction false} CleanPrefixed(prefix: seq<byte>, value: seq<byte>)
    requires ShortPrefix(prefix) && Clean(value)
    ensures Clean(prefix + value)
  {
    var s := prefix + value;
    forall i | 0 <= i < |s|
      ensures s[i] != BEL && !StringEnd(s, i)
    {
      if i >= |prefix| {
        assert value[i - |prefix|] != BEL && !StringEnd(value, i - |prefix|);
      }
    }
  }

  lemma {:induction false} TakesOsc(t: Widths, s: Screen, prefix: seq<byte>, value: seq<byte>)
    requires ShortPrefix(prefix) && Clean(value)
    ensures Takes(t, s, OscBytes(prefix, value), s.(frame := ApplyOsc(s.frame, prefix + value)))
  {
    hide Takes, Renders, ApplyOsc, Clean, ShortPrefix;
    CleanPrefixed(prefix, value);
    BellEndRenders(prefix + value);
    assert OscBytes(prefix, value) == [ESC, ']' as byte] + (prefix + value) + [BEL];
    TakesOne(t, s, OscBytes(prefix, value), Osc(prefix + value));
  }

  // --------------------------------------------------------------------- hyperlinks

  /** A link as the interpreter interns them: found in one command, split at its first
      semicolon. */
  predicate LinkOk(link: Option<Hyperlink>) {
    link.Some? ==>
      && link.value.uri != []
      && (forall i :: 0 <= i < |link.value.params| ==> link.value.params[i] != SEMICOLON)
      && Clean(link.value.params + [SEMICOLON] + link.value.uri)
  }

  function LinkValue(link: Option<Hyperlink>): seq<byte> {
    if link.Some? then link.value.params + [SEMICOLON] + link.value.uri else [SEMICOLON]
  }

  function Selected(l: Links, link: Option<Hyperlink>): Links {
    if link.Some? then SelectLink(l, link.value.params, link.value.uri) else l.(active := 0)
  }

  lemma {:induction false} FieldEndAfter(s: seq<byte>, i: nat, k: nat)
    requires i <= k < |s| && s[k] == SEMICOLON && forall j :: i <= j < k ==> s[j] != SEMICOLON
    ensures FieldEnd(s, i) == k
    decreases k - i
  {
    if i < k {
      FieldEndAfter(s, i + 1, k);
    }
  }

  lemma {:induction false} AppliesLink(f: Frame, link: Option<Hyperlink>)
    requires LinkOk(link)
    ensures ApplyOsc(f, OSC_LINK + LinkValue(link)) == f.(links := Selected(f.links, link))
  {
    hide Find;
    var value := LinkValue(link);
    var payload := OSC_LINK + value;
    assert payload[2..] == value && payload[0] == 0x38;
    assert OSC_LINK <= payload && !(OSC_BOTH <= payload) && !(OSC_ICON <= payload);
    assert !(OSC_TITLE <= payload) && !(OSC_CLIPBOARD <= payload);
    var k := if link.Some? then |link.value.params| else 0;
    FieldEndAfter(value, 0, k);
    assert value[..k] == (if link.Some? then link.value.params else []);
    assert value[k + 1..] == (if link.Some? then link.value.uri else []);
  }

  lemma {:induction false} TakesLink(t: Widths, s: Screen, link: Option<Hyperlink>)
    requires LinkOk(link)
    ensures Takes(t, s, LinkBytes(link), s.(frame := s.frame.(links := Selected(s.frame.links, link))))
  {
    hide Takes, Renders, ApplyOsc, Selected;
    AppliesLink(s.frame, link);
    assert Clean(LinkValue(link));
    CleanPrefixed(OSC_LINK, LinkValue(link));
    StringEndRenders(OSC_LINK + LinkValue(link));
    assert LinkBytes(link) == [ESC, ']' as byte] + (OSC_LINK + LinkValue(link)) + [ESC, '\\' as byte];
    TakesOne(t, s, LinkBytes(link), Osc(OSC_LINK + LinkValue(link)));
  }

  /** The table only grows, so what was resolved stays resolved. */
  predicate Grows(l: Links, m: Links) { l.table <= m.table }

  lemma {:induction false} SelectedResolves(l: Links, link: Option<Hyperlink>)
    requires LinkOk(link)
    ensures var m := Selected(l, link);
      Grows(l, m) && Resolve(m, m.active) == link && m.active <= |m.table|
  {}

  lemma {:induction false} TakesLinkDiff(t: Widths, s: Screen, link: Option<Hyperlink>) returns (m: Links)
    requires LinkOk(link) && s.frame.links.active <= |s.frame.links.table|
    ensures Takes(t, s, LinkDiff(ActiveLink(s.frame), link), s.(frame := s.frame.(links := m)))
    ensures Grows(s.frame.links, m) && Resolve(m, m.active) == link && m.active <= |m.table|
  {
    hide Takes, LinkBytes;
    if ActiveLink(s.frame) == link {
      m := s.frame.links;
      assert s.(frame := s.frame.(links := m)) == s;
      TakesNothing(t, s);
    } else {
      m := Selected(s.frame.links, link);
      SelectedResolves(s.frame.links, link);
      TakesLink(t, s, link);
    }
  }

  // ------------------------------------------------------------------------- glyphs

  /** A glyph that a terminal stores just as it is printed. */
  predicate GlyphOk(t: Widths, c: Cell) {
    && c.ch as nat >= 0x20 && 1 <= c.width <= 2 && DisplayWidth(t, c.ch) == Some(c.width)
    && CanonicalAttr(c.attr)
    && (forall i :: 0 <= i < |c.suffix| ==> c.suffix[i] as nat >= 0x20 && DisplayWidth(t, c.suffix[i]) == Some(0))
    && (forall i :: 0 <= i < |c.suffix| ==> ContentLength(c.(suffix := c.suffix[..i], empty := false)) < MAX_GRAPHEME_BYTES)
  }

  lemma {:induction false} TakesChar(t: Widths, s: Screen, ch: char)
    requires ch as nat >= 0x20
    ensures Takes(t, s, EncodeChar(ch), Print(t, s, ch))
  {
    hide Takes, Print, EncodeChar, Renders;
    EncodeCharRenders(ch);
    TakesOne(t, s, EncodeChar(ch), Rune(ch));
  }

  /** A glyph that fits is written where the cursor is, without wrapping or scrolling. */
  lemma {:induction false} PrintPlaces(t: Widths, s: Screen, ch: char, w: nat)
    requires ch as nat >= 0x20 && DisplayWidth(t, ch) == Some(w) && 1 <= w <= 2
    requires s.frame.modes == DEFAULT_MODES && !s.frame.cursor.wrap
    requires s.frame.cursor.x + w <= s.frame.cols || StandaloneWidth(t, ch) != 2
    ensures Print(t, s, ch) == s.(frame := Place(s.frame, ch, w, s.attr))
  {}

  /** The row while the suffix of the glyph at `x` is being appended. */
  function WithSuffix(f: Frame, x: nat, y: nat, suffix: seq<char>): Frame
    requires Inside(f, x, y)
  {
    f.(grid := f.grid[y := f.grid[y][x := f.grid[y][x].(suffix := suffix)]])
  }

  lemma {:induction false} ExtendAppends(f: Frame, x: nat, y: nat, suffix: seq<char>, ch: char)
    requires Inside(f, x, y) && f.target == Target(x, y, true) && !f.grid[y][x].empty
    requires ContentLength(f.grid[y][x].(suffix := suffix)) < MAX_GRAPHEME_BYTES
    ensures Extend(WithSuffix(f, x, y, suffix), ch) == WithSuffix(f, x, y, suffix + [ch])
  {
    hide ContentLength;
    var g := WithSuffix(f, x, y, suffix);
    var row := g.grid[y];
    assert AppendChar(row[x], ch) == f.grid[y][x].(suffix := suffix + [ch]);
    assert Extend(g, ch) == RowSet(g, y, row[x := AppendChar(row[x], ch)]);
    assert row[x := AppendChar(row[x], ch)] == f.grid[y][x := f.grid[y][x].(suffix := suffix + [ch])];
    assert Extend(g, ch).grid == WithSuffix(f, x, y, suffix + [ch]).grid;
  }

  lemma {:induction false} TakesSuffix(t: Widths, s: Screen, c: Cell, x: nat, y: nat, n: nat)
    requires GlyphOk(t, c) && n <= |c.suffix|
    requires Inside(s.frame, x, y) && s.frame.target == Target(x, y, true)
    requires s.frame.grid[y][x] == c.(suffix := [], empty := false, link := s.frame.grid[y][x].link)
    ensures Takes(t, s, Characters(c.suffix[..n]), s.(frame := WithSuffix(s.frame, x, y, c.suffix[..n])))
  {
    hide Takes, Extend, DisplayWidth, CanonicalAttr, ContentLength;
    if n == 0 {
      TakesNothing(t, s);
      assert s.frame.grid[y][x := s.frame.grid[y][x].(suffix := [])] == s.frame.grid[y];
      assert WithSuffix(s.frame, x, y, []) == s.frame;
    } else {
      var before, ch := c.suffix[..n - 1], c.suffix[n - 1];
      var s1 := s.(frame := WithSuffix(s.frame, x, y, before));
      TakesSuffix(t, s, c, x, y, n - 1);
      assert c.suffix[..n] == before + [ch] && (before + [ch])[..|before + [ch]| - 1] == before;
      TakesChar(t, s1, ch);
      SuffixLength(c, s.frame.grid[y][x].link, n - 1);
      ExtendAppends(s.frame, x, y, before, ch);
      assert Print(t, s1, ch) == s.(frame := WithSuffix(s.frame, x, y, before + [ch]));
      TakesThen(t, s, Characters(before), s1, EncodeChar(ch), Print(t, s1, ch));
    }
  }

  lemma {:induction false} SuffixLength(c: Cell, link: nat, i: nat)
    requires i < |c.suffix|
    ensures ContentLength(c.(suffix := c.suffix[..i], empty := false, link := link))
         == ContentLength(c.(suffix := c.suffix[..i], empty := false))
  {}
}
