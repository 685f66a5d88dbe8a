/** Printing and interpreting as loops over buffers: each refines the functions it names. */
module Display {
  import opened Basics
  import opened Lexer
  import opened Sgr
  import opened Cells
  import opened Screen
  import opened Printer
  import opened Framebuffers

  // ---------------------------------------------------------------- which cells to print

  method VisibleCellStarts(row: seq<Cell>) returns (visible: seq<bool>)
    ensures visible == Visible(row)
  {
    hide VisibleFrom;
    visible := Falses(|row|);
    var x := 0;
    assert visible[..0] + VisibleFrom(row, 0) == VisibleFrom(row, 0);
    while x < |row|
      invariant x <= |row| && |visible| == |row|
      invariant forall j :: x <= j < |row| ==> !visible[j]
      invariant visible[..x] + VisibleFrom(row, x) == Visible(row)
    {
      var next := if row[x].width >= 2 && x + 1 < |row| then x + 2 else x + 1;
      WalkStep(row, visible, x, next, row[x].width != 0);
      if row[x].width != 0 {
        visible := visible[x := true];
      }
      x := next;
    }
    WalkEnd(row, visible);
  }

  lemma {:induction false} WalkEnd(row: seq<Cell>, visible: seq<bool>)
    requires |visible| == |row|
    ensures visible[..|row|] + VisibleFrom(row, |row|) == visible
  {}

  lemma {:induction false} VisibleRest(row: seq<Cell>, x: nat, next: nat, found: seq<bool>)
    requires x < |row| && next == if row[x].width >= 2 && x + 1 < |row| then x + 2 else x + 1
    requires |found| == next - x && found[0] == (row[x].width != 0) && (next == x + 2 ==> !found[1])
    ensures VisibleFrom(row, x) == found + VisibleFrom(row, next)
  {}

  /** Marking column `x` if it is visible settles all columns up to the next start. */
  lemma {:induction false} WalkStep(row: seq<Cell>, visible: seq<bool>, x: nat, next: nat, start: bool)
    requires |visible| == |row| && x < |row| && next == if row[x].width >= 2 && x + 1 < |row| then x + 2 else x + 1
    requires start == (row[x].width != 0) && forall j :: x <= j < |row| ==> !visible[j]
    ensures var after := if start then visible[x := true] else visible;
      after[..next] + VisibleFrom(row, next) == visible[..x] + VisibleFrom(row, x)
  {
    hide VisibleFrom;
    var after := if start then visible[x := true] else visible;
    var found := after[x..next];
    VisibleRest(row, x, next, found);
    SplitAt(visible, after, x, next);
    Concat(visible[..x], found, VisibleFrom(row, next));
  }

  lemma {:induction false} Concat(a: seq<bool>, b: seq<bool>, c: seq<bool>)
    ensures (a + b) + c == a + (b + c)
  {}

  lemma {:induction false} SplitAt(before: seq<bool>, after: seq<bool>, x: nat, next: nat)
    requires x <= next <= |before| == |after| && before[..x] == after[..x]
    ensures after[..next] == before[..x] + after[x..next]
  {}

  function Falses(n: nat): (s: seq<bool>)
    ensures |s| == n && forall i :: 0 <= i < n ==> !s[i]
  {
    seq(n, _ => false)
  }

  function Span(l: Links, next: seq<Cell>, m: Links, prev: seq<Cell>): Option<(nat, nat)>
    requires |next| == |prev|
  {
    var first := FirstChanged(l, next, m, prev, 0);
    var last := LastChanged(l, next, m, prev, |next|);
    if last < first then None else Some((first, last))
  }

  lemma {:induction false} FirstIs(l: Links, next: seq<Cell>, m: Links, prev: seq<Cell>, x: nat, k: nat)
    requires x <= k <= |next| == |prev| && (k < |next| ==> Changed(l, next, m, prev, k))
    requires forall j :: x <= j < k ==> !Changed(l, next, m, prev, j)
    ensures FirstChanged(l, next, m, prev, x) == k
    decreases k - x
  {
    hide Changed;
    if x < k {
      FirstIs(l, next, m, prev, x + 1, k);
    }
  }

  method RowDisplayChangeSpan(l: Links, next: seq<Cell>, m: Links, prev: seq<Cell>) returns (span: Option<(nat, nat)>)
    requires |next| == |prev|
    ensures span == Span(l, next, m, prev)
  {
    hide Alike, Visible;
    var nextVisible := VisibleCellStarts(next);
    var prevVisible := VisibleCellStarts(prev);
    var first: Option<nat>, last := None, -1;
    for x := 0 to |next|
      invariant last == LastChanged(l, next, m, prev, x)
      invariant first.None? <==> last == -1
      invariant first.Some? ==> first.value <= last && Changed(l, next, m, prev, first.value)
      invariant first.Some? ==> forall j :: 0 <= j < first.value ==> !Changed(l, next, m, prev, j)
    {
      if nextVisible[x] && (!prevVisible[x] || !Alike(l, next[x], m, prev[x])) {
        if first.None? {
          first := Some(x);
        }
        last := x;
      }
    }
    FirstIs(l, next, m, prev, 0, if first.Some? then first.value else |next|);
    span := if first.Some? then Some((first.value, last)) else None;
  }

  // ------------------------------------------------------------------------- attributes

  lemma {:induction false} JoinedSnoc(codes: seq<nat>, code: nat)
    ensures Joined(codes + [code]) == if codes == [] then Decimal(code) else Joined(codes) + [SEMICOLON] + Decimal(code)
    decreases |codes|
  {
    if codes != [] {
      var more := codes + [code];
      assert more[1..] == codes[1..] + [code];
      JoinedSnoc(codes[1..], code);
    } else {
      assert codes + [code] == [code];
    }
  }

  /** Appends one parameter, after a separator unless it is the first. */
  method AddCode(text: seq<byte>, code: nat, ghost codes: seq<nat>) returns (out: seq<byte>)
    requires text == Joined(codes)
    ensures out == Joined(codes + [code])
  {
    JoinedSnoc(codes, code);
    out := if text == [] then Decimal(code) else text + [SEMICOLON] + Decimal(code);
  }

  method AddCodes(text: seq<byte>, more: seq<nat>, ghost codes: seq<nat>) returns (out: seq<byte>)
    requires text == Joined(codes)
    ensures out == Joined(codes + more)
  {
    out := text;
    assert codes + more[..0] == codes;
    for i := 0 to |more|
      invariant out == Joined(codes + more[..i])
    {
      assert more[..i + 1] == more[..i] + [more[i]];
      assert codes + more[..i + 1] == (codes + more[..i]) + [more[i]];
      out := AddCode(out, more[i], codes + more[..i]);
    }
    assert more[..|more|] == more;
  }

  method AddFlags(text: seq<byte>, base: Attr, next: Attr, ghost codes: seq<nat>) returns (out: seq<byte>)
    requires text == Joined(codes)
    ensures out == Joined(codes + FlagCodes(base, next, 0, []))
  {
    hide Flag, Joined, FlagCode;
    out := text;
    ghost var added := codes;
    for k := 0 to FLAGS
      invariant out == Joined(added)
      invariant added + FlagCodes(base, next, k, []) == codes + FlagCodes(base, next, 0, [])
    {
      FlagCodesStep(base, next, k, added);
      if Flag(next, k) && !Flag(base, k) {
        out := AddCode(out, FlagCode(k), added);
        added := added + [FlagCode(k)];
      }
    }
    assert added + [] == added;
  }

  lemma {:induction false} FlagCodesStep(base: Attr, next: Attr, k: nat, added: seq<nat>)
    requires k < FLAGS
    ensures var rest := FlagCodes(base, next, k + 1, []);
      added + FlagCodes(base, next, k, [])
        == (if Flag(next, k) && !Flag(base, k) then added + [FlagCode(k)] else added) + rest
  {
    hide Flag, FlagCode;
  }

  lemma {:induction false} FlagsThen(base: Attr, next: Attr, k: nat, rest: seq<nat>)
    requires k <= FLAGS
    ensures FlagCodes(base, next, k, rest) == FlagCodes(base, next, k, []) + rest
    decreases FLAGS - k
  {
    hide Flag;
    if k < FLAGS {
      FlagsThen(base, next, k + 1, rest);
    }
  }

  method AppendAttrDiff(buf: seq<byte>, cur: Attr, next: Attr) returns (out: seq<byte>)
    ensures out == buf + AttrDiff(cur, next)
  {
    hide CsiBytes, Joined, FlagCodes, NeedsReset, ColorCodes;
    if cur == next {
      return buf;
    }
    var reset := NeedsReset(cur, next);
    var base := if reset then PLAIN else cur;
    ghost var codes: seq<nat> := if reset then [0] else [];
    JoinedStart();
    var text := if reset then Decimal(0) else [];
    text := AddFlags(text, base, next, codes);
    codes := codes + FlagCodes(base, next, 0, []);
    if next.fg != base.fg {
      text := AddCodes(text, ColorCodes(next.fg, true), codes);
      codes := codes + ColorCodes(next.fg, true);
    }
    if next.bg != base.bg {
      text := AddCodes(text, ColorCodes(next.bg, false), codes);
      codes := codes + ColorCodes(next.bg, false);
    }
    FlagsThen(base, next, 0, Colors(base, next));
    assert codes == DiffCodes(cur, next);
    JoinedEmpty(codes);
    out := if text == [] then buf else buf + CsiBytes(text, 'm' as byte);
  }

  lemma {:induction false} JoinedStart()
    ensures Joined([]) == [] && Joined([0]) == Decimal(0)
  {}

  lemma {:induction false} JoinedEmpty(codes: seq<nat>)
    ensures Joined(codes) == [] <==> codes == []
  {}

  // ---------------------------------------------------------------------------- painting

  method PaintSpan(buf: seq<byte>, l: Links, row: seq<Cell>, y: nat, first: nat, end: nat, p: Pencil) returns (out: seq<byte>, pencil: Pencil)
    requires first <= end <= |row|
    ensures var a := PaintFrom(l, row, y, first, end, p); out == buf + a.bytes && pencil == a.pencil
  {
    hide Visible, LinkDiff, AttrDiff, CellBytes, Cup, NextColumn;
    out, pencil := buf, p;
    var visible := VisibleCellStarts(row);
    for x := first to end
      invariant var a, b := PaintFrom(l, row, y, x, end, pencil), PaintFrom(l, row, y, first, end, p);
        out + a.bytes == buf + b.bytes && a.pencil == b.pencil
    {
      if visible[x] {
        var c := row[x];
        ghost var before, was := out, pencil;
        if pencil.x != x || pencil.y != y {
          out := out + Cup(y, x);
        }
        out := out + LinkDiff(pencil.link, Resolve(l, c.link));
        out := AppendAttrDiff(out, pencil.attr, c.attr);
        out := out + CellBytes(c);
        pencil := Pencil(c.attr, Resolve(l, c.link), NextColumn(c, x), y);
        assert out == before + PaintCell(l, c, y, x, was).bytes;
      }
    }
  }

  lemma {:induction false} SpanChanged(next: Frame, prev: Frame, y: nat)
    requires SameSize(next, prev) && y < next.rows
    ensures RowChanged(next, prev, y) == Span(next.links, next.grid[y], prev.links, prev.grid[y]).Some?
  {
    hide Changed;
  }

  predicate ChangedBefore(next: Frame, prev: Frame, n: nat)
    requires SameSize(next, prev)
  {
    exists y :: 0 <= y < n && y < next.rows && RowChanged(next, prev, y)
  }

  /** The change spans of all rows, before anything is printed. */
  method ChangeSpans(next: Framebuffer, prev: Framebuffer) returns (spans: seq<Option<(nat, nat)>>, changed: bool)
    requires SameSize(next.Value(), prev.Value())
    ensures var f, g := next.Value(), prev.Value();
      && |spans| == f.rows
      && (forall y :: 0 <= y < f.rows ==> spans[y] == Span(f.links, f.grid[y], g.links, g.grid[y]))
      && changed == CellsChanged(f, g)
  {
    hide Changed, RowChanged, Span;
    ghost var f, g := next.Value(), prev.Value();
    spans, changed := [], false;
    for y := 0 to next.rows
      invariant |spans| == y
      invariant forall i :: 0 <= i < y ==> spans[i] == Span(f.links, f.grid[i], g.links, g.grid[i])
      invariant changed == ChangedBefore(f, g, y)
    {
      var span := RowDisplayChangeSpan(next.Value().links, next.grid[y], prev.Value().links, prev.grid[y]);
      SpanChanged(f, g, y);
      spans := spans + [span];
      changed := changed || span.Some?;
    }
    assert ChangedBefore(f, g, f.rows) == CellsChanged(f, g);
  }

  method PaintSpans(buf: seq<byte>, next: Framebuffer, ghost prev: Frame, spans: seq<Option<(nat, nat)>>, p: Pencil) returns (out: seq<byte>, pencil: Pencil)
    requires SameSize(next.Value(), prev) && |spans| == next.rows
    requires var f := next.Value(); forall y :: 0 <= y < f.rows ==> spans[y] == Span(f.links, f.grid[y], prev.links, prev.grid[y])
    ensures var a := PaintRows(next.Value(), prev, 0, p); out == buf + a.bytes && pencil == a.pencil
  {
    hide Changed, PaintFrom;
    ghost var f := next.Value();
    out, pencil := buf, p;
    for y := 0 to next.rows
      invariant var a, b := PaintRows(f, prev, y, pencil), PaintRows(f, prev, 0, p);
        out + a.bytes == buf + b.bytes && a.pencil == b.pencil
    {
      ghost var before, was := out, pencil;
      if spans[y].Some? {
        out, pencil := PaintSpan(out, next.Value().links, next.grid[y], y, spans[y].value.0, spans[y].value.1 + 1, pencil);
      }
      assert Painted(out, pencil) == Painted(before + PaintRow(f, prev, y, was).bytes, PaintRow(f, prev, y, was).pencil);
    }
  }

  method AppendClosing(buf: seq<byte>, next: Frame, prev: Frame, changed: bool, p: Pencil) returns (out: seq<byte>)
    ensures out == buf + Closing(next, prev, changed, p)
  {
    hide LinkDiff, Cup, CursorSwitch, ResetDiff;
    out := buf + ResetDiff(p.attr) + LinkDiff(p.link, ActiveLink(next));
    if changed || next.margins != prev.margins || next.cursor.x != prev.cursor.x || next.cursor.y != prev.cursor.y {
      out := out + Cup(next.cursor.y, next.cursor.x);
    }
    if changed {
      if next.switches.cursorVisible {
        out := out + CursorSwitch(true);
      }
    } else if next.switches.cursorVisible != prev.switches.cursorVisible {
      out := out + CursorSwitch(next.switches.cursorVisible);
    }
  }

  /** `diff_same_size`. */
  method DiffSameSize(next: Framebuffer, prev: Framebuffer) returns (buf: seq<byte>)
    requires SameSize(next.Value(), prev.Value())
    ensures buf == Diff(next.Value(), prev.Value())
  {
    hide Metadata, CellsChanged, PaintRows, Span, Closing, CursorSwitch;
    var f, g := next.Value(), prev.Value();
    buf := Metadata(f, Some(g), false);
    var spans, changed := ChangeSpans(next, prev);
    if changed {
      buf := buf + CursorSwitch(false);
    }
    var pencil: Pencil;
    buf, pencil := PaintSpans(buf, next, g, spans, Pencil(PLAIN, ActiveLink(g), -1, -1));
    buf := AppendClosing(buf, f, g, changed, pencil);
  }

  /** One past the last column to print in a redraw. */
  method LastInk(row: seq<Cell>) returns (end: nat)
    ensures end == InkEnd(row, |row|)
  {
    hide Visible, Plain;
    var visible := VisibleCellStarts(row);
    end := |row|;
    while end > 0 && (!visible[end - 1] || Plain(row[end - 1]))
      invariant end <= |row| && InkEnd(row, end) == InkEnd(row, |row|)
    {
      end := end - 1;
    }
  }

  method RedrawLine(buf: seq<byte>, next: Framebuffer, y: nat, p: Pencil) returns (out: seq<byte>, pencil: Pencil)
    requires y < |next.grid|
    ensures var a := RedrawRow(next.Value(), y, p); out == buf + a.bytes && pencil == a.pencil
  {
    hide PaintFrom, InkEnd;
    out := if y > 0 then buf + [0x0d, 0x0a] else buf;
    var end := LastInk(next.grid[y]);
    out, pencil := PaintSpan(out, next.Value().links, next.grid[y], y, 0, end, p.(x := 0, y := y));
  }

  method RedrawLines(buf: seq<byte>, next: Framebuffer, p: Pencil) returns (out: seq<byte>, pencil: Pencil)
    ensures var a := RedrawRows(next.Value(), 0, p); out == buf + a.bytes && pencil == a.pencil
  {
    hide RedrawRow;
    ghost var f := next.Value();
    out, pencil := buf, p;
    for y := 0 to |next.grid|
      invariant var a, b := RedrawRows(f, y, pencil), RedrawRows(f, 0, p);
        out + a.bytes == buf + b.bytes && a.pencil == b.pencil
    {
      out, pencil := RedrawLine(out, next, y, pencil);
    }
  }

  /** `full_redraw`. */
  method FullRedraw(next: Framebuffer, prev: Option<Frame>) returns (buf: seq<byte>)
    ensures buf == Redraw(next.Value(), prev)
  {
    hide Metadata, RedrawRows, LinkDiff, Cup, CursorSwitch, ResetDiff, CLEARING;
    var f := next.Value();
    var p: Pencil;
    buf, p := RedrawLines(CLEARING, next, Pencil(PLAIN, None, 0, 0));
    buf := buf + ResetDiff(p.attr) + LinkDiff(p.link, ActiveLink(f)) + Metadata(f, prev, true) + Cup(f.cursor.y, f.cursor.x);
    if f.switches.cursorVisible {
      buf := buf + CursorSwitch(true);
    }
  }

  // ------------------------------------------------------------------------ interpreting

  /** Scans a control sequence to its final byte. */
  method ScanCsi(data: seq<byte>) returns (item: Item)
    requires |data| >= 2
    ensures item == LexCsi(data)
  {
    var end := 2;
    while end < |data| && data[end] < 0x40
      invariant 2 <= end <= |data| && CsiEnd(data, end) == CsiEnd(data, 2)
    {
      end := end + 1;
    }
    if end == |data| {
      return NeedMore;
    }
    if data[end] > 0x7e {
      return Item(Ignored, end + 1);
    }
    var params := 2;
    while params < end && !(0x20 <= data[params] < 0x30)
      invariant 2 <= params <= end && ParamEnd(data, params, end) == ParamEnd(data, 2, end)
    {
      params := params + 1;
    }
    item := Item(Csi(data[2..params], data[end]), end + 1);
  }

  /** Scans an operating system command to its terminator. */
  method ScanOsc(data: seq<byte>) returns (item: Item)
    requires |data| >= 2
    ensures item == LexOsc(data)
  {
    var end := 2;
    while end < |data|
      invariant 2 <= end <= |data| && OscEnd(data, end) == OscEnd(data, 2)
    {
      if data[end] == BEL {
        return Item(Osc(data[2..end]), end + 1);
      }
      if data[end] == ESC && end + 1 < |data| && data[end + 1] == '\\' as byte {
        return Item(Osc(data[2..end]), end + 2);
      }
      end := end + 1;
    }
    item := NeedMore;
  }

  /** The next command of the bytes. */
  method NextItem(data: seq<byte>) returns (item: Item)
    requires data != []
    ensures item == Lex(data)
  {
    hide LexCsi, LexOsc, DecodeChar;
    if data[0] != ESC {
      item := if data[0] < 0x20 then Item(Control(data[0]), 1) else DecodeChar(data);
    } else if |data| == 1 {
      item := NeedMore;
    } else if data[1] == '[' as byte {
      item := ScanCsi(data);
    } else if data[1] == ']' as byte {
      item := ScanOsc(data);
    } else {
      item := Item(Escape(data[1]), 2);
    }
  }

  class AnsiPen {
    var attr: Attr
    var saved: Saved
    var carry: seq<byte>

    constructor ()
      ensures attr == PLAIN && saved == UNSAVED && carry == []
    {
      attr, saved, carry := PLAIN, UNSAVED, [];
    }

    /** The terminal that this pen and a screen make up. */
    function Terminal(fb: Framebuffer): Screen
      reads this, fb
    {
      Screen(fb.Value(), attr, saved)
    }

    method PrintRune(t: Widths, fb: Framebuffer, ch: char)
      modifies fb
      ensures Terminal(fb) == Print(t, old(Terminal(fb)), ch)
    {
      hide MakeRoom, Extend, InsertAtCursor;
      var width := DisplayWidth(t, ch);
      if ch == '\0' || width.None? {
        return;
      }
      if width.value == 0 {
        fb.Become(Extend(fb.Value(), ch));
        return;
      }
      var blank := Erased(attr.bg);
      fb.Become(MakeRoom(t, fb.Value(), ch, blank));
      if fb.modes.insert {
        fb.Become(InsertAtCursor(fb.Value(), width.value, blank));
      }
      ghost var f := fb.Value();
      var c := fb.cursor;
      if c.y < |fb.grid| && c.x < |fb.grid[c.y]| {
        var w := fb.PutRune(t, c.x, c.y, ch, attr, fb.activeHyperlink);
        fb.cursor := if c.x + w >= fb.cols then Cursor(SatSub(fb.cols, 1), c.y, fb.modes.autoWrap)
                     else Cursor(c.x + w, c.y, false);
        assert fb.Value() == Place(f, ch, w, attr);
      }
    }

    method Execute(t: Widths, fb: Framebuffer, cmd: Command)
      modifies fb, this`attr, this`saved
      ensures Terminal(fb) == Exec(t, old(Terminal(fb)), cmd)
    {
      hide Print;
      match cmd
      case Rune(ch) =>
        PrintRune(t, fb, ch);
      case _ =>
        var s := Exec(t, Terminal(fb), cmd);
        fb.Become(s.frame);
        attr, saved := s.attr, s.saved;
    }

    /** `apply_ansi_with_pen`. */
    method ApplyAnsi(t: Widths, fb: Framebuffer, data: seq<byte>)
      modifies fb, this
      ensures Fed(Terminal(fb), carry) == Feed(Executing(t), old(Fed(Terminal(fb), carry)), data)
    {
      hide Exec, Lex;
      var buf := carry + data;
      carry := [];
      var i := 0;
      ghost var s0 := Terminal(fb);
      while i < |buf|
        invariant i <= |buf| && carry == []
        invariant Run(Executing(t), Terminal(fb), buf[i..]) == Run(Executing(t), s0, buf)
      {
        var rest := buf[i..];
        var item := NextItem(rest);
        match item
        case NeedMore =>
          carry := rest;
          return;
        case Item(cmd, len) =>
          assert rest[len..] == buf[i + len..];
          Execute(t, fb, cmd);
          i := i + len;
      }
    }
  }
}
