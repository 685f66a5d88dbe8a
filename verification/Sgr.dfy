/** Numeric parameters of control sequences, and the colours and attributes they select. */
module Sgr {
  import opened Basics
  import opened Lexer

  datatype Color = Default | Index(value: nat) | Rgb(value: nat)

  datatype Attr = Attr(
    bold: bool, dim: bool, italic: bool, under: bool, blink: bool, reverse: bool, conceal: bool, strike: bool,
    fg: Color, bg: Color)

  const PLAIN := Attr(false, false, false, false, false, false, false, false, Default, Default)

  // ---------------------------------------------------------------- decimal numbers

  function Digit(d: nat): byte
    requires d < 10
  {
    ('0' as nat + d) as byte
  }

  function Decimal(n: nat): (s: seq<byte>)
    ensures |s| > 0
  {
    if n < 10 then [Digit(n)] else Decimal(n / 10) + [Digit(n % 10)]
  }

  predicate IsDigit(b: byte) { '0' as byte <= b <= '9' as byte }

  predicate AllDigits(s: seq<byte>) { forall i :: 0 <= i < |s| ==> IsDigit(s[i]) }

  function Value(s: seq<byte>): nat
    requires AllDigits(s)
  {
    if s == [] then 0 else Value(s[..|s| - 1]) * 10 + (s[|s| - 1] - '0' as byte) as nat
  }

  /** `parse::<u32>()` with anything unreadable or too large taken as 0. A leading plus
      sign is accepted. */
  function ParseNumber(s: seq<byte>): nat {
    var digits := if |s| > 1 && s[0] == '+' as byte then s[1..] else s;
    if AllDigits(digits) && Value(digits) < U32_SIZE then Value(digits) else 0
  }

  lemma {:induction false} DecimalDigits(n: nat)
    ensures AllDigits(Decimal(n)) && Value(Decimal(n)) == n
  {
    if n >= 10 {
      DecimalDigits(n / 10);
      var s := Decimal(n / 10);
      assert (s + [Digit(n % 10)])[..|s|] == s;
    }
  }

  lemma {:induction false} DecimalParses(n: nat)
    requires n < U32_SIZE
    ensures ParseNumber(Decimal(n)) == n
  {
    DecimalDigits(n);
  }

  // --------------------------------------------------------------------- parameters

  const SEMICOLON: byte := ';' as byte

  /** First index from `i` on of a separator, or the length. */
  function FieldEnd(s: seq<byte>, i: nat): (k: nat)
    requires i <= |s|
    ensures i <= k <= |s|
    ensures forall j :: i <= j < k ==> s[j] != SEMICOLON
    ensures k < |s| ==> s[k] == SEMICOLON
    decreases |s| - i
  {
    if i == |s| || s[i] == SEMICOLON then i else FieldEnd(s, i + 1)
  }

  function ParseFields(s: seq<byte>): (r: seq<nat>)
    ensures |r| > 0
    decreases |s|
  {
    var k := FieldEnd(s, 0);
    if k == |s| then [ParseNumber(s)] else [ParseNumber(s[..k])] + ParseFields(s[k + 1..])
  }

  predicate Private(params: seq<byte>) { params != [] && params[0] == '?' as byte }

  function ParseParams(params: seq<byte>): seq<nat> {
    var raw := if Private(params) then params[1..] else params;
    if raw == [] then [] else ParseFields(raw)
  }

  function Joined(nums: seq<nat>): (s: seq<byte>)
    ensures nums != [] ==> |s| > 0
  {
    if nums == [] then []
    else if |nums| == 1 then Decimal(nums[0]) else Decimal(nums[0]) + [SEMICOLON] + Joined(nums[1..])
  }

  lemma {:induction false} DigitsAreNoField(s: seq<byte>, rest: seq<byte>, i: nat)
    requires AllDigits(s) && i <= |s| && (rest == [] || rest[0] == SEMICOLON)
    ensures FieldEnd(s + rest, i) == |s|
    decreases |s| - i
  {
    if i < |s| {
      DigitsAreNoField(s, rest, i + 1);
    }
  }

  lemma {:induction false} ParseJoined(nums: seq<nat>)
    requires nums != [] && forall i :: 0 <= i < |nums| ==> nums[i] < U32_SIZE
    ensures ParseFields(Joined(nums)) == nums
  {
    var head := Decimal(nums[0]);
    DecimalDigits(nums[0]);
    DecimalParses(nums[0]);
    if |nums| == 1 {
      DigitsAreNoField(head, [], 0);
      assert head + [] == head;
    } else {
      var tail := Joined(nums[1..]);
      var whole := head + [SEMICOLON] + tail;
      DigitsAreNoField(head, [SEMICOLON] + tail, 0);
      assert head + ([SEMICOLON] + tail) == whole;
      assert whole[..|head|] == head && whole[|head| + 1..] == tail;
      ParseJoined(nums[1..]);
    }
  }

  predicate ParamBytes(s: seq<byte>) {
    forall i :: 0 <= i < |s| ==> 0x30 <= s[i] < 0x40
  }

  lemma {:induction false} JoinedBytes(nums: seq<nat>)
    requires nums != []
    ensures ParamBytes(Joined(nums)) && Joined(nums)[0] != '?' as byte
  {
    DecimalDigits(nums[0]);
    if |nums| > 1 {
      JoinedBytes(nums[1..]);
    }
  }

  /** Printed numbers, separated by semicolons, are read back. */
  lemma {:induction false} ParamsRoundTrip(nums: seq<nat>)
    requires nums != [] && forall i :: 0 <= i < |nums| ==> nums[i] < U32_SIZE
    ensures ParseParams(Joined(nums)) == nums
    ensures ParseParams(['?' as byte] + Joined(nums)) == nums
  {
    JoinedBytes(nums);
    ParseJoined(nums);
    assert (['?' as byte] + Joined(nums))[1..] == Joined(nums);
  }

  lemma {:induction false} CsiEndAfter(data: seq<byte>, i: nat, end: nat)
    requires i <= end < |data| && data[end] >= 0x40 && forall j :: i <= j < end ==> 0x30 <= data[j] < 0x40
    ensures CsiEnd(data, i) == end && ParamEnd(data, i, end) == end
    decreases end - i
  {
    if i < end {
      CsiEndAfter(data, i + 1, end);
    }
  }

  function CsiBytes(params: seq<byte>, final: byte): seq<byte> {
    [ESC, '[' as byte] + params + [final]
  }

  lemma {:induction false} CsiRenders(params: seq<byte>, final: byte)
    requires ParamBytes(params) && 0x40 <= final <= 0x7e
    ensures Renders(CsiBytes(params, final), Csi(params, final))
  {
    var data := CsiBytes(params, final);
    CsiEndAfter(data, 2, |params| + 2);
    assert data[2..|params| + 2] == params;
  }

  // ------------------------------------------------------------- selecting attributes

  function WithColor(a: Attr, foreground: bool, c: Color): Attr {
    if foreground then a.(fg := c) else a.(bg := c)
  }

  function Byte(n: nat): nat { n % 0x100 }

  /** `38` and `48`: the colour that follows and how many numbers it takes. */
  function Extended(a: Attr, foreground: bool, nums: seq<nat>): (r: (Attr, nat))
    requires nums != []
    ensures 0 < r.1 <= |nums|
  {
    if |nums| > 2 && nums[1] == 5 then (WithColor(a, foreground, Index(nums[2])), 3)
    else if |nums| > 4 && nums[1] == 2 then
      (WithColor(a, foreground, Rgb(Byte(nums[2]) * 0x1_0000 + Byte(nums[3]) * 0x100 + Byte(nums[4]))), 5)
    else (a, 1)
  }

  function Simple(a: Attr, n: nat): (r: Attr)
    ensures CanonicalAttr(a) ==> CanonicalAttr(r)
  {
    if n == 0 then PLAIN
    else if n == 1 then a.(bold := true)
    else if n == 2 then a.(dim := true)
    else if n == 3 then a.(italic := true)
    else if n == 4 then a.(under := true)
    else if n == 5 || n == 6 then a.(blink := true)
    else if n == 7 then a.(reverse := true)
    else if n == 8 then a.(conceal := true)
    else if n == 9 then a.(strike := true)
    else if n == 22 then a.(bold := false, dim := false)
    else if n == 23 then a.(italic := false)
    else if n == 24 then a.(under := false)
    else if n == 25 then a.(blink := false)
    else if n == 27 then a.(reverse := false)
    else if n == 28 then a.(conceal := false)
    else if n == 29 then a.(strike := false)
    else if n == 39 then a.(fg := Default)
    else if n == 49 then a.(bg := Default)
    else if 30 <= n <= 37 then a.(fg := Index(n - 30))
    else if 40 <= n <= 47 then a.(bg := Index(n - 40))
    else if 90 <= n <= 97 then a.(fg := Index(n - 90 + 8))
    else if 100 <= n <= 107 then a.(bg := Index(n - 100 + 8))
    else a
  }

  function Select(a: Attr, nums: seq<nat>): (r: (Attr, nat))
    requires nums != []
    ensures 0 < r.1 <= |nums|
  {
    if nums[0] == 38 then Extended(a, true, nums)
    else if nums[0] == 48 then Extended(a, false, nums)
    else (Simple(a, nums[0]), 1)
  }

  function SelectAll(a: Attr, nums: seq<nat>): Attr
    decreases |nums|
  {
    if nums == [] then a
    else
      var r := Select(a, nums);
      SelectAll(r.0, nums[r.1..])
  }

  function ApplySgr(a: Attr, nums: seq<nat>): Attr {
    if nums == [] then PLAIN else SelectAll(a, nums)
  }

  method ApplySgrInPlace(attr: Attr, nums: seq<nat>) returns (a: Attr)
    ensures a == ApplySgr(attr, nums)
  {
    if nums == [] {
      return PLAIN;
    }
    a := attr;
    var i := 0;
    while i < |nums|
      invariant 0 <= i <= |nums|
      invariant SelectAll(a, nums[i..]) == SelectAll(attr, nums)
    {
      var r := Select(a, nums[i..]);
      assert nums[i..][r.1..] == nums[i + r.1..];
      a, i := r.0, i + r.1;
    }
  }

  // -------------------------------------------------------- printing the difference

  predicate Canonical(c: Color) {
    match c
    case Default => true
    case Index(v) => v < U32_SIZE
    case Rgb(v) => v < 0x100_0000
  }

  predicate CanonicalAttr(a: Attr) { Canonical(a.fg) && Canonical(a.bg) }

  function ColorCodes(c: Color, foreground: bool): (r: seq<nat>)
    ensures |r| > 0
  {
    match c
    case Default => [if foreground then 39 else 49]
    case Index(v) =>
      if v < 8 then [(if foreground then 30 else 40) + v]
      else if v < 16 then [(if foreground then 90 else 100) + v - 8]
      else [if foreground then 38 else 48, 5, v]
    case Rgb(v) => [if foreground then 38 else 48, 2, Byte(v / 0x1_0000), Byte(v / 0x100), Byte(v)]
  }

  predicate NeedsReset(cur: Attr, next: Attr) {
    || (cur.bold && !next.bold) || (cur.dim && !next.dim) || (cur.italic && !next.italic)
    || (cur.under && !next.under) || (cur.blink && !next.blink) || (cur.reverse && !next.reverse)
    || (cur.conceal && !next.conceal) || (cur.strike && !next.strike)
    || (cur.fg != Default && next.fg == Default) || (cur.bg != Default && next.bg == Default)
  }

  function When(c: bool, codes: seq<nat>): seq<nat> {
    if c then codes else []
  }

  const FLAGS: nat := 8

  /** The flags in the order in which they are printed. */
  predicate Flag(a: Attr, k: nat)
    requires k < FLAGS
  {
    if k < 4 then (if k < 2 then (if k == 0 then a.bold else a.dim) else if k == 2 then a.italic else a.under)
    else if k < 6 then (if k == 4 then a.blink else a.reverse) else if k == 6 then a.conceal else a.strike
  }

  function FlagCode(k: nat): (n: nat)
    requires k < FLAGS
    ensures 0 < n < 10
  {
    if k < 5 then k + 1 else k + 2
  }

  /** What switches flags on from flag `k` on, and what follows. */
  function FlagCodes(cur: Attr, next: Attr, k: nat, rest: seq<nat>): seq<nat>
    requires k <= FLAGS
    decreases FLAGS - k
  {
    if k == FLAGS then rest
    else When(Flag(next, k) && !Flag(cur, k), [FlagCode(k)]) + FlagCodes(cur, next, k + 1, rest)
  }

  function Colors(cur: Attr, next: Attr): seq<nat> {
    When(next.fg != cur.fg, ColorCodes(next.fg, true)) + When(next.bg != cur.bg, ColorCodes(next.bg, false))
  }

  /** What is added to `cur` to make it `next`. */
  function AddedCodes(cur: Attr, next: Attr): seq<nat> {
    FlagCodes(cur, next, 0, Colors(cur, next))
  }

  function DiffCodes(cur: Attr, next: Attr): seq<nat> {
    if NeedsReset(cur, next) then [0] + AddedCodes(PLAIN, next) else AddedCodes(cur, next)
  }

  function AttrDiff(cur: Attr, next: Attr): seq<byte> {
    if cur == next || DiffCodes(cur, next) == [] then []
    else CsiBytes(Joined(DiffCodes(cur, next)), 'm' as byte)
  }

  // --------------------------------------------------------------- the SGR round trip

  lemma {:induction false} SelectAllColor(a: Attr, foreground: bool, c: Color, rest: seq<nat>)
    requires Canonical(c)
    ensures SelectAll(a, ColorCodes(c, foreground) + rest) == SelectAll(WithColor(a, foreground, c), rest)
  {
    var codes := ColorCodes(c, foreground);
    if c.Rgb? {
      RgbBytes(c.value);
    }
    assert Select(a, codes + rest) == (WithColor(a, foreground, c), |codes|);
    assert (codes + rest)[|codes|..] == rest;
  }

  lemma {:induction false} RgbBytes(v: nat)
    requires v < 0x100_0000
    ensures Byte(Byte(v / 0x1_0000)) * 0x1_0000 + Byte(Byte(v / 0x100)) * 0x100 + Byte(Byte(v)) == v
  {
    assert v / 0x100 / 0x100 == v / 0x1_0000;
  }

  /** The first `k` flags of `next`, all else of `cur`. */
  function Merged(cur: Attr, next: Attr, k: nat): Attr {
    cur.(bold := if k > 0 then next.bold else cur.bold, dim := if k > 1 then next.dim else cur.dim,
         italic := if k > 2 then next.italic else cur.italic, under := if k > 3 then next.under else cur.under,
         blink := if k > 4 then next.blink else cur.blink, reverse := if k > 5 then next.reverse else cur.reverse,
         conceal := if k > 6 then next.conceal else cur.conceal, strike := if k > 7 then next.strike else cur.strike)
  }

  /** Printing the code of flag `k` if it is to be switched on settles that flag. */
  predicate Settles(cur: Attr, next: Attr, k: nat)
    requires k < FLAGS
  {
    Merged(cur, next, k + 1)
      == if Flag(next, k) && !Flag(cur, k) then Simple(Merged(cur, next, k), FlagCode(k)) else Merged(cur, next, k)
  }

  lemma {:induction false} FirstFlagsSettle(cur: Attr, next: Attr, k: nat)
    requires k < 3 && (Flag(cur, k) ==> Flag(next, k))
    ensures Settles(cur, next, k)
  {}

  lemma {:induction false} MiddleFlagsSettle(cur: Attr, next: Attr, k: nat)
    requires 3 <= k < 5 && (Flag(cur, k) ==> Flag(next, k))
    ensures Settles(cur, next, k)
  {}

  lemma {:induction false} LastFlagsSettle(cur: Attr, next: Attr, k: nat)
    requires 5 <= k < 7 && (Flag(cur, k) ==> Flag(next, k))
    ensures Settles(cur, next, k)
  {}

  lemma {:induction false} StrikeSettles(cur: Attr, next: Attr, k: nat)
    requires k == 7 && (Flag(cur, k) ==> Flag(next, k))
    ensures Settles(cur, next, k)
  {}

  lemma {:induction false} ResetFlags(cur: Attr, next: Attr, k: nat)
    requires k < FLAGS && !NeedsReset(cur, next)
    ensures Flag(cur, k) ==> Flag(next, k)
  {}

  lemma {:induction false} SelectAllFlag(a: Attr, c: bool, n: nat, rest: seq<nat>)
    requires n < 10
    ensures SelectAll(a, When(c, [n]) + rest) == SelectAll(if c then Simple(a, n) else a, rest)
  {
    if c {
      assert ([n] + rest)[1..] == rest;
    } else {
      assert [] + rest == rest;
    }
  }

  lemma {:induction false} SelectFlags(cur: Attr, next: Attr, k: nat, rest: seq<nat>)
    requires k <= FLAGS && !NeedsReset(cur, next)
    ensures SelectAll(Merged(cur, next, k), FlagCodes(cur, next, k, rest)) == SelectAll(Merged(cur, next, FLAGS), rest)
    decreases FLAGS - k
  {
    hide Merged, SelectAll, When, NeedsReset, Simple, Flag;
    if k < FLAGS {
      ResetFlags(cur, next, k);
      if k < 3 {
        FirstFlagsSettle(cur, next, k);
      } else if k < 5 {
        MiddleFlagsSettle(cur, next, k);
      } else if k < 7 {
        LastFlagsSettle(cur, next, k);
      } else {
        StrikeSettles(cur, next, k);
      }
      SelectAllFlag(Merged(cur, next, k), Flag(next, k) && !Flag(cur, k), FlagCode(k), FlagCodes(cur, next, k + 1, rest));
      SelectFlags(cur, next, k + 1, rest);
    }
  }

  lemma {:induction false} SelectColors(cur: Attr, a: Attr, next: Attr)
    requires CanonicalAttr(next) && a == next.(fg := cur.fg, bg := cur.bg)
    ensures SelectAll(a, Colors(cur, next)) == next
  {
    hide ColorCodes, SelectAll;
    var bgs := When(next.bg != cur.bg, ColorCodes(next.bg, false));
    ColorSegment(a, true, next.fg, next.fg != cur.fg, bgs);
    ColorSegment(a.(fg := next.fg), false, next.bg, next.bg != cur.bg, []);
    assert bgs + [] == bgs;
    SelectNothing(next);
  }

  lemma {:induction false} AddedReach(cur: Attr, next: Attr)
    requires !NeedsReset(cur, next) && CanonicalAttr(next)
    ensures SelectAll(cur, AddedCodes(cur, next)) == next
  {
    hide FlagCodes, Colors, SelectAll, NeedsReset, Canonical;
    SelectFlags(cur, next, 0, Colors(cur, next));
    SelectColors(cur, Merged(cur, next, FLAGS), next);
  }

  lemma {:induction false} SelectNothing(a: Attr)
    ensures SelectAll(a, []) == a
  {}

  lemma {:induction false} ColorSegment(a: Attr, foreground: bool, c: Color, changed: bool, rest: seq<nat>)
    requires Canonical(c)
    ensures SelectAll(a, When(changed, ColorCodes(c, foreground)) + rest)
         == SelectAll(if changed then WithColor(a, foreground, c) else a, rest)
  {
    if changed {
      SelectAllColor(a, foreground, c, rest);
    } else {
      assert [] + rest == rest;
    }
  }

  /** The printed numbers always lead from `cur` to `next`; the branch that would have
      nothing to print is never taken. */
  lemma {:induction false} DiffReaches(cur: Attr, next: Attr)
    requires CanonicalAttr(next) && cur != next
    ensures DiffCodes(cur, next) != [] && SelectAll(cur, DiffCodes(cur, next)) == next
  {
    if NeedsReset(cur, next) {
      var rest := AddedCodes(PLAIN, next);
      AddedReach(PLAIN, next);
      ResetFirst(cur, rest);
    } else {
      AddedReach(cur, next);
      SelectNothing(cur);
    }
  }

  lemma {:induction false} ResetFirst(cur: Attr, rest: seq<nat>)
    ensures SelectAll(cur, [0] + rest) == SelectAll(PLAIN, rest)
  {
    assert ([0] + rest)[1..] == rest;
  }

  predicate Small(nums: seq<nat>) { forall i :: 0 <= i < |nums| ==> nums[i] < U32_SIZE }

  lemma {:induction false} SmallWhen(c: bool, codes: seq<nat>, rest: seq<nat>)
    requires Small(codes) && Small(rest)
    ensures Small(When(c, codes) + rest)
  {}

  lemma {:induction false} FlagCodesSmall(cur: Attr, next: Attr, k: nat, rest: seq<nat>)
    requires k <= FLAGS && Small(rest)
    ensures Small(FlagCodes(cur, next, k, rest))
    decreases FLAGS - k
  {
    if k < FLAGS {
      FlagCodesSmall(cur, next, k + 1, rest);
      SmallWhen(Flag(next, k) && !Flag(cur, k), [FlagCode(k)], FlagCodes(cur, next, k + 1, rest));
    }
  }

  lemma {:induction false} AddedSmall(cur: Attr, next: Attr)
    requires CanonicalAttr(next)
    ensures Small(AddedCodes(cur, next))
  {
    hide FlagCodes;
    var bgs := When(next.bg != cur.bg, ColorCodes(next.bg, false));
    assert Small(ColorCodes(next.fg, true)) && Small(bgs);
    SmallWhen(next.fg != cur.fg, ColorCodes(next.fg, true), bgs);
    FlagCodesSmall(cur, next, 0, Colors(cur, next));
  }

  lemma {:induction false} DiffCodesSmall(cur: Attr, next: Attr)
    requires CanonicalAttr(next)
    ensures Small(DiffCodes(cur, next))
  {
    hide AddedCodes, NeedsReset, Canonical;
    AddedSmall(cur, next);
    AddedSmall(PLAIN, next);
  }

  /** The bytes printed for a change of attributes are one command that makes it. */
  lemma {:induction false} SgrRoundTrip(cur: Attr, next: Attr)
    requires CanonicalAttr(next) && cur != next
    ensures var codes := DiffCodes(cur, next);
      && AttrDiff(cur, next) == CsiBytes(Joined(codes), 'm' as byte)
      && Renders(AttrDiff(cur, next), Csi(Joined(codes), 'm' as byte))
      && ApplySgr(cur, ParseParams(Joined(codes))) == next
  {
    hide *;
    DiffReaches(cur, next);
    DiffCodesSmall(cur, next);
    RoundTripOf(cur, next, DiffCodes(cur, next));
  }

  lemma {:induction false} RoundTripOf(cur: Attr, next: Attr, codes: seq<nat>)
    requires cur != next && codes == DiffCodes(cur, next) != [] && Small(codes)
    requires SelectAll(cur, codes) == next
    ensures AttrDiff(cur, next) == CsiBytes(Joined(codes), 'm' as byte)
    ensures Renders(AttrDiff(cur, next), Csi(Joined(codes), 'm' as byte))
    ensures ApplySgr(cur, ParseParams(Joined(codes))) == next
  {
    hide DiffCodes, SelectAll, Renders, Joined;
    ParamsRoundTrip(codes);
    JoinedBytes(codes);
    CsiRenders(Joined(codes), 'm' as byte);
  }
}
