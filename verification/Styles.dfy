/** Any list of SGR codes: of each attribute the last code that speaks of it counts. */
module Styles {
  import opened Basics
  import opened Sgr

  // ------------------------------------------------------------------------------- numbers

  /** Fields with semicolons between them. */
  function Separated(fields: seq<seq<byte>>): seq<byte>
    requires fields != []
  {
    if |fields| == 1 then fields[0] else fields[0] + [0x3b] + Separated(fields[1..])
  }

  predicate NoSeparator(s: seq<byte>) { forall i :: 0 <= i < |s| ==> s[i] != 0x3b }

  /** Decimal digits, the most significant first. */
  function Tens(s: seq<byte>): nat {
    if s == [] then 0 else Tens(s[..|s| - 1]) * 10 + (if s[|s| - 1] >= 0x30 then s[|s| - 1] as nat - 0x30 else 0)
  }

  predicate Decimals(s: seq<byte>) { forall i :: 0 <= i < |s| ==> 0x30 <= s[i] <= 0x39 }

  /** A field is a number of 32 bits, perhaps after a plus sign, and anything else is zero. */
  function FieldValue(s: seq<byte>): nat {
    if Decimals(s) then (if Tens(s) <= 0xFFFF_FFFF then Tens(s) else 0)
    else if |s| > 1 && s[0] == 0x2b && Decimals(s[1..]) && Tens(s[1..]) <= 0xFFFF_FFFF then Tens(s[1..])
    else 0
  }

  lemma {:induction false} TensIs(s: seq<byte>)
    requires AllDigits(s)
    ensures Tens(s) == Value(s)
  {
    if s != [] {
      TensIs(s[..|s| - 1]);
    }
  }

  lemma {:induction false} NumberIs(s: seq<byte>)
    ensures ParseNumber(s) == FieldValue(s)
  {
    if AllDigits(s) {
      TensIs(s);
    }
    if |s| > 1 && AllDigits(s[1..]) {
      TensIs(s[1..]);
    }
    assert |s| > 0 && s[0] == 0x2b ==> !Decimals(s);
    assert AllDigits(s) == Decimals(s) && (|s| > 1 ==> AllDigits(s[1..]) == Decimals(s[1..]));
  }

  lemma {:induction false} FieldEndIs(s: seq<byte>, i: nat, n: nat)
    requires i <= n <= |s| && (forall j :: i <= j < n ==> s[j] != 0x3b) && (n < |s| ==> s[n] == 0x3b)
    ensures FieldEnd(s, i) == n
    decreases n - i
  {
    if i < n {
      FieldEndIs(s, i + 1, n);
    }
  }

  lemma {:induction false} FieldsParse(fields: seq<seq<byte>>)
    requires fields != [] && forall i :: 0 <= i < |fields| ==> NoSeparator(fields[i])
    ensures |ParseFields(Separated(fields))| == |fields|
    ensures forall i :: 0 <= i < |fields| ==> ParseFields(Separated(fields))[i] == FieldValue(fields[i])
    decreases |fields|
  {
    hide ParseNumber, FieldValue;
    var s, k := Separated(fields), |fields[0]|;
    NumberIs(fields[0]);
    assert NoSeparator(fields[0]);
    FieldEndIs(s, 0, k);
    assert s[..k] == fields[0];
    if |fields| > 1 {
      assert s[k + 1..] == Separated(fields[1..]);
      FieldsParse(fields[1..]);
      assert ParseFields(s) == [ParseNumber(s[..k])] + ParseFields(s[k + 1..]);
    }
  }

  /** Parameters are the fields between semicolons, after a question mark if there is one. */
  lemma {:induction false} ParametersParse(fields: seq<seq<byte>>)
    requires fields != [] && forall i :: 0 <= i < |fields| ==> NoSeparator(fields[i])
    requires Separated(fields) != [] && Separated(fields)[0] != 0x3f
    ensures |ParseParams(Separated(fields))| == |fields| && ParseParams([0x3f] + Separated(fields)) == ParseParams(Separated(fields))
    ensures forall i :: 0 <= i < |fields| ==> ParseParams(Separated(fields))[i] == FieldValue(fields[i])
  {
    hide ParseFields, FieldValue, Separated;
    FieldsParse(fields);
    assert ([0x3f] + Separated(fields))[1..] == Separated(fields);
  }

  lemma {:induction false} NoParameters()
    ensures ParseParams([]) == [] && ParseParams([0x3f]) == []
  {}

  // --------------------------------------------------------------------------------- codes

  /** One code: a single number, or a colour introduced by 38 or 48. */
  datatype Code = Single(n: nat) | Palette(foreground: bool, v: nat) | Mixed(foreground: bool, red: nat, green: nat, blue: nat)

  predicate CodeOk(c: Code) { c.Single? ==> c.n != 38 && c.n != 48 }

  function Numbers(c: Code): seq<nat> {
    match c
    case Single(n) => [n]
    case Palette(foreground, v) => [if foreground then 38 else 48, 5, v]
    case Mixed(foreground, red, green, blue) => [if foreground then 38 else 48, 2, red, green, blue]
  }

  function AllNumbers(cs: seq<Code>): seq<nat> {
    if cs == [] then [] else Numbers(cs[0]) + AllNumbers(cs[1..])
  }

  /** A switch after one code: on if it is from `on` to `upto`, off if it is `off` or zero. */
  function Switched(c: Code, on: nat, upto: nat, off: nat, d: bool): bool {
    if c.Single? && on <= c.n <= upto then true else if c.Single? && (c.n == 0 || c.n == off) then false else d
  }

  /** A switch after the last code that speaks of it. */
  function LastSwitch(cs: seq<Code>, on: nat, upto: nat, off: nat, d: bool): bool {
    if cs == [] then d
    else LastSwitch(cs[1..], on, upto, off, Switched(cs[0], on, upto, off, d))
  }

  /** The colour that one code selects: eight from `base`, eight bright ones 60 above it, the default 9 above it. */
  function Selected(c: Code, foreground: bool, d: Color): Color {
    var base := if foreground then 30 else 40;
    match c
    case Single(n) =>
      if n == 0 || n == base + 9 then Default
      else if base <= n < base + 8 then Index(n - base)
      else if base + 60 <= n < base + 68 then Index(n - base - 52)
      else d
    case Palette(fg, v) => if fg == foreground then Index(v) else d
    case Mixed(fg, red, green, blue) =>
      if fg == foreground then Rgb(red % 256 * 65536 + green % 256 * 256 + blue % 256) else d
  }

  function LastColor(cs: seq<Code>, foreground: bool, d: Color): Color {
    if cs == [] then d else LastColor(cs[1..], foreground, Selected(cs[0], foreground, d))
  }

  function Styled(a: Attr, cs: seq<Code>): Attr {
    Attr(LastSwitch(cs, 1, 1, 22, a.bold), LastSwitch(cs, 2, 2, 22, a.dim), LastSwitch(cs, 3, 3, 23, a.italic),
         LastSwitch(cs, 4, 4, 24, a.under), LastSwitch(cs, 5, 6, 25, a.blink), LastSwitch(cs, 7, 7, 27, a.reverse),
         LastSwitch(cs, 8, 8, 28, a.conceal), LastSwitch(cs, 9, 9, 29, a.strike),
         LastColor(cs, true, a.fg), LastColor(cs, false, a.bg))
  }

  /** One code's effect. */
  function Restyled(a: Attr, c: Code): Attr {
    Attr(Switched(c, 1, 1, 22, a.bold), Switched(c, 2, 2, 22, a.dim), Switched(c, 3, 3, 23, a.italic),
         Switched(c, 4, 4, 24, a.under), Switched(c, 5, 6, 25, a.blink), Switched(c, 7, 7, 27, a.reverse),
         Switched(c, 8, 8, 28, a.conceal), Switched(c, 9, 9, 29, a.strike),
         Selected(c, true, a.fg), Selected(c, false, a.bg))
  }

  /** The codes below 22, those below 30, and the colours, one group at a time. */
  function SwitchedOn(a: Attr, n: nat): Attr {
    if n == 0 then PLAIN
    else if n == 1 then a.(bold := true)
    else if n == 2 then a.(dim := true)
    else if n == 3 then a.(italic := true)
    else if n == 4 then a.(under := true)
    else if n == 5 || n == 6 then a.(blink := true)
    else if n == 7 then a.(reverse := true)
    else if n == 8 then a.(conceal := true)
    else if n == 9 then a.(strike := true)
    else a
  }

  function SwitchedOff(a: Attr, n: nat): Attr {
    if n == 22 then a.(bold := false, dim := false)
    else if n == 23 then a.(italic := false)
    else if n == 24 then a.(under := false)
    else if n == 25 then a.(blink := false)
    else if n == 27 then a.(reverse := false)
    else if n == 28 then a.(conceal := false)
    else if n == 29 then a.(strike := false)
    else a
  }

  function Hue(a: Attr, n: nat): Attr {
    if n == 39 then a.(fg := Default)
    else if n == 49 then a.(bg := Default)
    else if 30 <= n <= 37 then a.(fg := Index(n - 30))
    else if 40 <= n <= 47 then a.(bg := Index(n - 40))
    else if 90 <= n <= 97 then a.(fg := Index(n - 90 + 8))
    else if 100 <= n <= 107 then a.(bg := Index(n - 100 + 8))
    else a
  }

  lemma {:induction false} OnIs(a: Attr, n: nat)
    requires n < 22
    ensures Simple(a, n) == SwitchedOn(a, n)
  {
    hide CanonicalAttr;
  }

  lemma {:induction false} OffIs(a: Attr, n: nat)
    requires 22 <= n < 30
    ensures Simple(a, n) == SwitchedOff(a, n)
  {
    hide CanonicalAttr;
  }

  lemma {:induction false} HueIs(a: Attr, n: nat)
    requires 30 <= n
    ensures Simple(a, n) == Hue(a, n)
  {
    hide CanonicalAttr;
  }

  lemma {:induction false} FirstOn(a: Attr, n: nat)
    requires n < 5
    ensures Restyled(a, Single(n)) == SwitchedOn(a, n)
  {}

  lemma {:induction false} LaterOn(a: Attr, n: nat)
    requires 5 <= n < 22
    ensures Restyled(a, Single(n)) == SwitchedOn(a, n)
  {}

  lemma {:induction false} FirstOff(a: Attr, n: nat)
    requires 22 <= n < 25
    ensures Restyled(a, Single(n)) == SwitchedOff(a, n)
  {}

  lemma {:induction false} LaterOff(a: Attr, n: nat)
    requires 25 <= n < 30
    ensures Restyled(a, Single(n)) == SwitchedOff(a, n)
  {}

  lemma {:induction false} NearHue(a: Attr, n: nat)
    requires 30 <= n < 48 && n != 38
    ensures Hue(a, n) == a.(fg := Selected(Single(n), true, a.fg), bg := Selected(Single(n), false, a.bg))
  {}

  lemma {:induction false} BrightHue(a: Attr, n: nat)
    requires 48 < n < 100
    ensures Hue(a, n) == a.(fg := Selected(Single(n), true, a.fg), bg := Selected(Single(n), false, a.bg))
  {}

  lemma {:induction false} BrightGround(a: Attr, n: nat)
    requires 100 <= n
    ensures Hue(a, n) == a.(fg := Selected(Single(n), true, a.fg), bg := Selected(Single(n), false, a.bg))
  {}

  lemma {:induction false} HueStyled(a: Attr, n: nat)
    requires 30 <= n && n != 38 && n != 48
    ensures Restyled(a, Single(n)) == Hue(a, n)
  {
    hide Hue, Selected;
    if n < 48 {
      NearHue(a, n);
    } else if n < 100 {
      BrightHue(a, n);
    } else {
      BrightGround(a, n);
    }
  }

  lemma {:induction false} SingleStyled(a: Attr, n: nat)
    requires n != 38 && n != 48
    ensures Simple(a, n) == Restyled(a, Single(n))
  {
    hide Simple, Restyled, SwitchedOn, SwitchedOff, Hue;
    if n < 22 {
      OnIs(a, n);
      if n < 5 {
        FirstOn(a, n);
      } else {
        LaterOn(a, n);
      }
    } else if n < 30 {
      OffIs(a, n);
      if n < 25 {
        FirstOff(a, n);
      } else {
        LaterOff(a, n);
      }
    } else {
      HueIs(a, n);
      HueStyled(a, n);
    }
  }

  lemma {:induction false} ColorStyled(a: Attr, c: Code)
    requires !c.Single?
    ensures Restyled(a, c) ==
      var color := if c.Palette? then Index(c.v) else Rgb(c.red % 256 * 65536 + c.green % 256 * 256 + c.blue % 256);
      if c.foreground then a.(fg := color) else a.(bg := color)
  {}

  lemma {:induction false} CodeStyled(a: Attr, c: Code, rest: seq<nat>)
    requires CodeOk(c)
    ensures SelectAll(a, Numbers(c) + rest) == SelectAll(Restyled(a, c), rest)
  {
    hide Simple, Restyled;
    var nums := Numbers(c) + rest;
    assert nums[|Numbers(c)|..] == rest;
    if c.Single? {
      SingleStyled(a, c.n);
    } else {
      ColorStyled(a, c);
    }
  }

  lemma {:induction false} StyledStep(a: Attr, cs: seq<Code>)
    requires cs != []
    ensures Styled(a, cs) == Styled(Restyled(a, cs[0]), cs[1..])
  {
    hide Selected, Switched;
  }

  lemma {:induction false} NothingStyled(a: Attr)
    ensures SelectAll(a, AllNumbers([])) == Styled(a, [])
  {}

  lemma {:induction false} CodesStyle(a: Attr, cs: seq<Code>)
    requires forall i :: 0 <= i < |cs| ==> CodeOk(cs[i])
    ensures SelectAll(a, AllNumbers(cs)) == Styled(a, cs)
    decreases |cs|
  {
    hide Styled, SelectAll, Numbers, Restyled;
    if cs == [] {
      NothingStyled(a);
    } else {
      CodeStyled(a, cs[0], AllNumbers(cs[1..]));
      CodesStyle(Restyled(a, cs[0]), cs[1..]);
      StyledStep(a, cs);
    }
  }

  /** No codes at all make the pen plain. Otherwise of each attribute the last code that speaks of it counts. */
  lemma {:induction false} LastCodeCounts(a: Attr, cs: seq<Code>)
    requires forall i :: 0 <= i < |cs| ==> CodeOk(cs[i])
    ensures ApplySgr(a, AllNumbers(cs)) ==
      if cs == [] then Attr(false, false, false, false, false, false, false, false, Default, Default) else Styled(a, cs)
  {
    hide Styled, SelectAll;
    CodesStyle(a, cs);
  }

  /** 38 or 48 without a colour after it is passed over, alone. */
  lemma {:induction false} LoneColor(a: Attr, n: nat, rest: seq<nat>)
    requires n == 38 || n == 48
    requires !(|rest| >= 2 && rest[0] == 5) && !(|rest| >= 4 && rest[0] == 2)
    ensures SelectAll(a, [n] + rest) == SelectAll(a, rest)
  {
    assert ([n] + rest)[1..] == rest;
  }
}
