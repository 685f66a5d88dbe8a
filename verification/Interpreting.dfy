/** What a received diff makes of a numbered screen: echo number, size, output and geometry mark. */
module Interpreting {
  import opened Basics
  import opened Lexer
  import opened Cells
  import opened Screen
  import opened Compaction
  import opened Terminal
  import opened Host

  // -------------------------------------------------------------------------- echo numbers

  /** The largest of a number and the echo numbers of some instructions. */
  predicate LargestEcho(e: nat, was: nat, hs: seq<HostInstruction>) {
    && was <= e && (forall i :: 0 <= i < |hs| ==> hs[i].echoAck <= e)
    && (e == was || exists i :: 0 <= i < |hs| && hs[i].echoAck == e)
  }

  lemma {:induction false} EchoesOf(t: Widths, fits: Limit, s: Snapshot<Console>, hs: seq<HostInstruction>)
    ensures var r := ApplyInstructions(t, fits, s, hs);
      r.Some? ==> LargestEcho(r.value.echoAck, s.echoAck, hs)
    decreases |hs|
  {
    hide Feed, Resized;
    if hs != [] {
      var init, h := hs[..|hs| - 1], hs[|hs| - 1];
      EchoesOf(t, fits, s, init);
      var before := ApplyInstructions(t, fits, s, init);
      if before.Some? {
        forall i | 0 <= i < |hs| ensures hs[i] == if i < |init| then init[i] else h {}
        EchoesMore(before.value.echoAck, s.echoAck, init, h, hs);
      }
    }
  }

  lemma {:induction false} EchoesMore(e: nat, was: nat, init: seq<HostInstruction>, h: HostInstruction, hs: seq<HostInstruction>)
    requires LargestEcho(e, was, init) && hs == init + [h]
    ensures LargestEcho(if h.echoAck > e then h.echoAck else e, was, hs)
  {
    if h.echoAck > e {
      assert hs[|init|].echoAck == h.echoAck;
    } else if e != was {
      var i :| 0 <= i < |init| && init[i].echoAck == e;
      assert hs[i].echoAck == e;
    }
  }

  /** The echo number becomes the largest of the base's and all that the diff carries. */
  lemma {:induction false} EchoIsLargest(t: Widths, fits: Limit, s: Snapshot<Console>, diff: seq<byte>, n: nat)
    ensures var r := Interpret(t, fits, s, diff, n);
      r.Some? ==> DecodeHosts(diff).Ok? && LargestEcho(r.value.echoAck, s.echoAck, DecodeHosts(diff).value)
  {
    hide DecodeHostsFrom, ApplyInstructions, Compact;
    if DecodeHosts(diff).Ok? {
      EchoesOf(t, fits, s, DecodeHosts(diff).value);
    }
  }

  // ---------------------------------------------------------------------------------- size

  function AtLeastOne(n: nat): nat { if n == 0 then 1 else n }

  /** A screen of another size: what fits is kept in place, the rest is blank, and nothing is pending. */
  predicate Refitted(f: Frame, g: Frame, cols: nat, rows: nat)
    requires cols > 0 && rows > 0
  {
    && g.cols == cols && g.rows == rows && |g.grid| == rows && |g.tabs| == cols
    && (forall y :: 0 <= y < rows ==> |g.grid[y]| == cols)
    && (forall y, x :: 0 <= y < rows && 0 <= x < cols ==>
          g.grid[y][x] == if y < |f.grid| && x < |f.grid[y]| then f.grid[y][x] else BLANK)
    && (forall x :: 0 <= x < cols ==> g.tabs[x] == if x < |f.tabs| then f.tabs[x] else x > 0 && x % 8 == 0)
    && g.cursor == Cursor(if f.cursor.x < cols then f.cursor.x else cols - 1, if f.cursor.y < rows then f.cursor.y else rows - 1, false)
    && g.target == (if f.target.valid && f.target.x < cols && f.target.y < rows then f.target else Target(0, 0, false))
    && g.margins == Margins(0, rows - 1)
    && g.modes == f.modes && g.switches == f.switches && g.effects == f.effects && g.links == f.links
    && g.scrolls == (f.scrolls + 1) % 0x1_0000_0000_0000_0000
  }

  lemma {:induction false} CopiedGridIs(grid: seq<seq<Cell>>, rows: nat, cols: nat)
    ensures forall y :: 0 <= y < rows ==>
      CopiedGrid(grid, rows, cols)[y] == CopiedRow(if y < |grid| then grid[y] else [], cols)
  {
    hide CopiedRow;
    if rows > 0 {
      CopiedGridIs(grid, rows - 1, cols);
    }
  }

  lemma {:induction false} ResizedIs(f: Frame, width: nat, height: nat)
    ensures var cols, rows := AtLeastOne(width), AtLeastOne(height);
      if cols == f.cols && rows == f.rows then Resized(f, width, height) == f
      else Refitted(f, Resized(f, width, height), cols, rows)
  {
    hide CopiedGrid, BlankGrid;
    CopiedGridIs(f.grid, AtLeastOne(height), AtLeastOne(width));
  }

  // ----------------------------------------------------------------------- whole messages

  predicate Sizes(h: HostInstruction) { h.width > 0 && h.height > 0 }

  predicate TooLarge(fits: Limit, h: HostInstruction) { Sizes(h) && !fits(h.width, h.height) }

  /** One instruction: a size first, if both dimensions are positive, and then the output. */
  ghost predicate Obeys(t: Widths, a: Console, h: HostInstruction, b: Console) {
    exists m: Console :: Fits(a, h, m) && b == if h.hoststring == [] then m else Feed(Executing(t), m, h.hoststring)
  }

  predicate Fits(a: Console, h: HostInstruction, m: Console) {
    && m == a.(state := a.state.(frame := m.state.frame))
    && (if Sizes(h) && !(h.width == a.state.frame.cols && h.height == a.state.frame.rows)
        then Refitted(a.state.frame, m.state.frame, h.width, h.height) else m == a)
  }

  lemma {:induction false} OneObeys(t: Widths, fits: Limit, s: Snapshot<Console>, h: HostInstruction)
    ensures ApplyInstruction(t, fits, s, h).None? <==> TooLarge(fits, h)
    ensures var r := ApplyInstruction(t, fits, s, h); r.Some? ==> Obeys(t, s.frame, h, r.value.frame)
  {
    hide Feed, Refitted, Resized;
    var f := s.frame.state.frame;
    var m := if Sizes(h) then s.frame.(state := s.frame.state.(frame := Resized(f, h.width, h.height))) else s.frame;
    if Sizes(h) {
      ResizedIs(f, h.width, h.height);
    }
    assert Fits(s.frame, h, m);
  }

  ghost predicate Chain(t: Widths, states: seq<Console>, hs: seq<HostInstruction>) {
    && |states| == |hs| + 1
    && forall i :: 0 <= i < |hs| ==> Obeys(t, states[i], hs[i], states[i + 1])
  }

  lemma {:induction false} AllObey(t: Widths, fits: Limit, s: Snapshot<Console>, hs: seq<HostInstruction>) returns (states: seq<Console>)
    ensures ApplyInstructions(t, fits, s, hs).None? <==> exists i :: 0 <= i < |hs| && TooLarge(fits, hs[i])
    ensures var r := ApplyInstructions(t, fits, s, hs);
      r.Some? ==> Chain(t, states, hs) && states[0] == s.frame && states[|hs|] == r.value.frame
    decreases |hs|
  {
    hide ApplyInstruction, Obeys, TooLarge;
    if hs == [] {
      states := [s.frame];
    } else {
      var k := |hs| - 1;
      var init, h := hs[..k], hs[k];
      states := AllObey(t, fits, s, init);
      forall i | 0 <= i < k ensures hs[i] == init[i] {}
      var before := ApplyInstructions(t, fits, s, init);
      if before.Some? {
        OneObeys(t, fits, before.value, h);
        var r := ApplyInstruction(t, fits, before.value, h);
        if r.Some? {
          ChainMore(t, states, init, h, hs, r.value.frame);
          states := states + [r.value.frame];
        }
      } else {
        var i :| 0 <= i < k && TooLarge(fits, init[i]);
        assert TooLarge(fits, hs[i]);
      }
    }
  }

  lemma {:induction false} ChainMore(t: Widths, states: seq<Console>, init: seq<HostInstruction>, h: HostInstruction, hs: seq<HostInstruction>, b: Console)
    requires Chain(t, states, init) && hs == init + [h] && Obeys(t, states[|init|], h, b)
    ensures Chain(t, states + [b], hs)
  {
    hide Obeys;
    var all := states + [b];
    forall i | 0 <= i < |hs| ensures Obeys(t, all[i], hs[i], all[i + 1]) {
      if i < |init| {
        assert hs[i] == init[i] && all[i + 1] == states[i + 1];
      }
    }
  }

  /** The diff is refused exactly if it is malformed or asks for a size over the limit. Otherwise its
      instructions are obeyed in order, unused links are dropped, and if the screen scrolled or changed
      its size on the way it is marked with the number of the state. */
  lemma {:induction false} DiffObeyed(t: Widths, fits: Limit, s: Snapshot<Console>, diff: seq<byte>, n: nat) returns (states: seq<Console>)
    ensures var hs, r := DecodeHosts(diff), Interpret(t, fits, s, diff, n);
      r.None? <==> hs.Err? || exists i :: 0 <= i < |hs.value| && TooLarge(fits, hs.value[i])
    ensures var hs, r := DecodeHosts(diff), Interpret(t, fits, s, diff, n);
      r.Some? ==>
        && Chain(t, states, hs.value) && states[0] == s.frame
        && var last := states[|hs.value|];
           var marked := if last.state.frame.scrolls == s.frame.state.frame.scrolls then last.state.frame.scrolls else n;
           r.value.frame == last.(state := last.state.(frame := Compact(last.state.frame).(scrolls := marked)))
  {
    hide DecodeHostsFrom, ApplyInstructions, Chain, TooLarge;
    states := [];
    var hs := DecodeHosts(diff);
    if hs.Ok? {
      states := AllObey(t, fits, s, hs.value);
      var r := ApplyInstructions(t, fits, s, hs.value);
      if r.Some? {
        CompactScrolls(r.value.frame.state.frame);
      }
    }
  }

  lemma {:induction false} CompactScrolls(f: Frame)
    ensures Compact(f).scrolls == f.scrolls
  {
    hide RefersOutside, AllKept, CompactTable, Identity, InUse, RemapGrid;
  }
}
