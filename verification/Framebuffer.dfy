/** The screen as the object that the interpreter changes in place and the printer reads. */
module Framebuffers {
  import opened Basics
  import opened Sgr
  import opened Cells
  import opened Screen
  import opened Compaction

  /** `put_rune_with_hyperlink`: the frame afterwards, and the columns used. */
  function PutAt(t: Widths, f: Frame, x: nat, y: nat, ch: char, attr: Attr, link: nat): (Frame, nat) {
    var w := DisplayWidth(t, ch);
    if w.None? || w.value == 0 then (f, 0)
    else if Inside(f, x, y) then
      (f.(grid := f.grid[y := PutRow(f.grid[y], x, w.value, Glyph(ch, w.value, attr, link))], target := Target(x, y, true)), w.value)
    else (f.(target := Target(x, y, true)), w.value)
  }

  /** The interpreter's printing step is that operation, then the cursor's advance. */
  lemma {:induction false} PlaceIsPutAt(t: Widths, f: Frame, ch: char, w: nat, attr: Attr)
    requires DisplayWidth(t, ch) == Some(w) && w > 0 && Inside(f, f.cursor.x, f.cursor.y)
    ensures var g := PutAt(t, f, f.cursor.x, f.cursor.y, ch, attr, f.links.active).0;
      Place(f, ch, w, attr) == g.(cursor := Place(f, ch, w, attr).cursor)
  {}

  lemma {:induction false} FillNone(row: seq<Cell>, first: nat, blank: Cell)
    requires first <= |row|
    ensures Fill(row, first, first, blank) == row
  {}

  lemma {:induction false} FillOne(row: seq<Cell>, first: nat, x: nat, blank: Cell)
    requires first <= x < |row|
    ensures Fill(row, first, x, blank)[x := blank] == Fill(row, first, x + 1, blank)
  {
    var a, b := Fill(row, first, x, blank)[x := blank], Fill(row, first, x + 1, blank);
    forall i | 0 <= i < |row|
      ensures a[i] == b[i]
    {
      FillAt(row, first, x, blank, i);
      FillAt(row, first, x + 1, blank, i);
    }
  }

  /** The four ways in which compaction ends. */
  lemma {:induction false} CompactEnds(f: Frame, c: Compacted)
    requires c == CompactTable(f.links.table, InUse(f), |f.links.table|)
    ensures f.links.table == [] || (!RefersOutside(f) && AllKept(f)) ==> Compact(f) == f
    ensures |c.table| == |f.links.table| && Identity(c.remap) ==> Compact(f) == f
    ensures f.links.table != [] && (RefersOutside(f) || !AllKept(f)) && (|c.table| != |f.links.table| || !Identity(c.remap)) ==>
      Compact(f) == f.(grid := RemapGrid(f.grid, c.remap), links := Links(c.table, Remapped(f.links.active, c.remap)))
  {}

  class Framebuffer {
    var cols: nat
    var rows: nat
    var grid: seq<seq<Cell>>
    var cursor: Cursor
    var target: Target
    var margins: Margins
    var modes: Modes
    var tabs: seq<bool>
    var switches: Switches
    var effects: Effects
    var hyperlinks: seq<Hyperlink>
    var activeHyperlink: nat
    var scrolls: nat

    function Value(): Frame
      reads this
    {
      Frame(cols, rows, grid, cursor, target, margins, modes, tabs, switches, effects,
            Links(hyperlinks, activeHyperlink), scrolls)
    }

    ghost predicate Valid()
      reads this
    {
      Shaped(Value())
    }

    constructor (cols: nat, rows: nat)
      ensures Valid() && Value() == NewFrame(cols, rows)
    {
      var f := NewFrame(cols, rows);
      this.cols, this.rows, grid, cursor, target := f.cols, f.rows, f.grid, f.cursor, f.target;
      margins, modes, tabs, switches := f.margins, f.modes, f.tabs, f.switches;
      effects, hyperlinks, activeHyperlink, scrolls := f.effects, f.links.table, f.links.active, f.scrolls;
    }

    method Become(f: Frame)
      modifies this
      ensures Value() == f
    {
      cols, rows, grid, cursor, target := f.cols, f.rows, f.grid, f.cursor, f.target;
      margins, modes, tabs, switches := f.margins, f.modes, f.tabs, f.switches;
      effects, hyperlinks, activeHyperlink, scrolls := f.effects, f.links.table, f.links.active, f.scrolls;
    }

    method SetCell(x: nat, y: nat, c: Cell)
      requires y < |grid| && x < |grid[y]|
      modifies this`grid
      ensures grid == old(grid)[y := old(grid)[y][x := c]]
    {
      grid := grid[y := grid[y][x := c]];
    }

    /** Clears the owner of a continuation about to be overwritten. */
    method UncoverOwner(x: nat, y: nat, background: Color)
      requires y < |grid| && x < |grid[y]|
      modifies this`grid
      ensures grid == old(grid)[y := ClearOwner(old(grid)[y], x, background)]
    {
      if grid[y][x].width == 0 && x > 0 && grid[y][x - 1].width == 2 {
        SetCell(x - 1, y, Erased(background));
      } else {
        assert grid[y := grid[y]] == grid;
      }
    }

    method UncoverTrailing(x: nat, y: nat, w: nat)
      requires y < |grid| && x < |grid[y]|
      modifies this`grid
      ensures grid == old(grid)[y := UncoverRight(old(grid)[y], x, w)]
    {
      if w == 2 && x + 2 < |grid[y]| && grid[y][x + 1].width == 2 && grid[y][x + 2].width == 0 {
        SetCell(x + 2, y, Erased(grid[y][x + 2].attr.bg));
      } else {
        assert grid[y := grid[y]] == grid;
      }
    }

    method CoverNext(x: nat, y: nat, w: nat, oldWidth: nat, background: Color)
      requires y < |grid| && x < |grid[y]|
      modifies this`grid
      ensures grid == old(grid)[y := Cover(old(grid)[y], x, w, oldWidth, background)]
    {
      if w == 2 && x + 1 < |grid[y]| {
        SetCell(x + 1, y, Continuation(background));
      } else if oldWidth == 2 && x + 1 < |grid[y]| && grid[y][x + 1].width == 0 {
        SetCell(x + 1, y, Erased(grid[y][x + 1].attr.bg));
      } else {
        assert grid[y := grid[y]] == grid;
      }
    }

    method PutRune(t: Widths, x: nat, y: nat, ch: char, attr: Attr, link: nat) returns (used: nat)
      modifies this`grid, this`target
      ensures (Value(), used) == PutAt(t, old(Value()), x, y, ch, attr, link)
    {
      var w := DisplayWidth(t, ch);
      if w.None? || w.value == 0 {
        return 0;
      }
      if y < |grid| && x < |grid[y]| {
        var glyph := Glyph(ch, w.value, attr, link);
        ghost var row := grid[y];
        ghost var all := grid;
        UncoverOwner(x, y, attr.bg);
        UncoverTrailing(x, y, w.value);
        ghost var cleared := grid[y];
        assert cleared == UncoverRight(ClearOwner(row, x, attr.bg), x, w.value);
        var oldWidth := grid[y][x].width;
        SetCell(x, y, glyph);
        CoverNext(x, y, w.value, oldWidth, attr.bg);
        assert grid[y] == PutRow(row, x, w.value, glyph);
        assert grid == all[y := PutRow(row, x, w.value, glyph)];
      }
      target := Target(x, y, true);
      used := w.value;
    }

    method FillRow(y: nat, first: nat, last: nat, blank: Cell)
      requires y < |grid| && first <= last <= |grid[y]|
      modifies this`grid
      ensures grid == old(grid)[y := Fill(old(grid)[y], first, last, blank)]
    {
      ghost var row, all := grid[y], grid;
      FillNone(row, first, blank);
      assert all[y := row] == all;
      for x := first to last
        invariant |grid| == |all| && |grid[y]| == |row| && grid == all[y := Fill(row, first, x, blank)]
      {
        FillOne(row, first, x, blank);
        SetCell(x, y, blank);
      }
    }

    method EraseRowRange(y: nat, start: nat, end: nat, blank: Cell)
      modifies this`grid
      ensures Value() == EraseSpan(old(Value()), y, start, end, blank)
    {
      if y >= |grid| || start >= end || start >= |grid[y]| {
        assert y < |grid| ==> grid[y := grid[y]] == grid;
        return;
      }
      var first, last := start, if end < |grid[y]| then end else |grid[y]|;
      if first > 0 && grid[y][first].width == 0 && grid[y][first - 1].width == 2 {
        first := first - 1;
      }
      if last < |grid[y]| && grid[y][last - 1].width == 2 && grid[y][last].width == 0 {
        last := last + 1;
      }
      ghost var row := grid[y];
      assert EraseRow(row, start, end, blank) == Fill(row, first, last, blank);
      FillRow(y, first, last, blank);
    }

    method SetActiveHyperlink(params: seq<byte>, uri: seq<byte>)
      modifies this`hyperlinks, this`activeHyperlink
      ensures Links(hyperlinks, activeHyperlink) == SelectLink(old(Value()).links, params, uri)
    {
      if uri == [] {
        activeHyperlink := 0;
        return;
      }
      var link := Hyperlink(params, uri);
      var k := 0;
      while k < |hyperlinks| && hyperlinks[k] != link
        invariant k <= |hyperlinks|
        invariant Find(hyperlinks, link, k) == Find(hyperlinks, link, 0)
      {
        k := k + 1;
      }
      if k < |hyperlinks| {
        activeHyperlink := k + 1;
      } else {
        hyperlinks := hyperlinks + [link];
        activeHyperlink := |hyperlinks|;
      }
    }

    // ------------------------------------------------------------- dropping hyperlinks

    /** Marks what one row refers to; `inside` says whether all of it is in the table. */
    method MarkRow(row: seq<Cell>, marks: seq<bool>) returns (out: seq<bool>, inside: bool)
      requires |marks| > 0
      ensures |out| == |marks|
      ensures forall id :: 0 < id < |out| ==> out[id] == (marks[id] || RowRefers(row, id))
      ensures out[0] == marks[0]
      ensures inside == forall x :: 0 <= x < |row| ==> row[x].link < |marks|
    {
      out, inside := marks, true;
      for x := 0 to |row|
        invariant |out| == |marks| && out[0] == marks[0]
        invariant forall id :: 0 < id < |out| ==> out[id] == (marks[id] || exists i :: 0 <= i < x && row[i].link == id)
        invariant inside == forall i :: 0 <= i < x ==> row[i].link < |marks|
      {
        var id := row[x].link;
        if 0 < id < |out| {
          out := out[id := true];
        } else if id != 0 {
          inside := false;
        }
      }
    }

    /** Which links are in use, and whether every reference is to one in the table. */
    method MarkReferences() returns (keep: seq<bool>, inside: bool)
      ensures keep == InUse(Value())
      ensures inside == !RefersOutside(Value())
    {
      var active, count := activeHyperlink, |hyperlinks|;
      keep := seq(count + 1, id => id != 0 && id == active);
      inside := active <= count;
      for y := 0 to |grid|
        invariant |keep| == count + 1 && !keep[0]
        invariant forall id :: 0 < id < |keep| ==> keep[id] == (id == active || RefersBefore(grid, y, id))
        invariant inside == (active <= count && InsideBefore(grid, y, count))
      {
        var rowInside: bool;
        keep, rowInside := MarkRow(grid[y], keep);
        inside := inside && rowInside;
      }
      assert forall id :: 0 < id < |keep| ==> RefersBefore(grid, |grid|, id) == GridRefers(grid, id);
    }

    method NewTable(keep: seq<bool>) returns (table: seq<Hyperlink>, remap: seq<nat>)
      requires |keep| == |hyperlinks| + 1
      ensures Compacted(table, remap) == CompactTable(hyperlinks, keep, |hyperlinks|)
    {
      table, remap := [], [0];
      for n := 0 to |hyperlinks|
        invariant Compacted(table, remap) == CompactTable(hyperlinks, keep, n)
      {
        if !keep[n + 1] {
          remap := remap + [0];
        } else {
          var k := Find(table, hyperlinks[n], 0);
          if k == |table| {
            table := table + [hyperlinks[n]];
          }
          remap := remap + [k + 1];
        }
      }
    }

    method RemapRows(remap: seq<nat>)
      modifies this`grid
      ensures grid == RemapGrid(old(grid), remap)
    {
      ghost var all := grid;
      for y := 0 to |grid|
        invariant |grid| == |all|
        invariant forall i :: 0 <= i < y ==> grid[i] == RemapRow(all[i], remap)
        invariant forall i :: y <= i < |grid| ==> grid[i] == all[i]
      {
        grid := grid[y := RemapRow(grid[y], remap)];
      }
    }

    method CompactHyperlinks()
      modifies this`grid, this`hyperlinks, this`activeHyperlink
      ensures Value() == Compact(old(Value()))
    {
      hide Compact, RefersOutside, CompactTable, InUse, RemapGrid;
      if hyperlinks == [] {
        CompactNothing(Value());
        return;
      }
      ghost var f := Value();
      var keep, inside := MarkReferences();
      ghost var c := CompactTable(hyperlinks, keep, |hyperlinks|);
      CompactEnds(f, c);
      InUseAll(f, keep);
      if inside && forall id :: 1 <= id < |keep| ==> keep[id] {
        return;
      }
      var table, remap := NewTable(keep);
      if |table| == |hyperlinks| && forall id :: 0 <= id < |remap| ==> remap[id] == id {
        return;
      }
      RemapRows(remap);
      activeHyperlink := Remapped(activeHyperlink, remap);
      hyperlinks := table;
    }
  }

  lemma {:induction false} CompactNothing(f: Frame)
    requires f.links.table == []
    ensures Compact(f) == f
  {}

  lemma {:induction false} InUseAll(f: Frame, keep: seq<bool>)
    requires keep == InUse(f)
    ensures AllKept(f) <==> forall id :: 1 <= id < |keep| ==> keep[id]
  {}

  predicate RefersBefore(grid: seq<seq<Cell>>, n: nat, id: nat) {
    exists y :: 0 <= y < n && y < |grid| && RowRefers(grid[y], id)
  }

  predicate InsideBefore(grid: seq<seq<Cell>>, n: nat, count: nat) {
    forall y, x :: 0 <= y < n && y < |grid| && 0 <= x < |grid[y]| ==> grid[y][x].link <= count
  }
}
