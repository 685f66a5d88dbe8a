/** Dropping hyperlinks that no cell and no pen refers to any more. */
module Compaction {
  import opened Basics
  import opened Cells
  import opened Screen
  import opened Printer

  predicate RowRefers(row: seq<Cell>, id: nat) {
    exists x :: 0 <= x < |row| && row[x].link == id
  }

  predicate GridRefers(grid: seq<seq<Cell>>, id: nat) {
    exists y :: 0 <= y < |grid| && RowRefers(grid[y], id)
  }

  /** Link `id` is in use by the pen or by some cell. */
  predicate Refers(f: Frame, id: nat) {
    id != 0 && (f.links.active == id || GridRefers(f.grid, id))
  }

  function InUse(f: Frame): (keep: seq<bool>)
    ensures |keep| == |f.links.table| + 1
    ensures forall id :: 0 <= id < |keep| ==> keep[id] == Refers(f, id)
  {
    seq(|f.links.table| + 1, id requires id >= 0 => Refers(f, id))
  }

  /** The new table, and for every old number the new one. */
  datatype Compacted = Compacted(table: seq<Hyperlink>, remap: seq<nat>)

  /** The first `n` links, without those not kept and without repetitions. */
  function CompactTable(table: seq<Hyperlink>, keep: seq<bool>, n: nat): Compacted
    requires n <= |table| && |keep| == |table| + 1
  {
    if n == 0 then Compacted([], [0])
    else
      var c := CompactTable(table, keep, n - 1);
      if !keep[n] then c.(remap := c.remap + [0])
      else
        var k := Find(c.table, table[n - 1], 0);
        Compacted(if k < |c.table| then c.table else c.table + [table[n - 1]], c.remap + [k + 1])
  }

  function Remapped(id: nat, remap: seq<nat>): nat { if id < |remap| then remap[id] else 0 }

  function RemapRow(row: seq<Cell>, remap: seq<nat>): (r: seq<Cell>)
    ensures |r| == |row|
  {
    seq(|row|, x requires 0 <= x < |row| => row[x].(link := Remapped(row[x].link, remap)))
  }

  function RemapGrid(grid: seq<seq<Cell>>, remap: seq<nat>): (g: seq<seq<Cell>>)
    ensures |g| == |grid|
  {
    seq(|grid|, y requires 0 <= y < |grid| => RemapRow(grid[y], remap))
  }

  /** Some cell or the pen refers to a link that is not in the table. */
  predicate RefersOutside(f: Frame) {
    || f.links.active > |f.links.table|
    || exists y, x :: 0 <= y < |f.grid| && 0 <= x < |f.grid[y]| && f.grid[y][x].link > |f.links.table|
  }

  predicate AllKept(f: Frame) {
    forall id :: 1 <= id <= |f.links.table| ==> Refers(f, id)
  }

  predicate Identity(remap: seq<nat>) {
    forall id :: 0 <= id < |remap| ==> remap[id] == id
  }

  function Compact(f: Frame): Frame {
    if f.links.table == [] then f
    else if !RefersOutside(f) && AllKept(f) then f
    else
      var c := CompactTable(f.links.table, InUse(f), |f.links.table|);
      if |c.table| == |f.links.table| && Identity(c.remap) then f
      else f.(grid := RemapGrid(f.grid, c.remap), links := Links(c.table, Remapped(f.links.active, c.remap)))
  }

  // ------------------------------------------------------------------- what it keeps

  /** InUse links move, others map to none. */
  lemma {:induction false} TableKeeps(table: seq<Hyperlink>, keep: seq<bool>, n: nat)
    requires n <= |table| && |keep| == |table| + 1 && !keep[0]
    ensures var c := CompactTable(table, keep, n);
      && |c.remap| == n + 1 && |c.table| <= n
      && forall id :: 0 <= id <= n ==>
           if keep[id] then 0 < c.remap[id] <= |c.table| && c.table[c.remap[id] - 1] == table[id - 1]
           else c.remap[id] == 0
  {
    if n > 0 {
      TableKeeps(table, keep, n - 1);
    }
  }

  /** Entry `k` of the new table stands for some kept link among the first `n`. */
  predicate StandsFor(remap: seq<nat>, keep: seq<bool>, n: nat, k: nat) {
    exists id :: 0 <= id <= n && id < |keep| && id < |remap| && keep[id] && remap[id] == k + 1
  }

  lemma {:induction false} TableUsed(table: seq<Hyperlink>, keep: seq<bool>, n: nat, k: nat)
    requires n <= |table| && |keep| == |table| + 1 && !keep[0]
    requires k < |CompactTable(table, keep, n).table|
    ensures StandsFor(CompactTable(table, keep, n).remap, keep, n, k)
  {
    if n > 0 {
      var c0 := CompactTable(table, keep, n - 1);
      var c := CompactTable(table, keep, n);
      TableKeeps(table, keep, n - 1);
      if k < |c0.table| {
        TableUsed(table, keep, n - 1, k);
        var id :| 0 <= id <= n - 1 && keep[id] && id < |c0.remap| && c0.remap[id] == k + 1;
        assert c.remap[id] == k + 1;
      } else {
        assert c.remap[n] == k + 1;
      }
    }
  }

  lemma {:induction false} CellRefers(f: Frame, y: nat, x: nat)
    requires y < |f.grid| && x < |f.grid[y]| && f.grid[y][x].link != 0
    ensures Refers(f, f.grid[y][x].link)
  {
    assert RowRefers(f.grid[y], f.grid[y][x].link);
  }

  /** A reference that is in use resolves as before once it is remapped. */
  lemma {:induction false} RemappedResolves(f: Frame, id: nat)
    requires id != 0 ==> Refers(f, id)
    ensures var c := CompactTable(f.links.table, InUse(f), |f.links.table|);
            var n := Remapped(id, c.remap);
      && n <= |c.table|
      && Resolve(f.links, id) == if n == 0 then None else Some(c.table[n - 1])
  {
    hide GridRefers;
    assert !Refers(f, 0);
    hide Refers;
    TableKeeps(f.links.table, InUse(f), |f.links.table|);
  }

  lemma {:induction false} ActiveRefers(f: Frame)
    ensures f.links.active != 0 ==> Refers(f, f.links.active)
  {}

  /** A cell that looks and resolves as before. */
  predicate SameCell(l: Links, a: Cell, m: Links, b: Cell) {
    b == a.(link := b.link) && Resolve(m, b.link) == Resolve(l, a.link)
  }

  predicate SameRow(l: Links, a: seq<Cell>, m: Links, b: seq<Cell>) {
    |a| == |b| && forall x :: 0 <= x < |a| ==> SameCell(l, a[x], m, b[x])
  }

  lemma {:induction false} RemapRowSame(f: Frame, y: nat, m: Links)
    requires y < |f.grid|
    requires var c := CompactTable(f.links.table, InUse(f), |f.links.table|); m.table == c.table
    ensures var c := CompactTable(f.links.table, InUse(f), |f.links.table|);
      SameRow(f.links, f.grid[y], m, RemapRow(f.grid[y], c.remap))
  {
    hide Refers, CompactTable, InUse;
    var c := CompactTable(f.links.table, InUse(f), |f.links.table|);
    var row := f.grid[y];
    forall x | 0 <= x < |row|
      ensures SameCell(f.links, row[x], m, RemapRow(row, c.remap)[x])
    {
      if row[x].link != 0 {
        CellRefers(f, y, x);
      }
      RemappedResolves(f, row[x].link);
    }
  }

  /** Every cell and the pen resolve to the same link, or none, as before. */
  lemma {:induction false} CompactKeepsLinks(f: Frame)
    ensures var g := Compact(f);
      && g == f.(grid := g.grid, links := g.links) && |g.grid| == |f.grid|
      && ActiveLink(g) == ActiveLink(f)
      && forall y :: 0 <= y < |f.grid| ==> SameRow(f.links, f.grid[y], g.links, g.grid[y])
  {
    hide Refers, RefersOutside, AllKept, CompactTable, Identity, InUse, RemapRow;
    var g := Compact(f);
    ActiveRefers(f);
    RemappedResolves(f, f.links.active);
    forall y | 0 <= y < |f.grid|
      ensures SameRow(f.links, f.grid[y], g.links, g.grid[y])
    {
      if g != f {
        RemapRowSame(f, y, g.links);
      }
    }
  }

  // ------------------------------------------------------------- what it leaves behind

  lemma {:induction false} RemapRefers(f: Frame, g: Frame, remap: seq<nat>, id: nat, k: nat)
    requires g == f.(grid := RemapGrid(f.grid, remap), links := g.links) && g.links.active == Remapped(f.links.active, remap)
    requires Refers(f, id) && id < |remap| && remap[id] == k + 1
    ensures Refers(g, k + 1)
  {
    if f.links.active != id {
      var y :| 0 <= y < |f.grid| && RowRefers(f.grid[y], id);
      var x :| 0 <= x < |f.grid[y]| && f.grid[y][x].link == id;
      assert g.grid[y][x].link == k + 1;
      assert RowRefers(g.grid[y], k + 1);
    }
  }

  lemma {:induction false} RemapInside(f: Frame, g: Frame, remap: seq<nat>)
    requires g == f.(grid := RemapGrid(f.grid, remap), links := g.links) && g.links.active == Remapped(f.links.active, remap)
    requires forall id :: 0 <= id < |remap| ==> remap[id] <= |g.links.table|
    ensures !RefersOutside(g)
  {
    forall y, x | 0 <= y < |g.grid| && 0 <= x < |g.grid[y]|
      ensures g.grid[y][x].link <= |g.links.table|
    {
      assert g.grid[y][x].link == Remapped(f.grid[y][x].link, remap);
    }
  }

  lemma {:induction false} IdentityKeeps(f: Frame)
    requires Identity(CompactTable(f.links.table, InUse(f), |f.links.table|).remap)
    ensures AllKept(f)
  {
    assert !Refers(f, 0);
    TableKeeps(f.links.table, InUse(f), |f.links.table|);
    var remap := CompactTable(f.links.table, InUse(f), |f.links.table|).remap;
    forall id | 1 <= id <= |f.links.table|
      ensures Refers(f, id)
    {
      assert remap[id] == id;
    }
  }

  /** Afterwards every link in the table is in use. */
  lemma {:induction false} CompactLeavesUsed(f: Frame)
    ensures AllKept(Compact(f))
    ensures Compact(f) != f ==> !RefersOutside(Compact(f))
  {
    hide RefersOutside, CompactTable, InUse, RemapGrid, Identity;
    var g := Compact(f);
    var keep, n := InUse(f), |f.links.table|;
    var c := CompactTable(f.links.table, keep, n);
    assert !Refers(f, 0) && !keep[0];
    hide Refers;
    if f.links.table == [] || (!RefersOutside(f) && AllKept(f)) {
    } else if |c.table| == n && Identity(c.remap) {
      IdentityKeeps(f);
    } else {
      TableKeeps(f.links.table, keep, n);
      RemapInside(f, g, c.remap);
      forall id | 1 <= id <= |g.links.table|
        ensures Refers(g, id)
      {
        TableUsed(f.links.table, keep, n, id - 1);
        var was :| 0 <= was <= n && keep[was] && c.remap[was] == id;
        RemapRefers(f, g, c.remap, was, id - 1);
      }
    }
  }

  /** A second time there is nothing left to do. */
  lemma {:induction false} CompactTwice(f: Frame)
    ensures Compact(Compact(f)) == Compact(f)
  {
    hide RefersOutside, CompactTable, InUse, RemapGrid, Identity, AllKept;
    CompactLeavesUsed(f);
  }
}
