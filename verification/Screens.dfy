/** Whatever a host sends, the screen that is shown for it is printable, and what is written for
    it shows it exactly if no row of it wraps. */
module Screens {
  import opened Basics
  import opened Lexer
  import opened Cells
  import opened Screen
  import opened Printer
  import opened Reading
  import opened Painting
  import opened Meta
  import opened Repaint
  import opened Wrapping
  import opened Reachable
  import opened Glyphs
  import opened Host
  import Session

  lemma {:induction false} RowFitToPrint(t: Widths, l: Links, row: seq<Cell>)
    requires RowGlyphs(t, row) && TableOk(l)
    ensures RowPrintable(t, l, row)
  {
    hide GlyphOk, LinkOk, TableOk;
    forall x | 0 <= x < |row| && row[x].width != 0
      ensures GlyphOk(t, row[x]) && LinkOk(Resolve(l, row[x].link))
    {
      assert CellOk(t, row[x]);
      ResolvesOk(l, row[x].link);
    }
  }

  lemma {:induction false} FitToPrint(t: Widths, s: Screen)
    requires Shaped(s.frame) && SizeOk(s.frame) && MetaOk(s.frame) && GlyphsOk(t, s)
    ensures Printable(t, s.frame)
  {
    hide RowGlyphs, RowPrintable, TableOk, LinkOk, SwitchesOk, EffectsOk, MarginsOk;
    var f := s.frame;
    ResolvesOk(f.links, f.links.active);
    forall y | 0 <= y < f.rows
      ensures RowPrintable(t, f.links, f.grid[y])
    {
      RowFitToPrint(t, f.links, f.grid[y]);
    }
  }

  /** Host bytes on a blank screen: what they build is printable whatever they are. */
  lemma {:induction false} BytesBuildPrintable(t: Widths, cols: nat, rows: nat, data: seq<byte>)
    requires BlanksNarrow(t) && cols <= 0xFFFF && rows <= 0xFFFF
    ensures Printable(t, Feed(Executing(t), NewConsole(cols, rows), data).state.frame)
  {
    hide Feed, NewConsole, MetaOk, GlyphsOk, Printable, BlanksNarrow, Shaped;
    NewConsoleOk(t, cols, rows);
    FeedKeeps(t, NewConsole(cols, rows), data);
    FitToPrint(t, Feed(Executing(t), NewConsole(cols, rows), data).state);
  }

  /** The session after some steps, from a blank screen. */
  function After(t: Widths, fits: Limit, cols: nat, rows: nat, steps: seq<Session.Step>): Session.System<Console> {
    Session.Run(NewConsole(cols, rows), steps, HostInterpreter(t, fits))
  }

  function ShownFrame(sys: Session.System<Console>): Frame { sys.view.displayed.state.frame }

  predicate Alive(sys: Session.System<Console>) { Session.Fits(sys) && !sys.client.log.dead }

  lemma {:induction false} ShownIsPrintable(t: Widths, fits: Limit, cols: nat, rows: nat, steps: seq<Session.Step>)
    requires BlanksNarrow(t) && cols <= 0xFFFF && rows <= 0xFFFF && Alive(After(t, fits, cols, rows, steps))
    ensures Printable(t, ShownFrame(After(t, fits, cols, rows, steps)))
  {
    hide Session.Run, NewConsole, MetaOk, GlyphsOk, Printable, BlanksNarrow, Shaped;
    ShownScreenOk(t, fits, cols, rows, steps);
    FitToPrint(t, After(t, fits, cols, rows, steps).view.displayed.state);
  }

  lemma {:induction false} SpacesNarrow(t: Widths)
    ensures BlanksNarrow(t) ==> SpaceIsNarrow(t)
  {}

  /** In every run of client and server on two columns or more, what is written for the screen
      shown puts it on the terminal if and only if no row of it ends in a glyph that wraps. */
  lemma {:induction false} ShownIsPainted(t: Widths, fits: Limit, cols: nat, rows: nat, steps: seq<Session.Step>, s: Screen, prev: Option<Frame>)
    requires BlanksNarrow(t) && cols <= 0xFFFF && rows <= 0xFFFF && Alive(After(t, fits, cols, rows, steps))
    requires var f := ShownFrame(After(t, fits, cols, rows, steps));
      f.cols >= 2 && Paintable(t, s, f, prev)
    ensures var f := ShownFrame(After(t, fits, cols, rows, steps));
      (exists s' :: Takes(t, s, FrameDiff(f, prev), s') && Shows(s', f)) <==> OnLines(t, f)
  {
    hide *;
    SpacesNarrow(t);
    ShownIsPrintable(t, fits, cols, rows, steps);
    ShownExactly(t, s, ShownFrame(After(t, fits, cols, rows, steps)), prev);
  }
}
