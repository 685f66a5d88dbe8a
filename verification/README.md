# MoshCatty verification model

This project models the parts of MoshCatty, a Mosh client written in Rust, on which its
promises rest, and proves those promises for every input and every run.

- **State synchronization** (`Ssp`, `Transport`, `Input`, `Client`, `Terminal`, `Channel`,
  `Ledger`, `Ticks`, `Bases`, `Answers`, `Session`, `Delivery`, `Guarantees`, `Reaching`). Two endpoints exchange numbered states over a
  network that loses, repeats and reorders. `Transport.Endpoint` and `Client.Connection` are
  objects with the real queues, counters and logs; each of their methods refines a function of
  `Ssp` or `Input`. `Session` puts a client, its screen snapshots and a peer on either side of
  the growing set of everything ever sent; a step types, flushes, delivers any instruction ever
  sent, or lets the peer queue and send a screen change. Every timer outcome, every chaff and
  every failure to seal is an input, so the results hold for all of them.
- **Screen** (`Lexer`, `Sgr`, `Cells`, `Screen`, `Printer`, `Reading`, `Painting`, `Glass`,
  `Meta`, `Repaint`, `Wrapping`, `Orphan`, `Margin`, `Compaction`, `Reachable`, `Glyphs`,
  `Grammar`, `Styles`, `Commands`, `Paging`, `Frugal`, `Framebuffers`, `Display`). The interpreter of host bytes, command by command, and the printer
  of differences between two frames, byte by byte: split and whole wide glyphs, combining suffixes, hyperlinks, margins, modes and the pen included.
- **Host messages** (`Host`, `Interpreting`, `Screens`). Their codec, the concrete interpreter of numbered
  snapshots, and what painting the screen of a session comes to.
- **Prediction** (`Prediction`, `Guesses`, `Epochs`, `Typing`, `Insertion`, `Keystrokes`, `Batches`,
  `Verdicts`, `Overlays`, `Speculation`, `Pipeline`, `Showing`, `Timing`, `LocalEcho`, `Presenter`).
  Speculative local echo and the display pipeline that composes host frames, guesses and the
  notification bar.
- **Wire** (`Pb`, `Layout`, `Fragments`, `Ocb`, `Standard`, `Wire`, `Headers`). Hand-written protobuf, fragmentation, OCB3, and
  all of them together with the replay window of the receiver.

Loops and in-place updates of the source are methods with loops over arrays, sequences and
object fields; each `ensures` ties the new state to a function of the old one, and the lemmas
are about those functions. What each operation comes to is stated there in terms of the data alone,
without its functions: which state a tick sends (`Ticks`), what every command of the host does to
which cell (`Commands`), what every key is guessed to do (`Keystrokes`), what becomes of each guess
(`Verdicts`), what is on the screen after every event (`Showing`), and which bits a datagram has
(`Standard`, `Headers`, `Layout`). The width of a character is a table given as a parameter, the block
cipher a pair of inverse functions, and the compressor an inverse pair.

The paint theorem is about the *visible* columns of a frame: those with a glyph that no wide glyph
to the left covers, as the printer itself determines them (`Printer.VisibleAt`). A frame is
*printable* if every glyph is as wide as its cell, colours are in range, and titles, links and
modes are ones that the protocol can carry; `Reachable.RunKeepsMeta` and `Glyphs.RunKeepsGlyphs`
show that frames built from host bytes always are, given that the width table has one column for
the space and the no-break space. A row *wraps* if it ends in a visible glyph of width 2 that
terminals do not write in the last column but move to the next line, which they do with all wide
glyphs of the basic plane; a printable frame without such a row is *drawable*. A frame has *whole
glyphs* if wide cells and continuations come in pairs; then every cell is accounted for
(`Repaint.WholeShown`).

Results that are false of the code on some inputs are stated with their exact condition:

- `Wrapping.DiffShownExactly`, `RedrawShownExactly` and `GlassExactly`: on two columns or more, what
  is written for a printable frame shows it if and only if no row of it wraps. A terminal that
  wraps never holds such a glyph in its last column, whatever the printer sends: the first theorem
  asks that of the terminal it starts from, and the last proves it for whatever has followed the
  printer from the start. `Margin.WideAtMargin` pushes a wide glyph there with host bytes and splits
  on its plane. On one column the condition is enough but not needed: `Margin.OneColumn` is a screen
  of one cell where the wrapped glyph scrolls back into place.
- `Repaint.StaleColumn`: where a frame has a continuation without its glyph, nothing is written, and
  the terminal keeps the glyph it showed, unless half of that glyph is painted over, and then a
  blank. `Orphan.OrphanStays` builds such a frame from host bytes: deleting the first two columns of
  a row that shows a narrow and a wide glyph leaves the narrow glyph on the terminal.
- `Pb.UserInstructionRoundTrip` and `Host.HostRoundTrip`: the encoder drops a pair of sizes exactly
  if neither is positive, so the round trip fails if neither is positive and not both are zero; an
  echo number below -1 is dropped too.
- `Fragments.TooLongNever` and `Fragments.TooLongNeverOut`: a message above 4 MiB is never
  assembled.

## Model

| member | source | states |
|---|---|---|
| Transport.Endpoint.SetPendingFrom | src/transport.rs:210-237 | the new state gets the next number, the requested base if the peer may have it, and a queue of at most 32 by dropping the entry 16 from the end |
| Transport.Endpoint.ProspectiveBaseNum | src/transport.rs:239-252 | the last state of the recently sent prefix of the queue |
| Transport.Endpoint.ProspectiveChainExpired | src/transport.rs:254-265 | whether the newest state stands on a base that is no longer recent |
| Transport.Endpoint.ForceNextSend | src/transport.rs:202-204 | the next tick sends, whatever the timers say |
| Client.Connection.constructor | src/client.rs:226-254 | a new client has entered nothing and its first tick is to send |
| Transport.Endpoint.SetMaxFragmentPayload | src/transport.rs:322-328 | every queued state counts as unsent again |
| Transport.Endpoint.DropStaleUnsent | src/transport.rs:434-443 | of the never sent states only the newest stays |
| Transport.Endpoint.Tick | src/transport.rs:427-579 | one tick, in place; which state goes out, and what else changes, is `Ticks` |
| Ticks.CoalesceIs | src/transport.rs:434-443 | before a tick sends, the states never sent but for the newest leave the queue, and no others |
| Ticks.NewGoesOut | src/transport.rs:444-563 | a state never sent goes out with its number, base and diff, the newest one, as soon as pacing, an immediate send, an acknowledgement due or a forced send allows |
| Ticks.OverdueGoesOut | src/transport.rs:444-563 | otherwise the newest overdue state goes out again |
| Ticks.EmptyGoesOut | src/transport.rs:444-563 | with none to send, an acknowledgement, a heartbeat or a forced send is an empty state on the newest one |
| Ticks.NothingGoesOut | src/transport.rs:427-500 | in all remaining cases nothing goes out |
| Ticks.FirstGoesOut | src/transport.rs:146-200 | the first state of a new endpoint, of either side, goes out with its first tick whatever the timers say |
| Ticks.OnlyClientsPace | src/transport.rs:444-452 | with all timers quiet a new state waits on a client and goes out on a server |
| Transport.Endpoint.ProcessRoundtripAck | src/transport.rs:403-415 | older sending times are forgotten if the acknowledged one is known |
| Transport.Endpoint.ProcessAck | src/transport.rs:665-690 | the acknowledged base moves forward, acknowledged states go, and after an overflow those on an older base too |
| Transport.Endpoint.Accept | src/transport.rs:692-746 | duplicates, missing bases and quenched states are refused; otherwise the window, watermark and acknowledgement advance |
| Transport.Endpoint.Receive | src/transport.rs:656-746 | one whole instruction on both halves of the endpoint, after the version check |
| Answers.AckAnswered | src/transport.rs:665-690 | exactly which acknowledgements count, which queued states they remove, and when the input of lost ones is to be queued anew |
| Answers.StateAnswered | src/transport.rs:692-746 | exactly which states are taken, and what window, watermark, acknowledgement and delivered diff become |
| Answers.InstructionAnswered | src/transport.rs:656-746 | another protocol version changes nothing; any other instruction is answered on each half by itself |
| Client.Connection.SendKeys | src/client.rs:257-263 | keys are appended to the log, unless there are none or the client is dead |
| Client.Connection.Resize | src/client.rs:265-272 | a resize is appended to the log of a live client |
| Client.Connection.ProcessAcks | src/client.rs:602-635 | acknowledged actions are drained and the counts of later states shifted |
| Client.Connection.ChooseBase | src/client.rs:533-557 | the base the next diff is built on, and the diff: all actions after that base |
| Client.Connection.FlushTicks | src/client.rs:525-598 | acknowledgements, then new input, then the timers, in that order |
| Bases.RecentIsBase | src/client.rs:533-557 | a state sent recently is the base if the diff from it is shorter by enough, and the diff is what follows it |
| Bases.AckedIsBase | src/client.rs:533-557 | in all other cases the acknowledged state is, and the diff is everything not acknowledged |
| Bases.QueuesOne | src/client.rs:529-561 | new input becomes one new state at the end of the queue |
| Bases.QueueDrops | src/transport.rs:210-237 | a queue of 33 loses its entry 16 from the end, and no other |
| Bases.NotesSent | src/transport.rs:388-401 | of 33 numbers noted as sent the one 16 from the end goes, and no other |
| Bases.LapsedRebases | src/client.rs:602-611 | when a base was lost, or a chain of states has expired, all input is queued again on the acknowledged state |
| Answers.FlushEnds | src/client.rs:563-598 | how a flush ends: a state too large or an exhausted cipher ends the client, a datagram too long makes every state unsent again |
| Terminal.TerminalView.Apply | src/terminal.rs:185-242 | snapshots are cloned from their base, pruned, and shown only if their number is the largest so far |
| Channel.SetPendingKeeps | src/transport.rs:210-237 | queueing keeps numbers rising, bases older than states, one base and diff per number, and the watermark promise |
| Channel.TickKeeps | src/transport.rs:427-579 | so does every tick, including the instruction it puts on the wire |
| Channel.ApplyAckKeeps | src/transport.rs:667-690 | so does every acknowledgement, true or stale |
| Channel.DeliverKeeps | src/transport.rs:692-746 | delivering any instruction ever sent keeps both ends linked: the retained numbers are the accepted ones above the watermark, and the acknowledged state is among them |
| Ledger.MaxCountExact | src/client.rs:614-624 | the largest recorded count up to the acknowledged state is exactly what that state denotes |
| Ledger.AcknowledgeKeeps | src/client.rs:612-634 | draining removes what the acknowledged state denotes and nothing else |
| Ledger.ChosenBase | src/client.rs:533-557 | the chosen base is acknowledged or queued, and the payload is exactly the rest of the log after it |
| Ledger.TickSettled | src/client.rs:565-566 | a tick after queueing leaves the newest state standing for the whole log, also when it sends an empty state |
| Delivery.RebuildKeeps | src/pb.rs:213-228 | an accepted diff turns the base's prefix of the log into the new state's |
| Delivery.RunInv | src/client.rs:525-635 | the session invariant holds in every reachable state of client, peer and network |
| Guarantees.InputAgreement | src/client.rs:525-561 | each state the peer accepts rebuilds a prefix of what was typed, later states rebuild longer ones, and what was drained is what the acknowledged state rebuilds |
| Guarantees.NoStrandedInput | src/client.rs:529-561 | after every flush of a live client the newest queued state rebuilds everything typed, or all of it is acknowledged; the queue is at most 32 long, rising, and in range |
| Guarantees.BaseNeverSubstituted | src/transport.rs:214-223 | the fallback that replaces an unknown base is never taken for the client |
| Guarantees.BaseSafety | src/transport.rs:525-534 | no watermark ever advertised exceeds the base of a queued state, and the acknowledged state is still held by the peer, in both directions |
| Guarantees.RebasedIsTaken | src/transport.rs:694-722 | a state built on the acknowledged one is refused only as a duplicate or under quench |
| Guarantees.Lockstep | src/terminal.rs:192-233 | the transport's numbers are always among the view's snapshots, equal after each accepted diff, and the unavailable-base error cannot occur |
| Guarantees.ShowsLargest | src/terminal.rs:227-241 | the screen shown is the snapshot of the largest accepted number, as the peer's history defines it |
| Guarantees.BranchConfluence | src/terminal.rs:185-242 | two runs, whatever each lost or reordered, hold the same snapshot under the same number |
| Guarantees.NeverBack | src/terminal.rs:227-234 | neither the screen nor the echo acknowledgement nor the acknowledged base ever goes back |
| Guarantees.LogIsEntered | src/client.rs:257-273 | the log is what the user entered, in order, until the client dies |
| Reaching.DeliveredRebuilds | src/client.rs:525-598 | from every reachable state, a state delivered to a peer that holds its base and does not quench is rebuilt there |
| Reaching.SentIsWhole | src/client.rs:525-598 | if a flush sends the newest state and that is so delivered, the peer has rebuilt everything ever entered |
| Reaching.TypedIsSent | src/client.rs:525-598 | the first flush after typing sends the new state, if its timer allows and it can be sealed |
| Reaching.TypedReaches | src/client.rs:525-598 | typing, one flush and one delivery leave the peer with everything entered, the new keys last |
| Pb.AppendVarint | src/pb.rs:355-361 | the base-128 form of a number |
| Pb.ScanVarint | src/pb.rs:378-390 | the decoder's loop, with its ten-byte limit |
| Pb.VarintRoundTrip | src/pb.rs:355-390 | every 64-bit number is read back, whatever follows it |
| Pb.DecodeInstruction | src/pb.rs:60-108 | the field loop of the transport decoder |
| Pb.InstructionRoundTrip | src/pb.rs:42-108 | decoding an encoded transport instruction gives it back |
| Pb.EncodeUserMessage | src/pb.rs:146-152 | the encoder's loop over actions |
| Pb.DecodeUserMessage | src/pb.rs:213-228 | the decoder's loop over entries |
| Pb.UserInstructionRoundTrip | src/pb.rs:127-210 | an action is read back exactly if one of its sizes is positive or both are zero |
| Pb.EncodeMessageConcat | src/pb.rs:146-152 | encoding distributes over concatenation of action lists |
| Pb.UserMessageRoundTrip | src/pb.rs:146-228 | decoding recovers the exact list of actions |
| Layout.VarintIs | src/pb.rs:355-361 | seven bits an octet, the lowest first, the high bit on all but the last, in the one shortest form |
| Layout.InstructionOctets | src/pb.rs:42-58 | every octet of a transport instruction, its seven keys and their order |
| Layout.ActionOctets | src/pb.rs:127-144 | every octet of an action, with the keys of its parts |
| Layout.ActionsOctets | src/pb.rs:146-152 | a message is its actions in order, each under key 0A with its length |
| Layout.HostOctets | src/pb.rs:329-352 | every octet of a host instruction, with the keys of its parts |
| Layout.HostsOctets | src/pb.rs:329-352 | a host message is its instructions in order, each under key 0A with its length |
| Layout.RecordRead | src/pb.rs:60-108 | a transport record of any fields in any order is read: of each known field its last value, unknown ones passed over |
| Layout.ActionRead | src/pb.rs:154-210 | an action of any parts in any order is read: pieces of keys are joined, of sizes the last counts |
| Layout.HostRead | src/pb.rs:232-308 | a host instruction of any parts in any order is read: of output, sizes and echo numbers the last counts |
| Host.EncodeHostMessage | src/pb.rs:329-352 | the encoder's loop over host instructions |
| Host.DecodeHostMessage | src/pb.rs:311-326 | the decoder's loop over host entries |
| Host.HostRoundTrip | src/pb.rs:232-352 | a host instruction is read back exactly under the stated condition on sizes and echo number |
| Host.HostMessageRoundTrip | src/pb.rs:311-352 | a host message decodes to its instructions |
| Host.InterpretKeeps | src/terminal.rs:48-87 | interpreting any bytes keeps a snapshot's screen in shape and fit to print, and its echo number from falling |
| Interpreting.EchoIsLargest | src/terminal.rs:70-76 | the echo number becomes the largest of the base's and all received |
| Interpreting.ResizedIs | src/framebuffer.rs:287-333 | a new size keeps what fits in place, cell by cell, and nothing pending |
| Interpreting.DiffObeyed | src/terminal.rs:48-87 | a diff is refused exactly if it is malformed or a size is over the limit; otherwise its instructions are obeyed in order, unused links go, and a screen that scrolled or changed its size is marked with the number of the state |
| Host.BytesMayBeCut | src/terminal.rs:77-83 | cutting host bytes into two instructions anywhere does not change the screen |
| Host.ShownScreenOk | src/terminal.rs:185-242 | in every run of client and peer the screen shown is in shape and fit to be printed, glyph by glyph |
| Lexer.LexStable | src/ansi_apply.rs:235-376 | a recognised command stays the same however the bytes go on |
| Lexer.FeedConcat | src/ansi_apply.rs:46-185 | feeding two strings one after the other equals feeding their concatenation, carry included |
| Lexer.AnySplit | src/ansi_apply.rs:46-185 | so does feeding any number of pieces, cut anywhere |
| Lexer.AnySplitAfter | src/ansi_apply.rs:46-185 | also when they follow a feed that left a carry, since every carry waits for more |
| Lexer.EncodeCharRenders | src/ansi_apply.rs:235-257 | every printable character survives UTF-8 encoding and decoding |
| Grammar.CommandRead | src/ansi_apply.rs:235-376 | the bytes of every kind of command are read as that command, whatever follows |
| Grammar.EveryByteRead | src/ansi_apply.rs:235-376 | exactly the unfinished commands wait; bytes that begin no command are replaced, one at a time |
| Screen.RunKeepsShape | src/ansi_apply.rs:46-747 | whatever bytes arrive, the screen stays a rectangle with cursor and margins inside |
| Reachable.RunKeepsMeta | src/ansi_apply.rs:671-727 | whatever bytes arrive, links, titles, mouse modes and margins stay ones that can be printed |
| Reachable.RunKeepsSize | src/ansi_apply.rs:46-747 | host bytes never change the size |
| Glyphs.RunKeepsGlyphs | src/ansi_apply.rs:46-815 | whatever bytes arrive, every glyph is as wide as its cell, with colours in range and a suffix of zero-width characters within the grapheme limit |
| Glyphs.AppendOk | src/framebuffer.rs:179-192 | appending a combining character keeps a cell printable within the grapheme limit |
| Glyphs.PutOk | src/framebuffer.rs:547-609 | writing a glyph, clearing and uncovering the halves it splits, leaves only printable cells |
| Screens.BytesBuildPrintable | src/ansi_apply.rs:46-815 | whatever bytes a blank screen takes, the frame is printable |
| Screens.ShownIsPainted | src/terminal.rs:185-242 | in every run of client and peer, on two columns or more, what is written for the screen shown puts it on the terminal exactly if no row of it ends in a glyph that wraps |
| Reachable.ResolvesOk | src/framebuffer.rs:736-739 | then whatever number a cell holds resolves to a link fit to print, or to none |
| Cells.PutKeepsPairs | src/framebuffer.rs:547-609 | writing a glyph over any part of wide glyphs leaves no half of one |
| Cells.PutChangesOnly | src/framebuffer.rs:547-609 | only what is written and the halves of split glyphs change |
| Cells.EraseKeepsPairs | src/framebuffer.rs:399-436 | erasing any range leaves no half of a wide glyph |
| Sgr.ParamsRoundTrip | src/ansi_apply.rs:378-403 | printed parameters are parsed back |
| Sgr.ApplySgrInPlace | src/ansi_apply.rs:749-815 | the loop over the numbers of an SGR sequence |
| Styles.LastCodeCounts | src/ansi_apply.rs:749-815 | after any list of codes each attribute is as the last code that speaks of it says |
| Styles.LoneColor | src/ansi_apply.rs:790-811 | 38 and 48 without a whole colour after them are passed over alone |
| Styles.ParametersParse | src/ansi_apply.rs:378-403 | parameters are the fields between semicolons, a field that is no number of 32 bits being zero |
| Sgr.DiffReaches | src/framebuffer.rs:1173-1249 | the numbers printed for a change of attributes lead from the old to the new ones, and are never none |
| Sgr.SgrRoundTrip | src/framebuffer.rs:1173-1291 | the bytes printed for a change of attributes are one command that makes exactly that change |
| Display.AppendAttrDiff | src/framebuffer.rs:1173-1249 | the appending printer produces those bytes |
| Printer.VisibleTidy | src/framebuffer.rs:934-947 | on a well-formed row the visible columns are those that are no continuation |
| Printer.VisibleAt | src/framebuffer.rs:929-947 | on any row a column is visible exactly if it is no continuation and no visible wide glyph covers it |
| Display.VisibleCellStarts | src/framebuffer.rs:934-947 | the walk over a row that marks its visible columns |
| Display.RowDisplayChangeSpan | src/framebuffer.rs:949-977 | the first and last changed visible column |
| Display.PaintSpan | src/framebuffer.rs:851-870 | the loop that prints a span |
| Display.DiffSameSize | src/framebuffer.rs:822-899 | the whole printer of differences |
| Display.FullRedraw | src/framebuffer.rs:752-820 | the whole printer of full redraws |
| Display.ScanCsi | src/ansi_apply.rs:269-297 | the scan of a control sequence to its final byte |
| Display.ScanOsc | src/ansi_apply.rs:298-313 | the scan of an operating system command to either terminator |
| Display.NextItem | src/ansi_apply.rs:259-376 | the next command, or the need for more bytes |
| Display.AnsiPen.ApplyAnsi | src/ansi_apply.rs:46-185 | the interpreter's index loop, with its carry; what each command does is `Commands` |
| Commands.LineFeed | src/ansi_apply.rs:196-219 | down one row; at the bottom margin each row of the region takes the one below it, a blank one comes in, and the rows outside stay |
| Commands.Index | src/ansi_apply.rs:327-336 | IND and NEL do the same, NEL from the first column |
| Commands.ReverseIndexed | src/ansi_apply.rs:314-326 | RI goes up one row; at the top margin each row of the region takes the one above it |
| Commands.LinesMoved | src/ansi_apply.rs:651-669 | IL and DL move the rows from the cursor to the bottom margin, row by row |
| Commands.Addressed | src/ansi_apply.rs:409-496 | where CUP, VPA and CHA put the cursor |
| Commands.SteppedRows | src/ansi_apply.rs:425-442 | where CUU and CUD do, within the limits of origin mode |
| Commands.SteppedColumns | src/ansi_apply.rs:443-454 | where CUF and CUB do |
| Commands.Tabbed | src/framebuffer.rs:373-392 | CHT and CBT go through that many tab stops |
| Commands.ControlMoves | src/ansi_apply.rs:69-104 | carriage return, backspace and tab |
| Commands.LineErased | src/ansi_apply.rs:517-541 | which cells EL and ECH blank in each mode, halves of wide glyphs included |
| Commands.DisplayErased | src/ansi_apply.rs:497-516 | which cells ED blanks in each mode |
| Commands.CellsShifted | src/ansi_apply.rs:612-649 | where ICH and DCH move each cell |
| Commands.MarginsSet | src/ansi_apply.rs:569-587 | which margins are taken, and the cursor goes home |
| Commands.PrivateModesSet | src/ansi_apply.rs:671-701 | what each private mode changes |
| Commands.SavedIsRestored | src/ansi_apply.rs:344-366 | what DECSC saves DECRC brings back, whatever happened in between |
| Commands.GlyphPlaced | src/ansi_apply.rs:120-192 | a printed glyph is put at the cursor, which moves past it or waits in the last column |
| Commands.PutIs | src/framebuffer.rs:547-609 | every cell of the row a glyph is put into, with the backgrounds of the halves it splits |
| Commands.WrapIsNewLine | src/ansi_apply.rs:120-192 | a pending wrap is a new line before the glyph |
| Commands.WideStartsLine | src/ansi_apply.rs:120-192 | a wide glyph that does not fit blanks the last column and starts the next line |
| Commands.InsertModeShifts | src/ansi_apply.rs:120-192 | in insert mode the cells from the cursor on move over first |
| Commands.LinkSelected | src/framebuffer.rs:649-667 | OSC 8 ends the link or selects it, the first entry of the table that is the same, and a new one only if none is |
| Commands.EffectsSet | src/ansi_apply.rs:703-727 | icon name, title and clipboard |
| Commands.OthersIgnored | src/ansi_apply.rs:46-747 | every other command leaves the screen as it is |
| Commands.WidthsAre | src/framebuffer.rs:20-38 | the marks that take one column and the filler that takes two whatever the table says; two are the most |
| Commands.Combines | src/framebuffer.rs:613-647 | what a combining character joins, up to 32 bytes |
| Paging.LastLinesShown | src/ansi_apply.rs:46-219 | any number of lines fed to a blank screen of any size leave the last of them on it, in order |
| Reading.TakesLink | src/framebuffer.rs:1117-1135 | a printed hyperlink is interpreted as that link |
| Reading.TakesCup | src/framebuffer.rs:1164-1171 | a printed cursor address moves the cursor there |
| Painting.TakesCell | src/framebuffer.rs:1137-1143 | a printed cell is stored as it is, suffix and all, where the cursor is |
| Painting.RowStep | src/framebuffer.rs:851-870 | on a row of any kind, each printed glyph paints its one or two columns, and beyond them only blanks the other half of a glyph it splits |
| Painting.TakesSpan | src/framebuffer.rs:851-870 | printing a span paints its visible glyphs and spares the rest |
| Printer.ContinuationsHidden | src/framebuffer.rs:934-947 | on any row a continuation is never printed, with or without an owner |
| Glass.TakesRow | src/framebuffer.rs:949-977 | after the span every visible column is shown, and columns without a glyph keep what they had, or a blank for half a glyph |
| Meta.TakesMetadata | src/framebuffer.rs:992-1096 | titles, modes and margins printed are taken on |
| Repaint.DiffShows | src/framebuffer.rs:822-899 | a terminal that shows the old frame shows the new one after the diff: visible cells, cursor, visibility, margins, modes, link and a plain pen |
| Frugal.RowPrinted | src/framebuffer.rs:949-977 | a row is painted exactly if a visible glyph on it is new |
| Frugal.NothingToPrint | src/framebuffer.rs:822-899 | the difference of two frames is empty exactly if all that can be seen, rung, named, copied or switched stands already; a title taken away is not printed |
| Frugal.AddressedBetween | src/framebuffer.rs:851-870 | between two glyphs of a span the cursor is addressed exactly after a wide one that joins nothing, or over columns left out |
| Frugal.ResetFirst | src/framebuffer.rs:1173-1249 | the codes for a change of the pen start with a reset exactly if something is taken away |
| Frugal.InkEndIs | src/framebuffer.rs:766-790 | a redrawn row is printed up to its last visible cell that is not a plain blank |
| Frugal.SameFrame | src/framebuffer.rs:743-750 | a frame that is shown already takes no bytes |
| Repaint.WholeShown | src/framebuffer.rs:822-899 | a frame of whole glyphs is then shown cell by cell, continuations included |
| Repaint.StaleColumn | src/framebuffer.rs:929-977 | what the terminal keeps under a continuation without its glyph: the old glyph, or a blank if half of it is painted over |
| Wrapping.PrintWraps | src/ansi_apply.rs:120-192 | printing a character never leaves a wide glyph that wraps in the last of two or more columns |
| Wrapping.HarmlessDiff | src/framebuffer.rs:822-899 | nor does any byte string that the printer writes for a difference, whatever the terminal holds |
| Wrapping.DiffShownExactly | src/framebuffer.rs:822-977 | the difference shows a printable frame of two columns or more if and only if no row of it ends in a glyph that wraps |
| Wrapping.RedrawShownExactly | src/framebuffer.rs:752-820 | so does a full redraw, on any terminal of the size |
| Wrapping.GlassExactly | src/framebuffer.rs:743-750 | so does the last of any number of diffs, delivered in any pieces |
| Margin.WideAtMargin | src/ansi_apply.rs:542-546 | inserting columns on a screen built from host bytes pushes a wide glyph into the last column, and the diff shows it exactly if it is of a supplementary plane |
| Margin.OneColumn | src/ansi_apply.rs:137-160 | on a screen of one cell a wide glyph wraps, scrolls and stands where it was to be |
| Orphan.OrphanStays | src/ansi_apply.rs:547-551 | deleting across a wide glyph on a screen built from host bytes leaves a continuation without its glyph, and the terminal shows the new frame and still the deleted narrow glyph |
| Orphan.SameDiff | src/framebuffer.rs:934-977 | the printer writes the same bytes for that frame as for the one with the narrow glyph still in place |
| Repaint.RedrawShows | src/framebuffer.rs:752-820 | any terminal of the size shows the frame after a full redraw, with blanks where it has no glyph |
| Repaint.GlassFollows | src/framebuffer.rs:743-750 | after any number of diffs, delivered in any pieces, the terminal shows the last frame |
| Compaction.CompactKeepsLinks | src/framebuffer.rs:672-734 | every cell and the pen resolve to the same link, or none, as before |
| Compaction.CompactLeavesUsed | src/framebuffer.rs:672-734 | afterwards every link in the table is in use |
| Compaction.CompactTwice | src/framebuffer.rs:672-734 | a second call changes nothing |
| Framebuffers.PlaceIsPutAt | src/ansi_apply.rs:162-178 | the interpreter's printing step is that placement, then the cursor's advance |
| Framebuffers.Framebuffer.PutRune | src/framebuffer.rs:547-609 | placing a rune cell by cell, in place |
| Framebuffers.Framebuffer.EraseRowRange | src/framebuffer.rs:399-436 | erasing a range cell by cell, in place |
| Framebuffers.Framebuffer.SetActiveHyperlink | src/framebuffer.rs:649-667 | interning a link |
| Framebuffers.Framebuffer.CompactHyperlinks | src/framebuffer.rs:672-734 | marking, renumbering and rewriting the rows in place |
| Guesses.SortIs | src/prediction.rs:745-747 | sorting keeps the guesses and, one per cell, puts them in strict order |
| Guesses.KillKeeps | src/prediction.rs:689-705 | killing a failed epoch keeps order, liveness and rising cursor epochs |
| Guesses.AlwaysShaped | src/prediction.rs:285-1025 | in every reachable state there is at most one guess per cell, in order, activity means something is guessed, epochs are bounded, and nothing is guessed while an erasure is awaited |
| Guesses.SilentOverlay | src/prediction.rs:1029-1032 | while an erasure is awaited the overlay is the identity |
| Guesses.EraseStarts | src/prediction.rs:305-318 | exactly input that erases starts the wait |
| Guesses.EraseEnds | src/prediction.rs:722-730 | only a host update with an echo of every swallowed input ends it |
| Epochs.OnlyCredits | src/prediction.rs:902-1025 | the confirmed epoch rises only to the epoch of a known, non-blank, new and echoed guess that the host matched |
| Epochs.ResetHides | src/prediction.rs:710-718 | after a reset nothing typed is overlaid until the host confirms an epoch opened after it |
| Epochs.KillHides | src/prediction.rs:689-705 | after a failed epoch only older guesses, older cursors and the host's own position can be shown until such a confirmation |
| Epochs.NothingAtFirst | src/prediction.rs:131-162 | nothing typed is overlaid before the host confirms the first epoch |
| Typing.StepSound | src/prediction.rs:597-673 | guesses stay printable, and unknown only in the last column |
| Insertion.OverlayIs | src/prediction.rs:1029-1092 | what the overlay puts on a cell |
| Insertion.TypingInserts | src/prediction.rs:597-673 | typing text on a confirmed, shown band inserts it into the displayed row, the last column left to the host |
| Speculation.Speculator.PredictInsert | src/prediction.rs:597-673 | the dense row shifted from the right, in place |
| Speculation.Speculator.PredictNewLine | src/prediction.rs:436-477 | the next row, or a bottom row guessed blank |
| Speculation.Speculator.Keys | src/prediction.rs:285-362 | one batch of keystrokes, unfinished keys kept |
| Keystrokes.LeftMoves | src/prediction.rs:566-582 | left moves the guessed cursor one column unless it is in the first, and notes it for its epoch |
| Keystrokes.RightMoves | src/prediction.rs:570-594 | right moves it one column up to the last |
| Keystrokes.NewLineReturns | src/prediction.rs:436-477 | a return goes to the start of the next row, or guesses every cell of the bottom row blank |
| Keystrokes.InsertRowShifted | src/prediction.rs:597-673 | the exact guesses of a row after a character: those behind it moved a column, the last one unknown, with what each cell was known to hold |
| Keystrokes.TypeIsTyped | src/prediction.rs:364-434 | a character inserted, in overwrite mode, and in the last column with its two later epochs |
| Keystrokes.PressIsPressed | src/prediction.rs:285-434 | what every key does, controls, wide and unknown ones included |
| Batches.KeyRead | src/prediction.rs:479-564 | which bytes are which key, whatever follows |
| Batches.WaitsExactly | src/prediction.rs:479-564 | exactly an unfinished key waits for more input |
| Batches.ReadPresses | src/prediction.rs:285-362 | a read presses its keys in turn and keeps an unfinished one |
| Batches.ReadForgets | src/prediction.rs:285-328 | which reads are not predicted, and what they forget |
| Speculation.Speculator.Kill | src/prediction.rs:689-705 | guesses and cursors of the failed epoch and later go, the host's cursor is recorded |
| Speculation.Speculator.CullCursors | src/prediction.rs:782-809 | cursors the host has caught up with go; a disagreement resets |
| Speculation.Speculator.ConfirmAgainst | src/prediction.rs:902-1025 | the walk that judges every guess by the host's cell, in place; its outcome is `Verdicts` |
| Verdicts.ConfirmIs | src/prediction.rs:902-1025 | the whole outcome: the walk goes to the first guess that fails; one of an unconfirmed epoch kills that epoch, any other everything, and with none failing the echoed guesses are retired and the cursors culled |
| Verdicts.EchoedGoes | src/prediction.rs:902-1025 | with all epochs confirmed an echoed guess never stays, and if the host contradicts one nothing stays and the cursor is the host's |
| Verdicts.ExperimentalRetires | src/prediction.rs:902-1025 | in experimental mode a wrong guess is retired alone |
| Verdicts.UnframedWaits | src/prediction.rs:985-987 | without frame numbers the walk waits at a blank cell |
| Verdicts.NothingToConfirm | src/prediction.rs:902-915 | with no guess only the cursors are looked at |
| Speculation.Speculator.OverlayOnto | src/prediction.rs:1029-1092 | laying the shown guesses over a framebuffer in place |
| Overlays.OverlayIsOverlaid | src/prediction.rs:1029-1092 | every cell of the overlaid frame: the guess of a confirmed epoch with its attributes and underline, or the host's cell, and the cursor of the last confirmed epoch |
| Presenter.DisplayPipeline.HostFrameArrived | src/prediction.rs:1485-1508 | a host frame, in place: guesses are judged and a difference is printed; `Showing.EventShows` says what is then on the screen |
| Presenter.DisplayPipeline.KeysPressed | src/prediction.rs:1512-1531 | local keystrokes, in place: guesses are made and, while they are shown, a difference is printed; `Showing.EventShows` and `LocalEcho.TypedOnGlass` say what is then on the screen |
| Presenter.DisplayPipeline.FramesReported | src/prediction.rs:1312-1348 | an echo without a frame, in place, may settle guesses; `Showing.EventShows` says when that is printed and what is then on the screen |
| Presenter.DisplayPipeline.RoundTrip | src/prediction.rs:1382-1415 | a round-trip time, in place; `Timing.RoundTripMoves` says when showing and underlining start and end, `Showing.EventShows` what is then on the screen |
| Presenter.DisplayPipeline.Tick | src/prediction.rs:1417-1436 | a tick, in place; `Timing.WaitingShows` says when a long wait shows and underlines guesses, `Showing.EventShows` what is then on the screen |
| Presenter.DisplayPipeline.SetNotification | src/prediction.rs:1287-1305 | a notice, in place; `Showing.EventShows` and `Showing.NoticeBars` say what is then on the screen |
| Showing.EventShows | src/prediction.rs:1287-1551 | after every event that writes: the host's frame, with guesses shown the overlaid one, and with a notice that under the bar; an event that writes nothing leaves what was shown |
| Showing.ShownIsPresented | src/prediction.rs:1287-1551 | the same at the end of every session from the start |
| Showing.EventDiffers | src/prediction.rs:1287-1551 | whatever is written is the difference to what was shown last, or to the blank first frame where an event only adds to it |
| Showing.NoticeBars | src/prediction.rs:1565-1606 | a notice takes the top row, letter by letter on a bar, and hides a cursor there |
| Timing.EventPredicts | src/prediction.rs:1308-1531 | what each event makes of the predictor, and what it passes to it |
| Timing.UpdatesNoted | src/prediction.rs:1485-1497 | an echo counts as the host's only if a frame that looks different came since the last one |
| Timing.RoundTripMoves | src/prediction.rs:198-243 | at which round-trip times guesses are shown, hidden, underlined and not, under each preference |
| Timing.WaitingShows | src/prediction.rs:837-851 | after which wait they are shown or underlined anyway |
| Timing.IdleFollows | src/prediction.rs:734-743 | only an idle predictor follows the host's cursor, and another row opens a later epoch |
| Timing.FramesRise | src/prediction.rs:174-186 | frame numbers and echoes only rise |
| LocalEcho.TypedOnGlass | src/prediction.rs:1512-1545 | after typing text on a confirmed, shown band the row on the terminal is the old row with the text inserted |
| LocalEcho.EchoOnGlass | src/prediction.rs:1287-1551 | the same after any session from the start, however its bytes were cut |
| Pipeline.GlassAgreement | src/prediction.rs:1287-1551 | over a whole session at a fixed size with single-column cells, all bytes written show exactly what was last shown |
| Pipeline.HostIsReceived | src/prediction.rs:1485-1497 | guesses never enter the host's frame |
| Fragments.FragmentRoundTrip | src/fragment.rs:31-55 | a datagram decodes to a fragment exactly if it is that fragment's encoding |
| Headers.FragmentOctets | src/fragment.rs:31-41 | every octet of a fragment: eight of the message's number, two of the place with the top bit on the last, and the payload |
| Fragments.FragmentizeWithPayload | src/fragment.rs:63-90 | the cutting loop, and nothing if there would be more than 0x8000 pieces |
| Fragments.PiecesJoin | src/fragment.rs:63-90 | the pieces put together are the message |
| Fragments.Assembler.AddFragment | src/fragment.rs:107-153 | the assembler's slots, sizes and output, in place |
| Fragments.AddCompletes | src/fragment.rs:107-153 | a message of at most 4 MiB is complete exactly when its last missing piece arrives |
| Fragments.TooLongNever | src/fragment.rs:120-130 | no fragment of a longer one completes it, and none leaves more than 4 MiB stored |
| Fragments.TooLongNeverOut | src/fragment.rs:107-153 | however its fragments arrive, a message of more than 4 MiB never comes out |
| Fragments.OnlyWholeMessages | src/fragment.rs:107-153 | fragments of any messages in any order: all that comes out are whole messages that were sent, of at most 4 MiB |
| Fragments.CompletesOnLast | src/fragment.rs:107-153 | in any order and with repetitions the message comes out once, when the last missing piece arrives |
| Fragments.WireRoundTrip | src/transport.rs:549-564 | on the level of fragments, an instruction survives encoding, compression, cutting, reordering, repetition, reassembly and decoding |
| Wire.SealedArrives | src/transport.rs:593-654 | a sealed fragment reaches the assembler as it was, unless its number is in the replay window |
| Headers.PacketOctets | src/transport.rs:763-800 | every octet of a packet: direction bit and sequence number in the clear, and sealed under them the timestamps and the fragment, bit by bit |
| Headers.PacketDropped | src/transport.rs:593-635 | a packet too short, from this end, seen before, not sealed with the key or without timestamps changes nothing |
| Headers.PacketTaken | src/transport.rs:606-654 | any other is remembered, and the fragment in it, if it is one, is added |
| Headers.RememberedFor | src/transport.rs:749-761 | a number is remembered until 512 new ones have come |
| Wire.DeliverStands | src/transport.rs:593-761 | whatever datagrams of any messages arrive, interleaved, repeated, replayed, or among packets of the other direction and unsealed ones, the assembler stands as after some genuine fragments, those and only those that were delivered |
| Wire.OtherWayForeign | src/transport.rs:602-605 | a genuine datagram of the other direction is dropped |
| Wire.OnlyWholeInstructions | src/transport.rs:549-654 | then all that comes out are whole instructions that were sent |
| Wire.Mailbox.RecvDatagram | src/transport.rs:593-654 | the receiving end from datagram to message, in place |
| Wire.Mailbox.RememberSeq | src/transport.rs:749-761 | the window of the last 512 numbers |
| Wire.SealedRoundTrip | src/transport.rs:549-654 | an instruction survives the whole way, sealed datagrams in any order, with repetitions, replays and foreign packets, and comes out once, with the last missing datagram |
| Ocb.GfDouble | src/crypto.rs:281-293 | the byte loop with its carry |
| Ocb.DoubleBits | src/crypto.rs:281-293 | doubling is a shift by one bit with the reduction polynomial, bit by bit |
| Ocb.NtzDivides | src/crypto.rs:301-306 | the mask of a block is picked by the power of two that divides its number |
| Ocb.MaskInRange | src/crypto.rs:301-306 | the table of 32 masks is never overrun below 2^32 blocks |
| Ocb.NonceBits | src/crypto.rs:226-231 | the nonce block of section 4.2 of RFC 7253 for a 128-bit tag |
| Ocb.TopBits | src/crypto.rs:233-238 | all but the last six bits of the nonce block are enciphered |
| Ocb.StretchBits | src/crypto.rs:239-243 | the stretch of section 4.2 of RFC 7253, bit by bit |
| Ocb.WindowBits | src/crypto.rs:245-262 | the byte and bit shifts cut exactly the window of 128 bits at the bottom value |
| Ocb.OpensWhatSeals | src/crypto.rs:98-197 | decryption accepts exactly what encryption under the same nonce produces, and returns the plaintext |
| Ocb.DatagramRoundTrip | src/crypto.rs:199-224 | a datagram opens to a number and a plaintext exactly if it was sealed from them |
| Ocb.Key.Encrypt | src/crypto.rs:98-143 | the block loop, in place; that its output is section 4.2 of RFC 7253 is `Standard.SealsAsStandard` |
| Ocb.Key.Decrypt | src/crypto.rs:145-197 | the block loop, in place, with tags compared in constant time; that what it accepts is so sealed is `Standard.OpensAsStandard` |
| Standard.InitOffsetBits | src/crypto.rs:226-262 | the initial offset is 128 bits of the stretched nonce from the bottom value on |
| Standard.SealsAsStandard | src/crypto.rs:51-143 | section 4.2 of RFC 7253 written out: each offset is the last one plus the enciphered zero block doubled as often as the block number says, each block is masked by its offset on both sides, a short one by the enciphered offset, and the tag is the enciphered checksum, offset and doubled mask, with the padding |
| Standard.OpensAsStandard | src/crypto.rs:145-197 | whatever is opened was sealed exactly so |
| Standard.DatagramHeader | src/crypto.rs:199-224 | the number leads the datagram, most significant octet first, and four zeros with it are the nonce |

## Left out

- Shutting down: the session is modelled up to the start of a shutdown, after which queueing is ignored and the last state number is reused; the runs considered are those in which no state number has reached the largest 64-bit value.
- Sockets, port hopping, ECN, address selection, `poll`'s read loop and the command-line program: input and output, and platform calls. Every instruction the endpoints exchange is delivered whole; sealing and reassembly are proved separately in `Wire`.
- Replayed datagrams: the window of seen sequence numbers is part of `Wire`; in `Session` an instruction may be delivered any number of times, which covers what the window would let through.
- Wall-clock time, round-trip smoothing and pacing: every outcome of a timer is an input of the step that looks at it.
- The peer: it is modelled as the same endpoint with the server's settings, queueing any diff on any base it may use.
- Client.Connection: the terminal view it owns is kept beside it in `Session`, and its status messages are left out.
- Byte budgets, the paint history and shared rows: rows are values, and the size limit of a remote terminal is a predicate given as a parameter.
- Epoch counters of the predictor: unbounded numbers, so wrapping around after 2^64 failed predictions is not modelled.
- Display.AnsiPen.ApplyAnsi: printing a rune is done in place on the framebuffer; the other commands replace the screen by what the function of that command gives, so their cell-by-cell order is not captured.
- Display.AppendAttrDiff: the eight flag tests of the source are one loop over the flags in the same order.
- What a terminal shows after a frame with a row that wraps: only that it is not the frame. Terminals of one column: that a frame without such a row is shown, but not which of the others happen to be; that depends on scrolling and on what the terminal kept.
- Terminals with insert, origin or no-wrap mode: outside the paint theorem, as the printer never sets those modes.
- Bell count and clipboard: printed as the source does, but a terminal cannot be asked for them, so the paint theorem does not mention them.
- Resizing the display pipeline and its raw pass-through of host bytes: the session theorem of `Pipeline` is for a fixed size and whole frames.
- Protobuf decoders on malformed input: the model returns an error wherever a slice would be out of bounds.
- AES, zlib, base64 and randomness: parameters, or left out.
- Zeroing of keys and the ordering helper for tests: nothing is promised about them here.
