/** A client and its peer over a network that loses, repeats and reorders: whatever was ever
    put on a wire may arrive at any later moment, any number of times, or never. */
module Session {
  import opened Basics
  import opened Pb
  import opened Ssp
  import opened Input
  import opened Terminal
  import opened Channel
  import opened Ledger

  /** A branch of the server's history: the base and the diff of one numbered state. */
  datatype Branch = Branch(oldNum: nat, diff: seq<byte>)

  /** Both ends, everything ever sent, and what each end rebuilt: `inputs` is the server's
      reconstruction of each user state, `view` the client's screen snapshots. */
  datatype System<F> = System(
    client: ClientState, view: View<F>, server: Duplex, inputs: map<nat, seq<UserInstruction>>,
    uplink: set<TransportInstruction>, downlink: set<TransportInstruction>,
    history: History, accepted: set<nat>, branches: map<nat, Branch>)

  datatype Step =
    | Type(keys: seq<byte>)
    | SetSize(cols: nat, rows: nat)
    | FlushClient(turn: Turn)
    | ReachServer(up: TransportInstruction, serverClock: Clock)
    | ReachClient(down: TransportInstruction, clientClock: Clock)
    | ServerShows(base: nat, diff: seq<byte>)
    | TickServer(tickClock: Clock, chaff: seq<byte>, sealing: Sealing)

  const NO_INPUTS: map<nat, seq<UserInstruction>> := map[0 := []]

  /** Dialling queues the size and flushes, which are then the first two steps of the run. */
  function Start<F>(frame: F): System<F> {
    System(NEW_CLIENT, InitialView(frame), Initial(true), NO_INPUTS,
           {}, {}, History([], [0]), {0}, map[])
  }

  function Do<F>(sys: System<F>, u: UserInstruction): System<F> {
    if sys.client.log.dead || !Action(u) then sys
    else sys.(client := sys.client.(log := Append(sys.client.log, u)), history := Typed(sys.history, u))
  }

  function FlushHistory(h: History, c: ClientState, turn: Turn): History {
    var q := Prepare(c.transport.send, c.log, turn);
    var t := Tick(Duplex(q.send, c.transport.recv), turn.tickClock, turn.chaff, turn.sealing);
    AfterTick(AfterQueue(h, c.transport.send, q), q.send, t.state.send)
  }

  function DoFlush<F>(sys: System<F>, turn: Turn): System<F> {
    if sys.client.log.dead then sys
    else
      var f := Flush(sys.client, turn);
      sys.(client := f.state, uplink := OnWire(sys.uplink, f.wire),
           history := FlushHistory(sys.history, sys.client, turn))
  }

  /** What the server's application rebuilds from an accepted diff. */
  function Rebuild(inputs: map<nat, seq<UserInstruction>>, d: Option<ReceivedStateDiff>): map<nat, seq<UserInstruction>> {
    if d.None? || d.value.oldNum !in inputs then inputs
    else
      var us := DecodeMessage(d.value.diff);
      if us.Err? then inputs else inputs[d.value.newNum := inputs[d.value.oldNum] + us.value]
  }

  function DoReachServer<F>(sys: System<F>, ti: TransportInstruction, clock: Clock): System<F> {
    if ti !in sys.uplink then sys
    else
      var r := Receive(sys.server, ti, clock);
      sys.(server := r.state, inputs := Rebuild(sys.inputs, r.diff))
  }

  /** `poll` for one instruction: the transport first, then the numbered snapshots. */
  function DoReachClient<F>(sys: System<F>, ti: TransportInstruction, clock: Clock, interpret: Interpreter<F>): System<F> {
    if sys.client.log.dead || ti !in sys.downlink then sys
    else
      var r := Receive(sys.client.transport, ti, clock);
      var sys' := sys.(client := sys.client.(transport := r.state), accepted := Extended(sys.accepted, r.diff));
      if r.diff.None? then sys'
      else
        var a := ApplyHostState(sys.view, interpret, r.diff.value);
        if a.Shown? || a.Kept? then sys'.(view := a.view)
        else sys'.(client := sys'.client.(log := sys.client.log.(dead := true)))
  }

  function Branched(branches: map<nat, Branch>, ti: Option<TransportInstruction>): map<nat, Branch> {
    if ti.Some? then branches[ti.value.newNum := Branch(ti.value.oldNum, ti.value.diff)] else branches
  }

  function DoTickServer<F>(sys: System<F>, clock: Clock, chaff: seq<byte>, sealing: Sealing): System<F> {
    var t := Tick(sys.server, clock, chaff, sealing);
    sys.(server := t.state, downlink := OnWire(sys.downlink, t.wire),
         branches := Branched(sys.branches, t.wire))
  }

  function Next<F>(sys: System<F>, step: Step, interpret: Interpreter<F>): System<F> {
    match step
    case Type(keys) => if keys == [] then sys else Do(sys, Keystroke(keys))
    case SetSize(cols, rows) => Do(sys, UserInstruction([], cols, rows))
    case FlushClient(turn) => DoFlush(sys, turn)
    case ReachServer(ti, clock) => DoReachServer(sys, ti, clock)
    case ReachClient(ti, clock) => DoReachClient(sys, ti, clock, interpret)
    case ServerShows(base, diff) => sys.(server := sys.server.(send := SetPendingFrom(sys.server.send, base, diff)))
    case TickServer(clock, chaff, sealing) => DoTickServer(sys, clock, chaff, sealing)
  }

  function Run<F>(frame: F, steps: seq<Step>, interpret: Interpreter<F>): System<F>
    decreases |steps|
  {
    if steps == [] then Start(frame)
    else Next(Run(frame, steps[..|steps| - 1], interpret), steps[|steps| - 1], interpret)
  }

  // ------------------------------------------------------------------ the invariant

  /** The snapshot of state `n` according to the server's history alone. */
  function Replay<F>(frame: F, branches: map<nat, Branch>, interpret: Interpreter<F>, n: nat): Option<Snapshot<F>>
    decreases n
  {
    if n == 0 then Some(Snapshot(frame, 0))
    else if n !in branches || branches[n].oldNum >= n then None
    else
      var base := Replay(frame, branches, interpret, branches[n].oldNum);
      if base.None? then None else interpret(base.value, branches[n].diff, n)
  }

  ghost predicate BranchesOk(branches: map<nat, Branch>, wire: set<TransportInstruction>) {
    && (forall ti :: ti in wire ==> ti.newNum in branches && branches[ti.newNum] == Branch(ti.oldNum, ti.diff))
    && (forall n :: n in branches ==> exists ti :: ti in wire && ti.newNum == n)
  }

  /** The two indexes of the client: the transport's numbers and the view's snapshots. */
  ghost predicate ViewOk<F>(v: View<F>, r: Receiver, accepted: set<nat>, branches: map<nat, Branch>, frame: F, interpret: Interpreter<F>) {
    && (forall n :: n in r.receivedNums ==> n in v.states)
    && (forall n :: n in v.states ==> n in accepted)
    && v.latest == r.ackNum
    && v.latest in v.states && v.displayed == v.states[v.latest].frame
    && (forall n :: n in v.states ==> Replay(frame, branches, interpret, n) == Some(v.states[n]))
  }

  ghost predicate InputsOk(inputs: map<nat, seq<UserInstruction>>, h: History) {
    forall n :: n in inputs ==> n < |h.prefixes| && h.prefixes[n] <= |h.log| && inputs[n] == h.log[..h.prefixes[n]]
  }

  ghost predicate ClientOk(h: History, c: ClientState, uplink: set<TransportInstruction>) {
    var s := c.transport.send;
    && LedgerOk(h, c.log, s.ackedByRemote, s.sentNum)
    && (s.rebaseRequired || CoversTip(h, s))
    && (s.rebaseRequired ==> !s.overflowed)
    && Marked(h, c.log, s.sentNum)
    && DiffsOk(h, s.outbound, uplink)
  }

  ghost predicate UpLinked<F>(sys: System<F>) {
    Linked(sys.client.transport.send, sys.server.recv, sys.uplink, sys.downlink, sys.inputs.Keys)
  }

  ghost predicate DownLinked<F>(sys: System<F>) {
    Linked(sys.server.send, sys.client.transport.recv, sys.downlink, sys.uplink, sys.accepted)
  }

  ghost predicate ViewHolds<F>(sys: System<F>, frame: F, interpret: Interpreter<F>) {
    ViewOk(sys.view, sys.client.transport.recv, sys.accepted, sys.branches, frame, interpret)
  }

  ghost predicate Inv<F>(sys: System<F>, frame: F, interpret: Interpreter<F>) {
    && UpLinked(sys)
    && DownLinked(sys)
    && ClientOk(sys.history, sys.client, sys.uplink)
    && InputsOk(sys.inputs, sys.history)
    && BranchesOk(sys.branches, sys.downlink)
    && (sys.client.log.dead || ViewHolds(sys, frame, interpret))
  }

  /** Neither end has used up its state numbers; the last one is reserved for shutting down. */
  predicate Fits<F>(sys: System<F>) {
    sys.client.transport.send.sentNum < U64_MAX && sys.server.send.sentNum < U64_MAX
  }

  lemma {:induction false} StartLedger()
    ensures LedgerOk(History([], [0]), NEW_LOG, 0, 0)
  {
    hide Action;
    var h := History([], [0]);
    assert Recorded(h, NEW_LOG, 0);
    assert h.log[0..] == [];
  }

  lemma {:induction false} StartClient()
    ensures ClientOk(History([], [0]), NEW_CLIENT, {})
  {
    hide LedgerOk, Between;
    StartLedger();
  }

  lemma {:induction false} StartLinked(isServer: bool)
    ensures Linked(Initial(isServer).send, Initial(!isServer).recv, {}, {}, {0})
    ensures Linked(Forced(Initial(isServer)).send, Initial(!isServer).recv, {}, {}, {0})
  {}

  lemma {:induction false} StartView<F>(frame: F, interpret: Interpreter<F>)
    ensures ViewOk(InitialView(frame), Initial(false).recv, {0}, map[], frame, interpret)
  {}

  lemma {:induction false} StartInputs()
    ensures InputsOk(NO_INPUTS, History([], [0]))
    ensures NO_INPUTS.Keys == {0}
  {
    assert NO_INPUTS.Keys == {0};
  }

  lemma {:induction false} StartInv<F>(frame: F, interpret: Interpreter<F>)
    ensures Inv(Start(frame), frame, interpret)
  {
    hide ClientOk, Linked, ViewOk, InputsOk, Initial, InitialView;
    StartClient();
    StartLinked(false);
    StartLinked(true);
    StartView(frame, interpret);
    StartInputs();
  }

  // -------------------------------------------------------------------- typing

  lemma {:induction false} TypedInputs(inputs: map<nat, seq<UserInstruction>>, h: History, u: UserInstruction)
    requires InputsOk(inputs, h)
    ensures InputsOk(inputs, Typed(h, u))
  {
    forall n | n in inputs
      ensures inputs[n] == Typed(h, u).log[..h.prefixes[n]]
    {
      assert (h.log + [u])[..h.prefixes[n]] == h.log[..h.prefixes[n]];
    }
  }

  lemma {:induction false} TypedTip(h: History, s: Sender, u: UserInstruction)
    ensures CoversTip(h, s) ==> CoversTip(Typed(h, u), s)
  {}

  lemma {:induction false} TypingClient(h: History, c: ClientState, u: UserInstruction, uplink: set<TransportInstruction>)
    requires ClientOk(h, c, uplink) && Action(u) && !c.log.dead
    ensures ClientOk(Typed(h, u), c.(log := Append(c.log, u)), uplink)
  {
    TypingKeeps(h, c.log, u, c.transport.send.ackedByRemote, c.transport.send.sentNum);
    TypedDiffs(h, u, c.transport.send.outbound, uplink);
    TypedTip(h, c.transport.send, u);
  }

  lemma {:induction false} DoInv<F>(sys: System<F>, u: UserInstruction, frame: F, interpret: Interpreter<F>)
    requires Inv(sys, frame, interpret)
    ensures Inv(Do(sys, u), frame, interpret)
  {
    if !sys.client.log.dead && Action(u) {
      TypingClient(sys.history, sys.client, u, sys.uplink);
      TypedInputs(sys.inputs, sys.history, u);
    }
  }

  // ------------------------------------------------------------------- flushing

  lemma {:induction false} TipBounds(s: Sender)
    requires SenderOk(s)
    ensures s.ackedByRemote <= Tip(s) <= s.sentNum
  {
    if s.outbound != [] {
      assert s.outbound[|s.outbound| - 1] in s.outbound;
    }
  }

  lemma {:induction false} ClearRebase(s: Sender, h: History, wire: set<TransportInstruction>)
    requires Emitted(s, wire)
    ensures Emitted(s.(rebaseRequired := false), wire)
    ensures Tip(s.(rebaseRequired := false)) == Tip(s)
    ensures CoversTip(h, s) ==> CoversTip(h, s.(rebaseRequired := false))
  {}

  lemma {:induction false} PrepareSettled(h: History, s: Sender, l: Log, turn: Turn, wire: set<TransportInstruction>)
    requires Emitted(s, wire) && Prepare(s, l, turn).send.sentNum < U64_MAX
    requires ClientOk(h, ClientState(Duplex(s, Receiver([], 0, 0, 0, false)), l), wire)
    ensures var q := Prepare(s, l, turn);
      && Settled(AfterQueue(h, s, q), q.log, q.send, wire)
      && q.send.ackedByRemote == s.ackedByRemote
      && q.log.dead == l.dead
  {
    var s0 := s.(rebaseRequired := false);
    var l0 := ProcessAcks(s, l, turn.ackClock);
    TipBounds(s);
    ProcessAcksKeeps(h, s, l, turn.ackClock);
    ClearRebase(s, h, wire);
    QueueSettled(h, s0, l0, turn.baseClock, wire);
  }

  lemma {:induction false} QueueSettled(h: History, s: Sender, l: Log, clock: Clock, wire: set<TransportInstruction>)
    requires LedgerOk(h, l, s.ackedByRemote, s.sentNum) && l.lastAcked == s.ackedByRemote
    requires l.dirty || CoversTip(h, s)
    requires Marked(h, l, s.sentNum)
    requires DiffsOk(h, s.outbound, wire) && Emitted(s, wire)
    requires QueueInput(s, l, clock).send.sentNum < U64_MAX
    ensures var q := QueueInput(s, l, clock);
      && Settled(AfterQueue(h, s, q), q.log, q.send, wire)
      && q.send.ackedByRemote == s.ackedByRemote
      && q.log.dead == l.dead
  {
    hide *;
    SenderInside(s, wire);
    TipBounds(s);
    if !l.dirty || l.actions == [] {
      QueueNothing(h, s, l, clock, wire);
      AfterQueueSame(h, s, QueueInput(s, l, clock));
    } else {
      LedgerInside(h, l, s.ackedByRemote, s.sentNum);
      QueueGrows(s, l, clock);
      QueueSomething(h, s, l, clock, wire);
      AfterQueueMore(h, s, QueueInput(s, l, clock));
    }
  }

  lemma {:induction false} SenderInside(s: Sender, wire: set<TransportInstruction>)
    requires Emitted(s, wire)
    ensures SenderOk(s)
  {}

  lemma {:induction false} LedgerInside(h: History, l: Log, acked: nat, top: nat)
    requires LedgerOk(h, l, acked, top)
    ensures LogOk(l) && l.ackedActionCount == 0
  {}

  lemma {:induction false} QueueGrows(s: Sender, l: Log, clock: Clock)
    requires l.dirty && l.actions != [] && l.ackedActionCount == 0
    ensures QueueInput(s, l, clock).send.sentNum < U64_MAX ==> s.sentNum < U64_MAX
  {
    QueueShape(s, l, clock);
  }

  lemma {:induction false} AfterQueueSame(h: History, s: Sender, q: Input.Queued)
    requires q.send == s
    ensures AfterQueue(h, s, q) == h
  {}

  lemma {:induction false} AfterQueueMore(h: History, s: Sender, q: Input.Queued)
    requires q.send.sentNum == s.sentNum + 1
    ensures AfterQueue(h, s, q) == Numbered(h, |h.log|)
  {}

  /** What the end of a flush may still change. */
  predicate Finished(t: Ticked, l: Log, f: Flushed) {
    && f.state.transport.recv == t.state.recv
    && (f.state.transport.send == t.state.send
        || f.state.transport.send == t.state.send.(instructionTooLarge := false)
        || f.state.transport.send == SetMaxFragmentPayload(t.state.send))
    && (f.state.log == l || f.state.log == l.(dead := true))
    && (f.wire == t.wire || f.wire == None)
  }

  lemma {:induction false} FinishShape(t: Ticked, l: Log, tooLong: bool)
    ensures Finished(t, l, Finish(t, l, tooLong))
  {}

  lemma {:induction false} FlagsKeep(h: History, l: Log, s: Sender, wire: set<TransportInstruction>)
    requires Settled(h, l, s, wire)
    ensures Settled(h, l, s.(instructionTooLarge := false), wire)
    ensures Settled(h, l, SetMaxFragmentPayload(s), wire)
  {
    SetMaxFragmentPayloadKeeps(s, wire);
    SameStatesDiffs(h, s.outbound, SetMaxFragmentPayload(s).outbound, wire);
  }

  lemma {:induction false} DeadKeeps(h: History, l: Log, s: Sender, wire: set<TransportInstruction>)
    requires Settled(h, l, s, wire)
    ensures Settled(h, l.(dead := true), s, wire)
  {
    assert forall n :: l.lastAcked <= n <= s.sentNum ==> Recorded(h, l, n) ==> Recorded(h, l.(dead := true), n);
  }

  lemma {:induction false} FewerOnWire(h: History, l: Log, s: Sender, wire: set<TransportInstruction>, wire': set<TransportInstruction>)
    requires Settled(h, l, s, wire') && wire <= wire'
    ensures Settled(h, l, s, wire)
  {}

  lemma {:induction false} FinishSettled(h: History, t: Ticked, l: Log, f: Flushed, wire: set<TransportInstruction>)
    requires Settled(h, l, t.state.send, OnWire(wire, t.wire)) && Finished(t, l, f)
    ensures Settled(h, f.state.log, f.state.transport.send, OnWire(wire, f.wire))
  {
    var s := t.state.send;
    FlagsKeep(h, l, s, OnWire(wire, t.wire));
    FewerOnWire(h, l, f.state.transport.send, wire, OnWire(wire, t.wire));
    DeadKeeps(h, l, f.state.transport.send, OnWire(wire, f.wire));
  }

  /** A whole flush leaves nothing stranded: see `Settled`. */
  lemma {:induction false} FlushSettled(h: History, c: ClientState, turn: Turn, wire: set<TransportInstruction>)
    requires !c.log.dead && Emitted(c.transport.send, wire) && ClientOk(h, c, wire)
    requires Flush(c, turn).state.transport.send.sentNum < U64_MAX
    ensures var f := Flush(c, turn);
      && Settled(FlushHistory(h, c, turn), f.state.log, f.state.transport.send, OnWire(wire, f.wire))
      && f.state.transport.send.ackedByRemote == c.transport.send.ackedByRemote
      && !f.state.transport.send.rebaseRequired
  {
    var s, r := c.transport.send, c.transport.recv;
    var q := Prepare(s, c.log, turn);
    var t := Tick(Duplex(q.send, r), turn.tickClock, turn.chaff, turn.sealing);
    FlushParts(c, turn);
    FlushHistoryParts(h, c, turn);
    hide *;
    ClientWithoutReceiver(h, c, wire);
    PrepareSettled(h, s, c.log, turn, wire);
    TickSettled(AfterQueue(h, s, q), q.log, Duplex(q.send, r), turn.tickClock, turn.chaff, turn.sealing, wire);
    TickReports(Duplex(q.send, r), turn.tickClock, turn.chaff, turn.sealing);
    FinishSettled(FlushHistory(h, c, turn), t, q.log, Flush(c, turn), wire);
  }

  lemma {:induction false} ClientWithoutReceiver(h: History, c: ClientState, wire: set<TransportInstruction>)
    requires ClientOk(h, c, wire)
    ensures ClientOk(h, ClientState(Duplex(c.transport.send, Receiver([], 0, 0, 0, false)), c.log), wire)
  {}

  lemma {:induction false} FlushHistoryParts(h: History, c: ClientState, turn: Turn)
    ensures var q := Prepare(c.transport.send, c.log, turn);
            var t := Tick(Duplex(q.send, c.transport.recv), turn.tickClock, turn.chaff, turn.sealing);
      FlushHistory(h, c, turn) == AfterTick(AfterQueue(h, c.transport.send, q), q.send, t.state.send)
  {
    hide Prepare, Tick, AfterTick, AfterQueue;
  }

  lemma {:induction false} SendClears(s: Sender, r: Receiver, clock: Clock, chaff: seq<byte>, sealing: Sealing)
    ensures Send(s, r, clock, chaff, sealing).state.send.rebaseRequired == s.rebaseRequired
  {}

  lemma {:induction false} TickClears(d: Duplex, clock: Clock, chaff: seq<byte>, sealing: Sealing)
    ensures Tick(d, clock, chaff, sealing).state.send.rebaseRequired == d.send.rebaseRequired
  {
    SendClears(d.send.(outbound := Coalesce(d.send.outbound)), d.recv, clock, chaff, sealing);
  }

  lemma {:induction false} PrepareClears(s: Sender, l: Log, turn: Turn)
    ensures !Prepare(s, l, turn).send.rebaseRequired
  {
    hide ProcessAcks, ChooseBase;
  }

  lemma {:induction false} FlushParts(c: ClientState, turn: Turn)
    requires !c.log.dead
    ensures var q := Prepare(c.transport.send, c.log, turn);
            var t := Tick(Duplex(q.send, c.transport.recv), turn.tickClock, turn.chaff, turn.sealing);
      && Finished(t, q.log, Flush(c, turn))
      && Flush(c, turn).state.transport.send.sentNum == t.state.send.sentNum >= q.send.sentNum
      && Flush(c, turn).state.transport.send.ackedByRemote == t.state.send.ackedByRemote
      && !Flush(c, turn).state.transport.send.rebaseRequired
  {
    hide Prepare, Tick;
    PrepareClears(c.transport.send, c.log, turn);
    TickClears(Duplex(Prepare(c.transport.send, c.log, turn).send, c.transport.recv), turn.tickClock, turn.chaff, turn.sealing);
    var q := Prepare(c.transport.send, c.log, turn);
    var t := Tick(Duplex(q.send, c.transport.recv), turn.tickClock, turn.chaff, turn.sealing);
    TickReports(Duplex(q.send, c.transport.recv), turn.tickClock, turn.chaff, turn.sealing);
    FinishShape(t, q.log, turn.datagramTooLong);
  }

  lemma {:induction false} SettledClient(h: History, c: ClientState, wire: set<TransportInstruction>)
    requires Settled(h, c.log, c.transport.send, wire) && !c.transport.send.rebaseRequired
    ensures ClientOk(h, c, wire) && Emitted(c.transport.send, wire)
  {}

  /** Numbering more states leaves the earlier prefixes alone. */
  lemma {:induction false} FlushExtends(h: History, c: ClientState, turn: Turn)
    ensures FlushHistory(h, c, turn).log == h.log
    ensures |h.prefixes| <= |FlushHistory(h, c, turn).prefixes|
    ensures forall i :: 0 <= i < |h.prefixes| ==> FlushHistory(h, c, turn).prefixes[i] == h.prefixes[i]
  {
    hide Prepare, Tick;
  }

  lemma {:induction false} FlushReports(c: ClientState, turn: Turn)
    requires !c.log.dead
    ensures var f := Flush(c, turn);
      && f.state.transport.recv == c.transport.recv.(pendingDataAck := f.state.transport.recv.pendingDataAck,
                                                     sentAckNum := f.state.transport.recv.sentAckNum)
      && (f.wire.Some? ==> f.wire.value.ackNum == c.transport.recv.ackNum)
  {
    hide Prepare, Tick;
    var q := Prepare(c.transport.send, c.log, turn);
    TickReports(Duplex(q.send, c.transport.recv), turn.tickClock, turn.chaff, turn.sealing);
    FlushParts(c, turn);
  }

  lemma {:induction false} ReceiverView<F>(v: View<F>, r: Receiver, r': Receiver, accepted: set<nat>, branches: map<nat, Branch>, frame: F, interpret: Interpreter<F>)
    requires ViewOk(v, r, accepted, branches, frame, interpret)
    requires r' == r.(pendingDataAck := r'.pendingDataAck, sentAckNum := r'.sentAckNum)
    ensures ViewOk(v, r', accepted, branches, frame, interpret)
  {}

  lemma {:induction false} ExtendedInputs(inputs: map<nat, seq<UserInstruction>>, h: History, h': History)
    requires InputsOk(inputs, h) && h'.log == h.log && |h.prefixes| <= |h'.prefixes|
    requires forall i :: 0 <= i < |h.prefixes| ==> h'.prefixes[i] == h.prefixes[i]
    ensures InputsOk(inputs, h')
  {}

  lemma {:induction false} DoFlushInv<F>(sys: System<F>, turn: Turn, frame: F, interpret: Interpreter<F>)
    requires Inv(sys, frame, interpret) && Fits(DoFlush(sys, turn))
    ensures Inv(DoFlush(sys, turn), frame, interpret)
  {
    hide Flush, FlushHistory, Linked, LedgerOk, DiffsOk, Emitted, ViewOk, InputsOk, BranchesOk, Settled, ClientOk, OnWire;
    if !sys.client.log.dead {
      var f := Flush(sys.client, turn);
      var s, s' := sys.client.transport.send, f.state.transport.send;
      var r, r' := sys.client.transport.recv, f.state.transport.recv;
      LinkedSender(s, sys.server.recv, sys.uplink, sys.downlink, sys.inputs.Keys);
      FlushSettled(sys.history, sys.client, turn, sys.uplink);
      FlushReports(sys.client, turn);
      FlushExtends(sys.history, sys.client, turn);
      SettledClient(FlushHistory(sys.history, sys.client, turn), f.state, OnWire(sys.uplink, f.wire));
      MoreOnWire(sys.uplink, f.wire);
      SenderMoves(s, s', sys.server.recv, sys.uplink, OnWire(sys.uplink, f.wire), sys.downlink, sys.inputs.Keys);
      ReceiverReports(sys.server.send, r, r', sys.downlink, sys.uplink, sys.accepted, f.wire);
      ExtendedInputs(sys.inputs, sys.history, FlushHistory(sys.history, sys.client, turn));
      ReceiverView(sys.view, r, r', sys.accepted, sys.branches, frame, interpret);
    }
  }

  lemma {:induction false} LinkedSender(s: Sender, r: Receiver, wire: set<TransportInstruction>, back: set<TransportInstruction>, accepted: set<nat>)
    requires Linked(s, r, wire, back, accepted)
    ensures Emitted(s, wire)
  {}

  lemma {:induction false} MoreOnWire(wire: set<TransportInstruction>, ti: Option<TransportInstruction>)
    ensures wire <= OnWire(wire, ti)
  {}
}
