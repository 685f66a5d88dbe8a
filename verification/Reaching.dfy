/** Input that is sent does arrive: what one flush and one delivery make of it. */
module Reaching {
  import opened Basics
  import opened Pb
  import opened Ssp
  import opened Input
  import opened Terminal
  import opened Channel
  import opened Ledger
  import opened Session
  import opened Delivery
  import opened Guarantees
  import Ticks

  // ----------------------------------------------------------------------- one delivery

  /** Taken, or known already. */
  lemma {:induction false} TakenIsKnown(r: Receiver, ti: TransportInstruction, clock: Clock, accepted: set<nat>)
    requires Accepting(r, accepted) && ti.oldNum in r.receivedNums
    requires !(clock.quenched && |r.receivedNums| > RECEIVED_STATE_CAP)
    ensures ti.newNum in Extended(accepted, Accept(r, ti, clock).state)
  {
    RetainMembers(r.receivedNums, AtLeast(ti.throwawayNum));
  }

  lemma {:induction false} InstructionVersion(d: Duplex, clock: Clock, chaff: seq<byte>, sealing: Sealing)
    ensures var w := Tick(d, clock, chaff, sealing).wire; w.Some? ==> w.value.protocolVersion == PROTOCOL_VERSION
  {
    hide Coalesce, SendDue, Chosen, Pick, Seal, AckDue, MinBase;
  }

  lemma {:induction false} FlushVersion(c: ClientState, turn: Turn)
    ensures var w := Flush(c, turn).wire; w.Some? ==> w.value.protocolVersion == PROTOCOL_VERSION
  {
    hide Prepare, Tick;
    if !c.log.dead {
      var q := Prepare(c.transport.send, c.log, turn);
      InstructionVersion(Duplex(q.send, c.transport.recv), turn.tickClock, turn.chaff, turn.sealing);
    }
  }

  lemma {:induction false} ServerParts<F>(sys: System<F>, frame: F, interpret: Interpreter<F>)
    requires Inv(sys, frame, interpret)
    ensures Linked(sys.client.transport.send, sys.server.recv, sys.uplink, sys.downlink, sys.inputs.Keys)
    ensures Accepting(sys.server.recv, sys.inputs.Keys)
    ensures ClientOk(sys.history, sys.client, sys.uplink) && InputsOk(sys.inputs, sys.history)
  {}

  lemma {:induction false} ReachShape<F>(sys: System<F>, ti: TransportInstruction, clock: Clock)
    requires ti in sys.uplink && ti.protocolVersion == PROTOCOL_VERSION
    ensures DoReachServer(sys, ti, clock).inputs == Rebuild(sys.inputs, Accept(sys.server.recv, ti, clock).state)
  {
    hide Accept, ApplyAck, Rebuild;
    ReceiveParts(sys.server, ti, clock);
  }

  /** A state delivered to a server that holds its base, and does not quench, is rebuilt there. */
  lemma {:induction false} DeliveredRebuilds<F>(frame: F, steps: seq<Step>, ti: TransportInstruction, clock: Clock, interpret: Interpreter<F>)
    requires var sys := Run(frame, steps, interpret);
      && Fits(sys) && ti in sys.uplink && ti.protocolVersion == PROTOCOL_VERSION
      && ti.oldNum in sys.server.recv.receivedNums
      && !(clock.quenched && |sys.server.recv.receivedNums| > RECEIVED_STATE_CAP)
    ensures var sys := Run(frame, steps, interpret);
            var done := Next(sys, ReachServer(ti, clock), interpret);
      ti.newNum in done.inputs && InputsOk(done.inputs, sys.history)
  {
    hide Run, Inv, Accept, Linked, InputsOk, ClientOk, Rebuild, Accepting, DoReachServer;
    var sys := Run(frame, steps, interpret);
    RunInv(frame, steps, interpret);
    ServerParts(sys, frame, interpret);
    ClientHistory(sys.history, sys.client, sys.uplink);
    ReceiveInput(sys.inputs, sys.history, sys.client.transport.send, sys.server.recv, sys.uplink, sys.downlink, ti, clock);
    TakenIsKnown(sys.server.recv, ti, clock, sys.inputs.Keys);
    ReachShape(sys, ti, clock);
  }

  // --------------------------------------------------------- the newest state, once sent

  /** The flush put its newest state on the wire, and the server holds the base of it. */
  predicate NewestSent<F>(sys: System<F>, wire: Option<TransportInstruction>, clock: Clock) {
    && wire.Some? && wire.value.newNum == Tip(sys.client.transport.send)
    && wire.value.oldNum in sys.server.recv.receivedNums
    && !(clock.quenched && |sys.server.recv.receivedNums| > RECEIVED_STATE_CAP)
  }

  lemma {:induction false} FlushWire<F>(sys: System<F>, turn: Turn, interpret: Interpreter<F>)
    requires !sys.client.log.dead
    ensures var sys', wire := Next(sys, FlushClient(turn), interpret), Flush(sys.client, turn).wire;
      && sys'.uplink == OnWire(sys.uplink, wire) && sys'.client == Flush(sys.client, turn).state
      && sys'.server == sys.server && sys'.inputs == sys.inputs
  {
    hide Flush, FlushHistory;
  }

  /** From every reachable live state: a flush that sends the newest state, and the delivery of that
      to a server that holds its base, rebuild there all that was ever entered. */
  lemma {:induction false} SentIsWhole<F>(frame: F, steps: seq<Step>, turn: Turn, clock: Clock, interpret: Interpreter<F>)
    requires !Run(frame, steps, interpret).client.log.dead
    requires Fits(Run(frame, steps + [FlushClient(turn)], interpret))
    requires NewestSent(Run(frame, steps + [FlushClient(turn)], interpret), Flush(Run(frame, steps, interpret).client, turn).wire, clock)
    ensures var ti := Flush(Run(frame, steps, interpret).client, turn).wire.value;
            var done := Run(frame, steps + [FlushClient(turn)] + [ReachServer(ti, clock)], interpret);
      ti.newNum in done.inputs && done.inputs[ti.newNum] == AllEntered(steps)
  {
    hide *;
    var before := Run(frame, steps, interpret);
    var flushed := steps + [FlushClient(turn)];
    var sys := Run(frame, flushed, interpret);
    var wire := Flush(before.client, turn).wire;
    RunSnoc(frame, steps, FlushClient(turn), interpret);
    FlushVersion(before.client, turn);
    FlushWire(before, turn, interpret);
    SentParts(sys, wire, clock, before.uplink);
    var done := Run(frame, flushed + [ReachServer(wire.value, clock)], interpret);
    RunSnoc(frame, flushed, ReachServer(wire.value, clock), interpret);
    DeliveredRebuilds(frame, flushed, wire.value, clock, interpret);
    FlushedSettled(before, turn, frame, steps, interpret);
    SettledWhole(done.inputs, sys.history, sys.client.log, sys.client.transport.send, sys.uplink);
    LogIsEntered(frame, steps, interpret);
  }

  lemma {:induction false} SentParts<F>(sys: System<F>, wire: Option<TransportInstruction>, clock: Clock, before: set<TransportInstruction>)
    requires NewestSent(sys, wire, clock) && sys.uplink == OnWire(before, wire)
    ensures wire.Some? && wire.value in sys.uplink && wire.value.newNum == Tip(sys.client.transport.send)
    ensures wire.value.oldNum in sys.server.recv.receivedNums
    ensures !(clock.quenched && |sys.server.recv.receivedNums| > RECEIVED_STATE_CAP)
  {}

  // -------------------------------------------------------------------- new input is sent

  /** A live client has neither run out of keys nor met an instruction that is too large. */
  predicate Unhindered(c: ClientState) {
    !c.log.dead ==> !c.transport.send.instructionTooLarge && !c.transport.send.cryptoExhausted
  }

  lemma {:induction false} AckUnhindered(s: Sender, ack: nat)
    ensures ApplyAck(s, ack).instructionTooLarge == s.instructionTooLarge
    ensures ApplyAck(s, ack).cryptoExhausted == s.cryptoExhausted
  {
    hide AfterAck, ForgetBefore, Position;
  }

  lemma {:induction false} FinishUnhindered(t: Ticked, l: Log, tooLong: bool)
    ensures Unhindered(Finish(t, l, tooLong).state)
  {
    hide Unsend;
  }

  lemma {:induction false} NextUnhindered<F>(sys: System<F>, step: Step, interpret: Interpreter<F>)
    requires Unhindered(sys.client)
    ensures Unhindered(Next(sys, step, interpret).client)
  {
    hide Accept, ApplyAck, Tick, Prepare, Finish, FlushHistory, SetPendingFrom, ApplyHostState, Rebuild, Branched, Extended, OnWire, Action;
    match step
    case FlushClient(turn) =>
      if !sys.client.log.dead {
        var q := Prepare(sys.client.transport.send, sys.client.log, turn);
        FinishUnhindered(Tick(Duplex(q.send, sys.client.transport.recv), turn.tickClock, turn.chaff, turn.sealing), q.log, turn.datagramTooLong);
      }
    case ReachClient(ti, clock) => AckUnhindered(sys.client.transport.send, ti.ackNum);
    case _ =>
  }

  lemma {:induction false} RunUnhindered<F>(frame: F, steps: seq<Step>, interpret: Interpreter<F>)
    ensures Unhindered(Run(frame, steps, interpret).client)
    decreases |steps|
  {
    hide Next, Unhindered;
    if steps == [] {
      StartUnhindered();
    } else {
      RunUnhindered(frame, steps[..|steps| - 1], interpret);
      NextUnhindered(Run(frame, steps[..|steps| - 1], interpret), steps[|steps| - 1], interpret);
    }
  }

  lemma {:induction false} StartUnhindered()
    ensures Unhindered(NEW_CLIENT)
  {}

  lemma {:induction false} CappedTip(q: seq<OutboundState>)
    requires q != []
    ensures Capped(q) != [] && Capped(q)[|Capped(q)| - 1] == q[|q| - 1]
  {}

  /** What was queued last was never sent. */
  predicate TipUnsent(s: Sender) {
    s.outbound != [] && s.outbound[|s.outbound| - 1].lastSent.None? && s.outbound[|s.outbound| - 1].newNum == s.sentNum
  }

  lemma {:induction false} PendingTip(s: Sender, oldNum: nat, diff: seq<byte>)
    ensures TipUnsent(SetPendingFrom(s, oldNum, diff))
    ensures SetPendingFrom(s, oldNum, diff).instructionTooLarge == s.instructionTooLarge
    ensures SetPendingFrom(s, oldNum, diff).cryptoExhausted == s.cryptoExhausted
  {
    hide Capped, Ssp.Queued;
    var from := if oldNum == s.ackedByRemote || Ssp.Queued(s.outbound, oldNum) then oldNum else s.ackedByRemote;
    CappedTip(s.outbound + [OutboundState(from, SatInc(s.sentNum), diff, None)]);
  }

  lemma {:induction false} QueuedTip(s: Sender, l: Log, clock: Clock)
    ensures var q := QueueInput(s, l, clock);
      && (q.send.sentNum != s.sentNum ==> TipUnsent(q.send))
      && q.send.instructionTooLarge == s.instructionTooLarge && q.send.cryptoExhausted == s.cryptoExhausted
  {
    hide ChooseBase, SetPendingFrom, From, TipUnsent;
    var base := ChooseBase(s, l, clock);
    PendingTip(s, base.oldNum, base.payload);
  }

  /** Input that no numbered state covers yet is queued as a new one. */
  lemma {:induction false} NewIsQueued(h: History, u: UserInstruction, s: Sender, l: Log, turn: Turn, wire: set<TransportInstruction>)
    requires HistoryOk(h, s.sentNum) && Emitted(s, wire) && Prepare(s, l, turn).send.sentNum < U64_MAX
    requires ClientOk(Typed(h, u), ClientState(Duplex(s, Receiver([], 0, 0, 0, false)), l), wire)
    ensures var q := Prepare(s, l, turn);
      && TipUnsent(q.send) && Rising(q.send.outbound)
      && q.send.instructionTooLarge == s.instructionTooLarge && q.send.cryptoExhausted == s.cryptoExhausted
  {
    hide ClientOk, LedgerOk, DiffsOk, QueueInput, ProcessAcks, TipUnsent, CoversTip, Matches, BasesKept;
    assert h.prefixes[s.sentNum] <= |h.log|;
    PrepareSettled(Typed(h, u), s, l, turn, wire);
    QueuedTip(s.(rebaseRequired := false), ProcessAcks(s, l, turn.ackClock), turn.baseClock);
  }

  lemma {:induction false} MarkedTip(q: seq<OutboundState>, q': seq<OutboundState>, now: nat)
    requires Rising(q) && q != [] && Ticks.NewestUnsent(q, |q| - 1) && Ticks.Marked(q, q', q[|q| - 1].newNum, now)
    ensures q' != [] && q'[|q'| - 1].newNum == q[|q| - 1].newNum
  {
    hide Ticks.NewestUnsent, Ticks.Remains;
    var o := q[|q| - 1];
    assert Ticks.Remains(q, o) by { StaysNewest(q); }
    assert o.(lastSent := Some(now)) in q';
    var k :| 0 <= k < |q'| && q'[k] == o.(lastSent := Some(now));
    var st := q'[|q'| - 1];
    assert st in q';
    var p :| p in q && st == if p.newNum == o.newNum then p.(lastSent := Some(now)) else p;
    var i :| 0 <= i < |q| && q[i] == p;
    assert st.newNum == p.newNum <= o.newNum;
    if k < |q'| - 1 {
      assert false;
    }
  }

  lemma {:induction false} StaysNewest(q: seq<OutboundState>)
    requires q != [] && Ticks.NewestUnsent(q, |q| - 1)
    ensures Ticks.Remains(q, q[|q| - 1])
  {}

  lemma {:induction false} LastIsNewest(s: Sender)
    requires TipUnsent(s)
    ensures Ticks.NewestUnsent(s.outbound, |s.outbound| - 1) && Tip(s) == s.sentNum
  {}

  lemma {:induction false} UnsendTip(s: Sender)
    ensures Tip(SetMaxFragmentPayload(s)) == Tip(s)
  {
    UnsendSame(s.outbound, |s.outbound|);
  }

  /** A tick that may send does send the state that was just queued. */
  lemma {:induction false} TipIsSent(d: Duplex, l: Log, turn: Turn)
    requires TipUnsent(d.send) && Rising(d.send.outbound) && Ticks.MaySendNew(d, turn.tickClock) && turn.sealing.Sealed?
    requires !d.send.instructionTooLarge && !d.send.cryptoExhausted
    ensures var f := Finish(Tick(d, turn.tickClock, turn.chaff, turn.sealing), l, turn.datagramTooLong);
      f.wire.Some? && f.wire.value.newNum == Tip(f.state.transport.send)
  {
    hide TipUnsent, Rising, Ticks.MaySendNew, Tick, Ticks.Marked, Ticks.Watermark, Ticks.NewestUnsent, SetMaxFragmentPayload, Tip;
    var q := d.send.outbound;
    LastIsNewest(d.send);
    var i := |q| - 1;
    QueueNonEmpty(d.send);
    Ticks.NewGoesOut(d, turn.tickClock, turn.chaff, turn.sealing, i);
    var t := Tick(d, turn.tickClock, turn.chaff, turn.sealing);
    MarkedTip(q, t.state.send.outbound, turn.tickClock.now);
    TipOf(t.state.send);
    UnsendTip(t.state.send);
  }

  lemma {:induction false} QueueNonEmpty(s: Sender)
    requires TipUnsent(s)
    ensures s.outbound != []
  {}

  lemma {:induction false} TipOf(s: Sender)
    requires s.outbound != []
    ensures Tip(s) == s.outbound[|s.outbound| - 1].newNum
  {}

  lemma {:induction false} TypeShape<F>(sys: System<F>, keys: seq<byte>, interpret: Interpreter<F>)
    requires !sys.client.log.dead && keys != [] && Action(Keystroke(keys))
    ensures var sys' := Next(sys, Type(keys), interpret);
      && sys'.history == Typed(sys.history, Keystroke(keys)) && !sys'.client.log.dead
      && sys'.client.transport == sys.client.transport && sys'.uplink == sys.uplink
  {
    hide Action;
  }

  lemma {:induction false} FlushIs(c: ClientState, turn: Turn)
    requires !c.log.dead
    ensures var q := Prepare(c.transport.send, c.log, turn);
      Flush(c, turn) == Finish(Tick(Duplex(q.send, c.transport.recv), turn.tickClock, turn.chaff, turn.sealing), q.log, turn.datagramTooLong)
  {
    hide Prepare, Tick, Finish;
  }

  lemma {:induction false} ClientAlone(h: History, c: ClientState, wire: set<TransportInstruction>)
    requires ClientOk(h, c, wire)
    ensures ClientOk(h, ClientState(Duplex(c.transport.send, Receiver([], 0, 0, 0, false)), c.log), wire)
  {}

  /** The first flush after something was typed sends it, if its timer allows and it can be sealed. */
  lemma {:induction false} TypedIsSent<F>(frame: F, steps: seq<Step>, keys: seq<byte>, turn: Turn, interpret: Interpreter<F>)
    requires !Run(frame, steps, interpret).client.log.dead && keys != [] && Action(Keystroke(keys))
    requires Fits(Run(frame, steps + [Type(keys)] + [FlushClient(turn)], interpret))
    requires turn.sealing.Sealed? && turn.tickClock.sendIntervalOver
    ensures !Run(frame, steps + [Type(keys)], interpret).client.log.dead
    ensures var f := Flush(Run(frame, steps + [Type(keys)], interpret).client, turn);
      f.wire.Some? && f.wire.value.newNum == Tip(f.state.transport.send)
  {
    hide *;
    var before := Run(frame, steps, interpret);
    var typing := steps + [Type(keys)];
    var sys := Run(frame, typing, interpret);
    RunSnoc(frame, steps, Type(keys), interpret);
    RunSnoc(frame, typing, FlushClient(turn), interpret);
    TypeShape(before, keys, interpret);
    NextGrows(sys, FlushClient(turn), interpret);
    NextGrows(before, Type(keys), interpret);
    FitsBefore(before, sys, Run(frame, typing + [FlushClient(turn)], interpret));
    RunInv(frame, steps, interpret);
    RunInv(frame, typing, interpret);
    InvInputs(before, frame, interpret);
    InvParts(sys, frame, interpret);
    InvParts(before, frame, interpret);
    RunUnhindered(frame, typing, interpret);
    ClientAlone(sys.history, sys.client, sys.uplink);
    FlushWire(sys, turn, interpret);
    FlushIs(sys.client, turn);
    PreparedFits(sys.client, turn);
    FlushFits(Run(frame, typing + [FlushClient(turn)], interpret));
    NewIsQueued(before.history, Keystroke(keys), sys.client.transport.send, sys.client.log, turn, sys.uplink);
    var q := Prepare(sys.client.transport.send, sys.client.log, turn);
    NothingHinders(sys.client);
    MaySend(Duplex(q.send, sys.client.transport.recv), turn.tickClock);
    TipIsSent(Duplex(q.send, sys.client.transport.recv), q.log, turn);
  }

  lemma {:induction false} FitsBefore<F>(a: System<F>, b: System<F>, c: System<F>)
    requires Grown(a.client.transport.send, b.client.transport.send) && Grown(b.client.transport.send, c.client.transport.send)
    requires Grown(a.server.send, b.server.send) && Grown(b.server.send, c.server.send)
    requires Fits(c)
    ensures Fits(a) && Fits(b)
  {}

  lemma {:induction false} FlushFits<F>(sys: System<F>)
    requires Fits(sys)
    ensures sys.client.transport.send.sentNum < U64_MAX
  {}

  lemma {:induction false} PreparedFits(c: ClientState, turn: Turn)
    requires !c.log.dead
    ensures Prepare(c.transport.send, c.log, turn).send.sentNum <= Flush(c, turn).state.transport.send.sentNum
  {
    hide Prepare, Tick, Flush;
    FlushParts(c, turn);
  }

  lemma {:induction false} NothingHinders(c: ClientState)
    requires Unhindered(c) && !c.log.dead
    ensures !c.transport.send.instructionTooLarge && !c.transport.send.cryptoExhausted
  {}

  lemma {:induction false} MaySend(d: Duplex, clock: Clock)
    ensures clock.sendIntervalOver ==> Ticks.MaySendNew(d, clock)
  {}

  /** Typing, one flush and one delivery: the server has rebuilt everything, the new keys last. */
  lemma {:induction false} TypedReaches<F>(frame: F, steps: seq<Step>, keys: seq<byte>, turn: Turn, clock: Clock, interpret: Interpreter<F>)
    requires !Run(frame, steps, interpret).client.log.dead && keys != [] && Action(Keystroke(keys))
    requires Fits(Run(frame, steps + [Type(keys)] + [FlushClient(turn)], interpret))
    requires turn.sealing.Sealed? && turn.tickClock.sendIntervalOver
    ensures var typing := steps + [Type(keys)];
            var wire := Flush(Run(frame, typing, interpret).client, turn).wire;
            var recv := Run(frame, typing + [FlushClient(turn)], interpret).server.recv;
      && wire.Some?
      && (wire.value.oldNum in recv.receivedNums && !(clock.quenched && |recv.receivedNums| > RECEIVED_STATE_CAP) ==>
            var done := Run(frame, typing + [FlushClient(turn)] + [ReachServer(wire.value, clock)], interpret);
            wire.value.newNum in done.inputs && done.inputs[wire.value.newNum] == AllEntered(steps) + [Keystroke(keys)])
  {
    hide *;
    var typing := steps + [Type(keys)];
    TypedIsSent(frame, steps, keys, turn, interpret);
    var wire := Flush(Run(frame, typing, interpret).client, turn).wire;
    var sys := Run(frame, typing + [FlushClient(turn)], interpret);
    RunSnoc(frame, typing, FlushClient(turn), interpret);
    FlushWire(Run(frame, typing, interpret), turn, interpret);
    EnteredMore(steps, keys);
    if wire.value.oldNum in sys.server.recv.receivedNums && !(clock.quenched && |sys.server.recv.receivedNums| > RECEIVED_STATE_CAP) {
      IsNewestSent(sys, wire, clock);
      SentIsWhole(frame, typing, turn, clock, interpret);
    }
  }

  lemma {:induction false} EnteredMore(steps: seq<Step>, keys: seq<byte>)
    requires keys != [] && Action(Keystroke(keys))
    ensures AllEntered(steps + [Type(keys)]) == AllEntered(steps) + [Keystroke(keys)]
  {
    hide Action;
    assert (steps + [Type(keys)])[..|steps|] == steps;
  }

  lemma {:induction false} IsNewestSent<F>(sys: System<F>, wire: Option<TransportInstruction>, clock: Clock)
    requires wire.Some? && wire.value.newNum == Tip(sys.client.transport.send)
    requires wire.value.oldNum in sys.server.recv.receivedNums
    requires !(clock.quenched && |sys.server.recv.receivedNums| > RECEIVED_STATE_CAP)
    ensures NewestSent(sys, wire, clock)
  {}
}
