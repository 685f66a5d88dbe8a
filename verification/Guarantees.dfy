/** What the protocol promises in every run, whatever the network and the timers do. */
module Guarantees {
  import opened Pb
  import opened Ssp
  import opened Input
  import opened Terminal
  import opened Channel
  import opened Ledger
  import opened Session
  import opened Delivery

  // ----------------------------------------------------------------- what was typed

  function Entered(step: Step): seq<UserInstruction> {
    match step
    case Type(keys) => if keys != [] && Action(Keystroke(keys)) then [Keystroke(keys)] else []
    case SetSize(cols, rows) =>
      if Action(UserInstruction([], cols, rows)) then [UserInstruction([], cols, rows)] else []
    case _ => []
  }

  /** Everything the user did, read off the steps of the run. */
  function AllEntered(steps: seq<Step>): seq<UserInstruction> {
    if steps == [] then [] else AllEntered(steps[..|steps| - 1]) + Entered(steps[|steps| - 1])
  }

  lemma {:induction false} NextLogs<F>(sys: System<F>, step: Step, interpret: Interpreter<F>)
    ensures var sys' := Next(sys, step, interpret);
      && sys'.history.log == (if sys.client.log.dead then sys.history.log else sys.history.log + Entered(step))
      && (sys.client.log.dead ==> sys'.client.log.dead)
  {
    hide Receive, Tick, Flush, FlushHistory, SetPendingFrom, ApplyHostState, Rebuild, Branched, Extended, OnWire, Action;
    if step.FlushClient? {
      FlushExtends(sys.history, sys.client, step.turn);
    }
  }

  /** Until the client dies the log is everything entered; afterwards it is a prefix of it. */
  lemma {:induction false} LogIsEntered<F>(frame: F, steps: seq<Step>, interpret: Interpreter<F>)
    ensures var sys := Run(frame, steps, interpret);
      && sys.history.log <= AllEntered(steps)
      && (!sys.client.log.dead ==> sys.history.log == AllEntered(steps))
    decreases |steps|
  {
    hide Next, Entered;
    if steps != [] {
      var before := Run(frame, steps[..|steps| - 1], interpret);
      LogIsEntered(frame, steps[..|steps| - 1], interpret);
      NextLogs(before, steps[|steps| - 1], interpret);
    }
  }

  // ---------------------------------------------------------------- input agreement

  lemma {:induction false} InvInputs<F>(sys: System<F>, frame: F, interpret: Interpreter<F>)
    requires Inv(sys, frame, interpret)
    ensures InputsOk(sys.inputs, sys.history)
    ensures HistoryOk(sys.history, sys.client.transport.send.sentNum)
    ensures KeepsRest(sys.history, sys.client.log)
    ensures sys.client.log.lastAcked < |sys.history.prefixes|
    ensures sys.history.prefixes[sys.client.log.lastAcked] == Drained(sys.history, sys.client.log)
    ensures sys.client.transport.send.ackedByRemote in sys.inputs
  {}

  lemma {:induction false} PrefixesNest(inputs: map<nat, seq<UserInstruction>>, h: History, top: nat, m: nat, n: nat)
    requires InputsOk(inputs, h) && HistoryOk(h, top) && m in inputs && n in inputs && m <= n
    ensures inputs[m] <= inputs[n] <= h.log
  {}

  /** Each state the server accepts rebuilds a prefix of what the user did, later states
      rebuild longer ones, and what the client has drained is what its acknowledged state
      rebuilds. */
  lemma {:induction false} InputAgreement<F>(frame: F, steps: seq<Step>, interpret: Interpreter<F>)
    requires Fits(Run(frame, steps, interpret))
    ensures var sys := Run(frame, steps, interpret);
      && (forall n :: n in sys.inputs ==> sys.inputs[n] <= AllEntered(steps))
      && (forall m, n :: m in sys.inputs && n in sys.inputs && m <= n ==> sys.inputs[m] <= sys.inputs[n])
      && sys.client.transport.send.ackedByRemote in sys.inputs
      && (sys.client.log.lastAcked == sys.client.transport.send.ackedByRemote ==>
            sys.inputs[sys.client.log.lastAcked] + sys.client.log.actions == sys.history.log)
  {
    hide Run, Inv, AllEntered;
    var sys := Run(frame, steps, interpret);
    var top := sys.client.transport.send.sentNum;
    RunInv(frame, steps, interpret);
    InvInputs(sys, frame, interpret);
    LogIsEntered(frame, steps, interpret);
    forall m, n | m in sys.inputs && n in sys.inputs && m <= n
      ensures sys.inputs[m] <= sys.inputs[n]
    {
      PrefixesNest(sys.inputs, sys.history, top, m, n);
    }
    forall n | n in sys.inputs
      ensures sys.inputs[n] <= AllEntered(steps)
    {
      PrefixesNest(sys.inputs, sys.history, top, n, n);
    }
  }

  // -------------------------------------------------------------- no stranded input

  lemma {:induction false} RunSnoc<F>(frame: F, steps: seq<Step>, step: Step, interpret: Interpreter<F>)
    ensures Run(frame, steps + [step], interpret) == Next(Run(frame, steps, interpret), step, interpret)
  {
    DropLast(steps, step);
  }

  /** The queue stays short, in order, and between the acknowledged and the last number. */
  predicate Bounded(s: Sender) {
    |s.outbound| <= SENT_STATE_CAP && Rising(s.outbound) && Placed(s.outbound, s.ackedByRemote, s.sentNum)
  }

  /** Every queued state leads a peer that holds its base to the prefix it stands for. */
  ghost predicate Leads(inputs: map<nat, seq<UserInstruction>>, st: OutboundState, log: seq<UserInstruction>) {
    st.oldNum in inputs ==>
      DecodeMessage(st.diff).Ok? && inputs[st.oldNum] + DecodeMessage(st.diff).value == log
  }

  lemma {:induction false} PrefixLeads(inputs: map<nat, seq<UserInstruction>>, h: History, top: nat, st: OutboundState)
    requires InputsOk(inputs, h) && HistoryOk(h, top) && st.oldNum <= st.newNum <= top
    requires st.diff == Between(h, st.oldNum, st.newNum) && h.prefixes[st.newNum] == |h.log|
    ensures Leads(inputs, st, h.log)
  {
    hide DecodeMessage, Between;
    BetweenDecodes(h, top, st.oldNum, st.newNum);
    if st.oldNum in inputs {
      ExtendPrefix(h.log, h.prefixes[st.oldNum], |h.log|);
      assert h.log[..|h.log|] == h.log;
    }
  }

  lemma {:induction false} SettledTip(h: History, l: Log, s: Sender, wire: set<TransportInstruction>)
    requires Settled(h, l, s, wire)
    ensures Bounded(s) && HistoryOk(h, s.sentNum)
    ensures s.outbound == [] ==> h.prefixes[s.ackedByRemote] == |h.log|
    ensures s.outbound != [] ==>
      var st := s.outbound[|s.outbound| - 1];
      && st.oldNum < st.newNum <= s.sentNum && h.prefixes[st.newNum] == |h.log|
      && st.diff == Between(h, st.oldNum, st.newNum)
  {
    hide Between, Actions;
    if s.outbound != [] {
      assert s.outbound[|s.outbound| - 1] in s.outbound;
    }
  }

  lemma {:induction false} SettledWhole(inputs: map<nat, seq<UserInstruction>>, h: History, l: Log, s: Sender, wire: set<TransportInstruction>)
    requires Settled(h, l, s, wire) && InputsOk(inputs, h)
    ensures Tip(s) in inputs ==> inputs[Tip(s)] == h.log
  {
    hide Between, Actions, DiffsOk, Emitted;
    if Tip(s) in inputs {
      assert h.log[..|h.log|] == h.log;
    }
  }

  lemma {:induction false} SettledLeads(inputs: map<nat, seq<UserInstruction>>, h: History, l: Log, s: Sender, wire: set<TransportInstruction>)
    requires Settled(h, l, s, wire) && InputsOk(inputs, h)
    ensures Bounded(s)
    ensures s.outbound == [] ==> s.ackedByRemote < |h.prefixes| && h.prefixes[s.ackedByRemote] == |h.log|
    ensures s.outbound != [] ==> Leads(inputs, s.outbound[|s.outbound| - 1], h.log)
  {
    hide *;
    SettledTip(h, l, s, wire);
    SettledAcked(h, l, s, wire);
    if s.outbound != [] {
      PrefixLeads(inputs, h, s.sentNum, s.outbound[|s.outbound| - 1]);
    }
  }

  lemma {:induction false} SettledAcked(h: History, l: Log, s: Sender, wire: set<TransportInstruction>)
    requires Settled(h, l, s, wire)
    ensures l.lastAcked == s.ackedByRemote < |h.prefixes|
    ensures h.prefixes[s.ackedByRemote] == |h.log| ==> l.actions == []
  {}

  /** After every flush of a live client either the whole log is acknowledged, and none of
      it is kept, or the newest queued state rebuilds the whole log from its base. */
  lemma {:induction false} NoStrandedInput<F>(frame: F, steps: seq<Step>, turn: Turn, interpret: Interpreter<F>)
    requires !Run(frame, steps, interpret).client.log.dead
    requires Fits(Run(frame, steps + [FlushClient(turn)], interpret))
    ensures var sys := Run(frame, steps + [FlushClient(turn)], interpret);
            var s := sys.client.transport.send;
      && Bounded(s)
      && (if s.outbound == [] then sys.client.log.actions == []
          else Leads(sys.inputs, s.outbound[|s.outbound| - 1], AllEntered(steps)))
      && (Tip(s) in sys.inputs ==> sys.inputs[Tip(s)] == AllEntered(steps))
      && s.ackedByRemote in sys.inputs
      && sys.inputs[s.ackedByRemote] + sys.client.log.actions == AllEntered(steps)
  {
    hide *;
    var before := Run(frame, steps, interpret);
    var sys := Run(frame, steps + [FlushClient(turn)], interpret);
    RunSnoc(frame, steps, FlushClient(turn), interpret);
    FlushedSettled(before, turn, frame, steps, interpret);
    SettledWhole(sys.inputs, sys.history, sys.client.log, sys.client.transport.send, sys.uplink);
    SettledLeads(sys.inputs, sys.history, sys.client.log, sys.client.transport.send, sys.uplink);
    SettledAcked(sys.history, sys.client.log, sys.client.transport.send, sys.uplink);
    LogIsEntered(frame, steps, interpret);
    InputAgreement(frame, steps + [FlushClient(turn)], interpret);
  }

  lemma {:induction false} FlushedSettled<F>(sys: System<F>, turn: Turn, frame: F, steps: seq<Step>, interpret: Interpreter<F>)
    requires sys == Run(frame, steps, interpret) && !sys.client.log.dead
    requires Fits(Next(sys, FlushClient(turn), interpret))
    ensures var sys' := Next(sys, FlushClient(turn), interpret);
      && Settled(sys'.history, sys'.client.log, sys'.client.transport.send, sys'.uplink)
      && InputsOk(sys'.inputs, sys'.history)
      && sys'.history.log == sys.history.log
  {
    hide Run, Inv, Flush, FlushHistory, OnWire, Settled, ClientOk, Emitted, InputsOk;
    NextGrows(sys, FlushClient(turn), interpret);
    RunInv(frame, steps, interpret);
    NextInv(sys, FlushClient(turn), frame, interpret);
    InvParts(sys, frame, interpret);
    InvInputs(Next(sys, FlushClient(turn), interpret), frame, interpret);
    FlushSettled(sys.history, sys.client, turn, sys.uplink);
    FlushExtends(sys.history, sys.client, turn);
  }

  lemma {:induction false} InvParts<F>(sys: System<F>, frame: F, interpret: Interpreter<F>)
    requires Inv(sys, frame, interpret)
    ensures ClientOk(sys.history, sys.client, sys.uplink) && Emitted(sys.client.transport.send, sys.uplink)
    ensures UpLinked(sys) && DownLinked(sys)
  {}

  /** The base that new input is built on is never replaced by the queueing function. */
  lemma {:induction false} BaseNeverSubstituted<F>(frame: F, steps: seq<Step>, turn: Turn, interpret: Interpreter<F>)
    requires Fits(Run(frame, steps, interpret))
    ensures var c := Run(frame, steps, interpret).client;
            var s := c.transport.send.(rebaseRequired := false);
            var b := ChooseBase(s, ProcessAcks(c.transport.send, c.log, turn.ackClock), turn.baseClock);
            BaseFor(s, b.oldNum) == b.oldNum
  {
    hide Run, Inv, ProcessAcks, ChooseBase;
    var sys := Run(frame, steps, interpret);
    RunInv(frame, steps, interpret);
    InvParts(sys, frame, interpret);
    ChosenBaseHeld(sys.history, sys.client, turn, sys.uplink);
  }

  lemma {:induction false} ChosenBaseHeld(h: History, c: ClientState, turn: Turn, wire: set<TransportInstruction>)
    requires ClientOk(h, c, wire) && Emitted(c.transport.send, wire)
    ensures var s := c.transport.send.(rebaseRequired := false);
            var b := ChooseBase(s, ProcessAcks(c.transport.send, c.log, turn.ackClock), turn.baseClock);
            BaseFor(s, b.oldNum) == b.oldNum
  {
    hide ProcessAcks, ChooseBase;
    var s := c.transport.send.(rebaseRequired := false);
    TipBounds(c.transport.send);
    ProcessAcksKeeps(h, c.transport.send, c.log, turn.ackClock);
    ChosenBase(h, s, ProcessAcks(c.transport.send, c.log, turn.ackClock), turn.baseClock);
  }

  // ------------------------------------------------------------------- base safety

  /** No watermark ever advertised exceeds a base still in use, and the acknowledged state
      is still held by the peer. */
  ghost predicate BasesHeld(s: Sender, r: Receiver, wire: set<TransportInstruction>) {
    && s.ackedByRemote in r.receivedNums
    && (forall ti :: ti in wire ==> ti.throwawayNum <= s.ackedByRemote)
    && (forall ti, st :: ti in wire && st in s.outbound ==> ti.throwawayNum <= st.oldNum)
  }

  lemma {:induction false} LinkedHeld(s: Sender, r: Receiver, wire: set<TransportInstruction>, back: set<TransportInstruction>, accepted: set<nat>)
    requires Linked(s, r, wire, back, accepted)
    ensures BasesHeld(s, r, wire)
  {}

  lemma {:induction false} BaseSafety<F>(frame: F, steps: seq<Step>, interpret: Interpreter<F>)
    requires Fits(Run(frame, steps, interpret))
    ensures var sys := Run(frame, steps, interpret);
      && BasesHeld(sys.client.transport.send, sys.server.recv, sys.uplink)
      && BasesHeld(sys.server.send, sys.client.transport.recv, sys.downlink)
  {
    hide Run, Inv, Linked, BasesHeld;
    var sys := Run(frame, steps, interpret);
    RunInv(frame, steps, interpret);
    InvParts(sys, frame, interpret);
    LinkedHeld(sys.client.transport.send, sys.server.recv, sys.uplink, sys.downlink, sys.inputs.Keys);
    LinkedHeld(sys.server.send, sys.client.transport.recv, sys.downlink, sys.uplink, sys.accepted);
  }

  /** A state built on the acknowledged one is refused only as a duplicate or under quench. */
  lemma {:induction false} RebasedIsTaken<F>(frame: F, steps: seq<Step>, ti: TransportInstruction, clock: Clock, interpret: Interpreter<F>)
    requires Fits(Run(frame, steps, interpret))
    requires ti in Run(frame, steps, interpret).uplink
    requires ti.oldNum == Run(frame, steps, interpret).client.transport.send.ackedByRemote
    ensures var sys := Run(frame, steps, interpret);
            var r := sys.server.recv;
      Accept(r, ti, clock).state.None? ==>
        ti.newNum in sys.inputs || (clock.quenched && |Honor(r, ti.throwawayNum).receivedNums| > RECEIVED_STATE_CAP)
  {
    hide Run, Inv, Accept, Linked, Honor;
    var sys := Run(frame, steps, interpret);
    RunInv(frame, steps, interpret);
    InvParts(sys, frame, interpret);
    AckedBaseHeld(sys.client.transport.send, sys.server.recv, sys.uplink, sys.downlink, sys.inputs.Keys, ti, clock);
  }

  // ------------------------------------------------------- the two indexes of the client

  lemma {:induction false} InvView<F>(sys: System<F>, frame: F, interpret: Interpreter<F>)
    requires Inv(sys, frame, interpret) && !sys.client.log.dead
    ensures ViewOk(sys.view, sys.client.transport.recv, sys.accepted, sys.branches, frame, interpret)
    ensures Accepting(sys.client.transport.recv, sys.accepted)
  {}

  /** The transport never admits a diff whose base the view has lost; the two hold the same
      numbers after each accepted diff. */
  lemma {:induction false} Lockstep<F>(frame: F, steps: seq<Step>, ti: TransportInstruction, clock: Clock, interpret: Interpreter<F>)
    requires var sys := Run(frame, steps, interpret); Fits(sys) && !sys.client.log.dead && ti in sys.downlink
    ensures var sys := Run(frame, steps, interpret);
            var r := sys.client.transport.recv;
            var a := Accept(r, ti, clock);
      && (forall n :: n in r.receivedNums ==> n in sys.view.states)
      && sys.view.latest == r.ackNum
      && (a.state.Some? ==>
            var v' := ApplyHostState(sys.view, interpret, a.state.value);
            !v'.UnavailableBase? && (v'.Shown? || v'.Kept? ==> InStep(v'.view, a.recv)))
  {
    hide Run, Inv, Accept, ApplyHostState, InStep;
    var sys := Run(frame, steps, interpret);
    RunInv(frame, steps, interpret);
    InvView(sys, frame, interpret);
    ShowDelivered(sys, ti, clock, frame, interpret);
  }

  /** The screen shown is the snapshot with the largest accepted number. */
  lemma {:induction false} ShowsLargest<F>(frame: F, steps: seq<Step>, interpret: Interpreter<F>)
    requires var sys := Run(frame, steps, interpret); Fits(sys) && !sys.client.log.dead
    ensures var sys := Run(frame, steps, interpret);
            var shown := Replay(frame, sys.branches, interpret, sys.view.latest);
      && sys.view.latest in sys.accepted && (forall n :: n in sys.accepted ==> n <= sys.view.latest)
      && shown.Some? && sys.view.displayed == shown.value.frame
  {
    hide Run, Inv, Replay;
    var sys := Run(frame, steps, interpret);
    RunInv(frame, steps, interpret);
    InvView(sys, frame, interpret);
  }

  /** Two runs, whatever each lost, repeated or reordered: where the server's history agrees,
      so do the snapshots. */
  lemma {:induction false} BranchConfluence<F>(frame: F, steps: seq<Step>, others: seq<Step>, interpret: Interpreter<F>, n: nat)
    requires var sys := Run(frame, steps, interpret); Fits(sys) && !sys.client.log.dead && n in sys.view.states
    requires var sys := Run(frame, others, interpret); Fits(sys) && !sys.client.log.dead && n in sys.view.states
    requires forall k :: k in Run(frame, steps, interpret).branches ==>
               k in Run(frame, others, interpret).branches
               && Run(frame, others, interpret).branches[k] == Run(frame, steps, interpret).branches[k]
    ensures Run(frame, steps, interpret).view.states[n] == Run(frame, others, interpret).view.states[n]
  {
    hide Run, Inv, Replay;
    var sys, sys' := Run(frame, steps, interpret), Run(frame, others, interpret);
    RunInv(frame, steps, interpret);
    RunInv(frame, others, interpret);
    InvView(sys, frame, interpret);
    InvView(sys', frame, interpret);
    ReplayExtends(frame, sys.branches, sys'.branches, interpret, n);
  }

  // -------------------------------------------------------------------- never back

  /** Neither the screen nor the echo acknowledgement goes back. */
  ghost predicate Forward<F>(v: View<F>, v': View<F>) {
    && v.latest <= v'.latest && v.echoAck <= v'.echoAck
    && (v.latest == v'.latest ==> v'.displayed == v.displayed && v'.echoAck == v.echoAck)
  }

  lemma {:induction false} ApplyForward<F>(v: View<F>, interpret: Interpreter<F>, d: ReceivedStateDiff)
    ensures var a := ApplyHostState(v, interpret, d); a.Shown? || a.Kept? ==> Forward(v, a.view)
  {}

  lemma {:induction false} NextForward<F>(sys: System<F>, step: Step, interpret: Interpreter<F>)
    ensures Forward(sys.view, Next(sys, step, interpret).view)
  {
    hide Receive, Tick, Flush, FlushHistory, SetPendingFrom, ApplyHostState, Rebuild, Branched, Extended, OnWire;
    if step.ReachClient? {
      var r := Receive(sys.client.transport, step.down, step.clientClock);
      if r.diff.Some? {
        ApplyForward(sys.view, interpret, r.diff.value);
      }
    }
  }

  lemma {:induction false} NeverBack<F>(frame: F, steps: seq<Step>, more: seq<Step>, interpret: Interpreter<F>)
    ensures Forward(Run(frame, steps, interpret).view, Run(frame, steps + more, interpret).view)
    ensures Grown(Run(frame, steps, interpret).client.transport.send, Run(frame, steps + more, interpret).client.transport.send)
    decreases |more|
  {
    hide Run, Next;
    if more == [] {
      assert steps + more == steps;
    } else {
      var init, last := more[..|more| - 1], more[|more| - 1];
      assert steps + more == (steps + init) + [last];
      NeverBack(frame, steps, init, interpret);
      RunSnoc(frame, steps + init, last, interpret);
      NextForward(Run(frame, steps + init, interpret), last, interpret);
      NextGrows(Run(frame, steps + init, interpret), last, interpret);
    }
  }
}
