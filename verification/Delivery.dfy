/** Delivering instructions: both ends keep the session's invariant, so every run does. */
module Delivery {
  import opened Basics
  import opened Pb
  import opened Ssp
  import opened Input
  import opened Terminal
  import opened Channel
  import opened Ledger
  import opened Session

  // ------------------------------------------------------- input reaching the server

  lemma {:induction false} BetweenDecodes(h: History, top: nat, a: nat, b: nat)
    requires HistoryOk(h, top) && a <= b <= top
    ensures h.prefixes[a] <= h.prefixes[b] <= |h.log|
    ensures DecodeMessage(Between(h, a, b)) == Ok(h.log[h.prefixes[a]..h.prefixes[b]])
  {
    UserMessageRoundTrip(h.log[h.prefixes[a]..h.prefixes[b]]);
  }

  lemma {:induction false} ExtendPrefix<T>(s: seq<T>, i: nat, j: nat)
    requires i <= j <= |s|
    ensures s[..i] + s[i..j] == s[..j]
  {}

  /** An accepted diff turns the base's prefix of the log into the new state's. */
  lemma {:induction false} RebuildKeeps(inputs: map<nat, seq<UserInstruction>>, h: History, top: nat, d: ReceivedStateDiff)
    requires InputsOk(inputs, h) && HistoryOk(h, top) && d.oldNum < d.newNum <= top
    requires d.oldNum in inputs && d.diff == Between(h, d.oldNum, d.newNum)
    ensures InputsOk(Rebuild(inputs, Some(d)), h)
    ensures Rebuild(inputs, Some(d)).Keys == inputs.Keys + {d.newNum}
  {
    BetweenDecodes(h, top, d.oldNum, d.newNum);
    ExtendPrefix(h.log, h.prefixes[d.oldNum], h.prefixes[d.newNum]);
  }

  lemma {:induction false} ClientHistory(h: History, c: ClientState, uplink: set<TransportInstruction>)
    requires ClientOk(h, c, uplink)
    ensures HistoryOk(h, c.transport.send.sentNum)
    ensures forall ti :: ti in uplink ==> ti.diff == Between(h, ti.oldNum, ti.newNum)
  {}

  lemma {:induction false} WireNumbers(s: Sender, wire: set<TransportInstruction>, ti: TransportInstruction)
    requires Emitted(s, wire) && ti in wire
    ensures ti.throwawayNum <= ti.oldNum < ti.newNum <= s.sentNum
  {}

  /** What a receiver reports of an instruction it accepts. */
  lemma {:induction false} AcceptReports(r: Receiver, ti: TransportInstruction, clock: Clock, accepted: set<nat>)
    requires Accepting(r, accepted) && ti.throwawayNum <= ti.oldNum < ti.newNum
    ensures var d := Accept(r, ti, clock).state;
      d.Some? ==> && d.value.oldNum == ti.oldNum && d.value.newNum == ti.newNum && d.value.diff == ti.diff
                  && ti.oldNum in accepted && ti.newNum !in accepted
  {
    AcceptKeeps(r, ti, clock, accepted);
  }

  lemma {:induction false} ReceiveInput(inputs: map<nat, seq<UserInstruction>>, h: History, s: Sender, r: Receiver, wire: set<TransportInstruction>, back: set<TransportInstruction>, ti: TransportInstruction, clock: Clock)
    requires Linked(s, r, wire, back, inputs.Keys) && ti in wire
    requires InputsOk(inputs, h) && HistoryOk(h, s.sentNum) && ti.diff == Between(h, ti.oldNum, ti.newNum)
    ensures var a := Accept(r, ti, clock);
      && InputsOk(Rebuild(inputs, a.state), h)
      && Rebuild(inputs, a.state).Keys == Extended(inputs.Keys, a.state)
  {
    WireNumbers(s, wire, ti);
    AcceptReports(r, ti, clock, inputs.Keys);
    var a := Accept(r, ti, clock);
    if a.state.Some? {
      RebuildKeeps(inputs, h, s.sentNum, a.state.value);
    }
  }

  lemma {:induction false} ReceiveParts(d: Duplex, ti: TransportInstruction, clock: Clock)
    ensures Receive(d, ti, clock)
         == if ti.protocolVersion != PROTOCOL_VERSION then Received(d, None)
            else var a := Accept(d.recv, ti, clock); Received(Duplex(ApplyAck(d.send, ti.ackNum), a.recv), a.state)
  {
    hide ApplyAck, Accept;
  }

  lemma {:induction false} DoReachServerInv<F>(sys: System<F>, ti: TransportInstruction, clock: Clock, frame: F, interpret: Interpreter<F>)
    requires Inv(sys, frame, interpret)
    ensures Inv(DoReachServer(sys, ti, clock), frame, interpret)
  {
    hide Receive, Linked, ViewOk, InputsOk, BranchesOk, ClientOk, Rebuild, Extended;
    if ti in sys.uplink {
      ReceiveParts(sys.server, ti, clock);
      if ti.protocolVersion == PROTOCOL_VERSION {
        ClientHistory(sys.history, sys.client, sys.uplink);
        ReceiveInput(sys.inputs, sys.history, sys.client.transport.send, sys.server.recv, sys.uplink, sys.downlink, ti, clock);
        DeliverKeeps(sys.client.transport.send, sys.server.recv, sys.uplink, sys.downlink, sys.inputs.Keys, ti, clock);
        Channel.AcknowledgeKeeps(sys.server.send, sys.client.transport.recv, sys.downlink, sys.uplink, sys.accepted, ti);
      } else {
        RebuildNone(sys.inputs);
      }
    }
  }

  lemma {:induction false} RebuildNone(inputs: map<nat, seq<UserInstruction>>)
    ensures Rebuild(inputs, None) == inputs
  {}

  // ------------------------------------------------- acknowledgements reaching the client

  lemma {:induction false} RetainUpToLength(q: seq<OutboundState>, n: nat, keep: OutboundState -> bool)
    requires n <= |q|
    ensures |RetainUpTo(q, n, keep)| <= n
    ensures |RetainUpTo(q, n, keep)| == n ==> RetainUpTo(q, n, keep) == q[..n]
  {
    if n > 0 {
      RetainUpToLength(q, n - 1, keep);
      assert q[..n] == q[..n - 1] + [q[n - 1]];
    }
  }

  /** Dropping what is not newer than `ack` leaves the newest entry, if anything. */
  lemma {:induction false} NewerTip(q: seq<OutboundState>, ack: nat)
    requires Rising(q)
    ensures var r := Retain(q, NewerThan(ack));
      if r == [] then q != [] ==> q[|q| - 1].newNum <= ack
      else q != [] && r[|r| - 1] == q[|q| - 1]
  {
    RetainMembers(q, NewerThan(ack));
    var r := Retain(q, NewerThan(ack));
    if r != [] {
      assert r[0] in q;
      var i :| 0 <= i < |q| && q[i] == r[0];
      assert q[i].newNum <= q[|q| - 1].newNum;
      RetainLast(q, NewerThan(ack));
    } else if q != [] {
      assert q[|q| - 1] in q;
      assert q[|q| - 1] !in r;
    }
  }

  /** Adopting an acknowledged state without losing a queued one keeps the tip's meaning. */
  lemma {:induction false} AdoptCovers(h: History, s: Sender, ack: nat)
    requires HistoryOk(h, s.sentNum) && CoversTip(h, s) && SenderOk(s) && s.ackedByRemote < ack <= s.sentNum
    requires AfterAck(s.outbound, ack, s.overflowed) == Retain(s.outbound, NewerThan(ack))
    ensures CoversTip(h, Adopt(s, ack))
  {
    NewerTip(s.outbound, ack);
    TipBounds(s);
    var newer := Retain(s.outbound, NewerThan(ack));
    if newer == [] {
      assert Tip(s) <= ack;
      assert h.prefixes[Tip(s)] <= h.prefixes[ack] <= h.prefixes[s.sentNum];
    }
  }

  lemma {:induction false} AdoptFlags(h: History, s: Sender, ack: nat)
    requires HistoryOk(h, s.sentNum) && SenderOk(s) && s.ackedByRemote < ack <= s.sentNum
    requires s.rebaseRequired || CoversTip(h, s)
    requires s.rebaseRequired ==> !s.overflowed
    ensures var s' := Adopt(s, ack); (s'.rebaseRequired || CoversTip(h, s')) && (s'.rebaseRequired ==> !s'.overflowed)
  {
    var newer := Retain(s.outbound, NewerThan(ack));
    RetainUpToLength(newer, |newer|, BasedFrom(ack));
    assert newer[..|newer|] == newer;
    if !Adopt(s, ack).rebaseRequired {
      AdoptCovers(h, s, ack);
    }
  }

  lemma {:induction false} ForgottenSame(h: History, s: Sender, nums: seq<nat>)
    ensures CoversTip(h, s.(sentStates := nums)) == CoversTip(h, s)
  {}

  lemma {:induction false} AckFlags(h: History, s: Sender, ack: nat, wire: set<TransportInstruction>)
    requires HistoryOk(h, s.sentNum) && Emitted(s, wire)
    requires s.rebaseRequired || CoversTip(h, s)
    requires s.rebaseRequired ==> !s.overflowed
    ensures var s' := ApplyAck(s, ack);
      (s'.rebaseRequired || CoversTip(h, s')) && (s'.rebaseRequired ==> !s'.overflowed)
  {
    hide Adopt, CoversTip;
    var s1 := s.(sentStates := ForgetBefore(s.sentStates, ack));
    ForgottenSame(h, s, ForgetBefore(s.sentStates, ack));
    if s.ackedByRemote < ack <= s.sentNum {
      AdoptFlags(h, s1, ack);
    }
  }

  lemma {:induction false} RaiseAcked(h: History, l: Log, acked: nat, acked': nat, top: nat)
    requires LedgerOk(h, l, acked, top) && acked <= acked' <= top
    ensures LedgerOk(h, l, acked', top)
  {}

  lemma {:induction false} AckClient(h: History, c: ClientState, ack: nat, recv: Receiver, wire: set<TransportInstruction>)
    requires ClientOk(h, c, wire) && Emitted(c.transport.send, wire)
    ensures ClientOk(h, c.(transport := Duplex(ApplyAck(c.transport.send, ack), recv)), wire)
  {
    hide CoversTip, Emitted, ApplyAck;
    var s := c.transport.send;
    var s' := ApplyAck(s, ack);
    ApplyAckKeeps(s, ack, wire);
    AckFlags(h, s, ack, wire);
    AckBounds(s', wire);
    RaiseAcked(h, c.log, s.ackedByRemote, s'.ackedByRemote, s.sentNum);
    SubDiffs(h, s.outbound, s'.outbound, wire);
  }

  lemma {:induction false} AckBounds(s: Sender, wire: set<TransportInstruction>)
    requires Emitted(s, wire)
    ensures s.ackedByRemote <= s.sentNum
  {}

  lemma {:induction false} KillClient(h: History, c: ClientState, wire: set<TransportInstruction>)
    requires ClientOk(h, c, wire)
    ensures ClientOk(h, c.(log := c.log.(dead := true)), wire)
  {
    var l := c.log.(dead := true);
    forall n | l.lastAcked <= n <= c.transport.send.sentNum
      ensures Recorded(h, l, n)
    {
      assert Recorded(h, c.log, n);
    }
  }

  // ---------------------------------------------------- screen states reaching the client

  /** The transport refused the instruction, perhaps after honouring its watermark. */
  lemma {:induction false} RefusedView<F>(v: View<F>, r: Receiver, ti: TransportInstruction, clock: Clock, accepted: set<nat>, branches: map<nat, Branch>, frame: F, interpret: Interpreter<F>)
    requires ViewOk(v, r, accepted, branches, frame, interpret)
    requires Accept(r, ti, clock).state.None?
    ensures ViewOk(v, Accept(r, ti, clock).recv, accepted, branches, frame, interpret)
  {
    RetainMembers(r.receivedNums, AtLeast(ti.throwawayNum));
  }

  /** The transport's numbers and the view's snapshots are then the same set. */
  ghost predicate InStep<F>(v: View<F>, r: Receiver) {
    (forall n :: n in r.receivedNums <==> n in v.states) && v.latest == r.ackNum
  }

  lemma {:induction false} AcceptedNums(r: Receiver, ti: TransportInstruction, clock: Clock, accepted: set<nat>)
    requires Accepting(r, accepted) && ti.throwawayNum <= ti.oldNum < ti.newNum
    requires Accept(r, ti, clock).state.Some?
    ensures var a := Accept(r, ti, clock);
      && a.state.value == ReceivedStateDiff(ti.oldNum, ti.newNum, a.recv.throwawayNum, ti.diff)
      && (forall n :: n in a.recv.receivedNums <==> (n in r.receivedNums && n >= a.recv.throwawayNum) || n == ti.newNum)
      && (forall n :: n in accepted && n >= a.recv.throwawayNum ==> n in r.receivedNums)
      && ti.newNum !in accepted && ti.oldNum in r.receivedNums && r.throwawayNum <= a.recv.throwawayNum <= ti.oldNum
      && a.recv.ackNum == Max(r.ackNum, ti.newNum) && r.ackNum in accepted && ti.oldNum <= r.ackNum
  {
    AcceptKeeps(r, ti, clock, accepted);
    RetainMembers(r.receivedNums, AtLeast(ti.throwawayNum));
  }

  /** Snapshots after an accepted diff. */
  lemma {:induction false} AppliedView<F>(v: View<F>, interpret: Interpreter<F>, d: ReceivedStateDiff)
    requires d.newNum !in v.states && d.oldNum in v.states
    ensures var a := ApplyHostState(v, interpret, d);
            var next := interpret(v.states[d.oldNum], d.diff, d.newNum);
      && (a.Shown? || a.Kept? <==> next.Some?)
      && !a.UnavailableBase?
      && (next.Some? ==>
            && (forall n :: n in a.view.states <==> (n in v.states && n >= d.throwawayNum) || n == d.newNum)
            && (forall n :: n in a.view.states ==> a.view.states[n] == if n == d.newNum then next.value else v.states[n])
            && a.view.latest == Max(v.latest, d.newNum)
            && a.view.displayed == (if d.newNum > v.latest then next.value.frame else v.displayed))
  {}

  lemma {:induction false} AcceptedView<F>(v: View<F>, r: Receiver, ti: TransportInstruction, clock: Clock, accepted: set<nat>, branches: map<nat, Branch>, frame: F, interpret: Interpreter<F>)
    requires ViewOk(v, r, accepted, branches, frame, interpret) && Accepting(r, accepted)
    requires ti.throwawayNum <= ti.oldNum < ti.newNum
    requires ti.newNum in branches && branches[ti.newNum] == Branch(ti.oldNum, ti.diff)
    requires Accept(r, ti, clock).state.Some?
    ensures var a := Accept(r, ti, clock);
            var v' := ApplyHostState(v, interpret, a.state.value);
      && !v'.UnavailableBase?
      && (v'.Shown? || v'.Kept? ==>
            && ViewOk(v'.view, a.recv, Extended(accepted, a.state), branches, frame, interpret)
            && InStep(v'.view, a.recv))
  {
    hide Accept, Accepting, ApplyHostState, Replay;
    var a := Accept(r, ti, clock);
    var d := a.state.value;
    AcceptedNums(r, ti, clock, accepted);
    AppliedView(v, interpret, d);
    ReplayStep(frame, branches, interpret, ti.newNum);
  }

  lemma {:induction false} ReplayStep<F>(frame: F, branches: map<nat, Branch>, interpret: Interpreter<F>, n: nat)
    requires n > 0 && n in branches && branches[n].oldNum < n
    requires Replay(frame, branches, interpret, branches[n].oldNum).Some?
    ensures Replay(frame, branches, interpret, n)
         == interpret(Replay(frame, branches, interpret, branches[n].oldNum).value, branches[n].diff, n)
  {}

  lemma {:induction false} WireBranch(branches: map<nat, Branch>, wire: set<TransportInstruction>, ti: TransportInstruction)
    requires BranchesOk(branches, wire) && ti in wire
    ensures ti.newNum in branches && branches[ti.newNum] == Branch(ti.oldNum, ti.diff)
  {}

  lemma {:induction false} LinkedAccepting(s: Sender, r: Receiver, wire: set<TransportInstruction>, back: set<TransportInstruction>, accepted: set<nat>)
    requires Linked(s, r, wire, back, accepted)
    ensures Emitted(s, wire) && Accepting(r, accepted)
  {}

  lemma {:induction false} DeliverToClient<F>(sys: System<F>, ti: TransportInstruction, clock: Clock, frame: F, interpret: Interpreter<F>)
    requires Inv(sys, frame, interpret) && ti in sys.downlink
    ensures var a := Accept(sys.client.transport.recv, ti, clock);
            var s := ApplyAck(sys.client.transport.send, ti.ackNum);
      && Linked(s, sys.server.recv, sys.uplink, sys.downlink, sys.inputs.Keys)
      && Linked(sys.server.send, a.recv, sys.downlink, sys.uplink, Extended(sys.accepted, a.state))
      && ClientOk(sys.history, sys.client.(transport := Duplex(s, a.recv)), sys.uplink)
  {
    hide Linked, ViewOk, InputsOk, BranchesOk, ClientOk, Accept, ApplyAck, Extended;
    LinkedAccepting(sys.client.transport.send, sys.server.recv, sys.uplink, sys.downlink, sys.inputs.Keys);
    Channel.AcknowledgeKeeps(sys.client.transport.send, sys.server.recv, sys.uplink, sys.downlink, sys.inputs.Keys, ti);
    DeliverKeeps(sys.server.send, sys.client.transport.recv, sys.downlink, sys.uplink, sys.accepted, ti, clock);
    AckClient(sys.history, sys.client, ti.ackNum, Accept(sys.client.transport.recv, ti, clock).recv, sys.uplink);
  }

  /** The client's snapshots after one delivery, unless it refuses the diff and dies. */
  lemma {:induction false} ShowDelivered<F>(sys: System<F>, ti: TransportInstruction, clock: Clock, frame: F, interpret: Interpreter<F>)
    requires Inv(sys, frame, interpret) && !sys.client.log.dead && ti in sys.downlink
    ensures var a := Accept(sys.client.transport.recv, ti, clock);
      if a.state.None? then ViewOk(sys.view, a.recv, sys.accepted, sys.branches, frame, interpret)
      else
        var v' := ApplyHostState(sys.view, interpret, a.state.value);
        && !v'.UnavailableBase?
        && (v'.Shown? || v'.Kept? ==>
              && ViewOk(v'.view, a.recv, Extended(sys.accepted, a.state), sys.branches, frame, interpret)
              && InStep(v'.view, a.recv))
  {
    hide Linked, ViewOk, InputsOk, BranchesOk, ClientOk, Accept, ApplyAck, Extended, ApplyHostState, InStep;
    var r := sys.client.transport.recv;
    LinkedAccepting(sys.server.send, r, sys.downlink, sys.uplink, sys.accepted);
    WireNumbers(sys.server.send, sys.downlink, ti);
    WireBranch(sys.branches, sys.downlink, ti);
    if Accept(r, ti, clock).state.None? {
      RefusedView(sys.view, r, ti, clock, sys.accepted, sys.branches, frame, interpret);
    } else {
      AcceptedView(sys.view, r, ti, clock, sys.accepted, sys.branches, frame, interpret);
    }
  }

  lemma {:induction false} ExtendedNone(accepted: set<nat>)
    ensures Extended(accepted, None) == accepted
  {}

  lemma {:induction false} DoReachClientInv<F>(sys: System<F>, ti: TransportInstruction, clock: Clock, frame: F, interpret: Interpreter<F>)
    requires Inv(sys, frame, interpret)
    ensures Inv(DoReachClient(sys, ti, clock, interpret), frame, interpret)
  {
    hide Receive, Linked, ViewOk, InputsOk, BranchesOk, ClientOk, Accept, ApplyAck, Extended, ApplyHostState, InStep;
    if !sys.client.log.dead && ti in sys.downlink {
      ReceiveParts(sys.client.transport, ti, clock);
      ExtendedNone(sys.accepted);
      if ti.protocolVersion == PROTOCOL_VERSION {
        DeliverToClient(sys, ti, clock, frame, interpret);
        ShowDelivered(sys, ti, clock, frame, interpret);
        KillClient(sys.history, sys.client.(transport := Receive(sys.client.transport, ti, clock).state), sys.uplink);
      }
    }
  }

  // ------------------------------------------------------------------ the server's steps

  /** A longer server history replays the states of a shorter one unchanged. */
  lemma {:induction false} ReplayExtends<F>(frame: F, branches: map<nat, Branch>, more: map<nat, Branch>, interpret: Interpreter<F>, n: nat)
    requires forall k :: k in branches ==> k in more && more[k] == branches[k]
    requires Replay(frame, branches, interpret, n).Some?
    ensures Replay(frame, more, interpret, n) == Replay(frame, branches, interpret, n)
    decreases n
  {
    if n > 0 {
      ReplayExtends(frame, branches, more, interpret, branches[n].oldNum);
    }
  }

  lemma {:induction false} LongerView<F>(v: View<F>, r: Receiver, accepted: set<nat>, branches: map<nat, Branch>, more: map<nat, Branch>, frame: F, interpret: Interpreter<F>)
    requires ViewOk(v, r, accepted, branches, frame, interpret)
    requires forall k :: k in branches ==> k in more && more[k] == branches[k]
    ensures ViewOk(v, r, accepted, more, frame, interpret)
  {
    forall n | n in v.states
      ensures Replay(frame, more, interpret, n) == Some(v.states[n])
    {
      ReplayExtends(frame, branches, more, interpret, n);
    }
  }

  /** A number is never emitted with two bases or two diffs, so nothing recorded changes. */
  lemma {:induction false} BranchedKeeps(branches: map<nat, Branch>, s: Sender, wire: set<TransportInstruction>, ti: Option<TransportInstruction>)
    requires BranchesOk(branches, wire) && Emitted(s, OnWire(wire, ti))
    ensures BranchesOk(Branched(branches, ti), OnWire(wire, ti))
    ensures forall k :: k in branches ==> k in Branched(branches, ti) && Branched(branches, ti)[k] == branches[k]
  {
    if ti.Some? {
      var more := Branched(branches, ti);
      forall n | n in more
        ensures exists tj :: tj in OnWire(wire, ti) && tj.newNum == n
      {
        if n in branches {
          var tj :| tj in wire && tj.newNum == n;
          assert tj in OnWire(wire, ti);
        } else {
          assert ti.value in OnWire(wire, ti);
        }
      }
      if ti.value.newNum in branches {
        var tj :| tj in wire && tj.newNum == ti.value.newNum;
        assert tj in OnWire(wire, ti) && ti.value in OnWire(wire, ti);
      }
    }
  }

  lemma {:induction false} DoTickServerInv<F>(sys: System<F>, clock: Clock, chaff: seq<byte>, sealing: Sealing, frame: F, interpret: Interpreter<F>)
    requires Inv(sys, frame, interpret) && Fits(DoTickServer(sys, clock, chaff, sealing))
    ensures Inv(DoTickServer(sys, clock, chaff, sealing), frame, interpret)
  {
    hide Tick, Linked, ViewOk, InputsOk, BranchesOk, ClientOk, OnWire, Branched, Emitted;
    var t := Tick(sys.server, clock, chaff, sealing);
    var wire := OnWire(sys.downlink, t.wire);
    LinkedSender(sys.server.send, sys.client.transport.recv, sys.downlink, sys.uplink, sys.accepted);
    TickKeeps(sys.server, clock, chaff, sealing, sys.downlink);
    TickReports(sys.server, clock, chaff, sealing);
    MoreOnWire(sys.downlink, t.wire);
    SenderMoves(sys.server.send, t.state.send, sys.client.transport.recv, sys.downlink, wire, sys.uplink, sys.accepted);
    ReceiverReports(sys.client.transport.send, sys.server.recv, t.state.recv, sys.uplink, sys.downlink, sys.inputs.Keys, t.wire);
    BranchedKeeps(sys.branches, t.state.send, sys.downlink, t.wire);
    if !sys.client.log.dead {
      LongerView(sys.view, sys.client.transport.recv, sys.accepted, sys.branches, Branched(sys.branches, t.wire), frame, interpret);
    }
  }

  lemma {:induction false} SetPendingCounts(s: Sender, base: nat, diff: seq<byte>)
    ensures SetPendingFrom(s, base, diff).sentNum == SatInc(s.sentNum)
    ensures SetPendingFrom(s, base, diff).ackedByRemote == s.ackedByRemote
  {}

  lemma {:induction false} ServerShowsInv<F>(sys: System<F>, base: nat, diff: seq<byte>, frame: F, interpret: Interpreter<F>)
    requires Inv(sys, frame, interpret) && Fits(Next(sys, ServerShows(base, diff), interpret))
    ensures Inv(Next(sys, ServerShows(base, diff), interpret), frame, interpret)
  {
    hide SetPendingFrom, Linked, ViewOk, InputsOk, BranchesOk, ClientOk, Emitted;
    var s := sys.server.send;
    SetPendingCounts(s, base, diff);
    SatIncBelow(s.sentNum);
    LinkedSender(s, sys.client.transport.recv, sys.downlink, sys.uplink, sys.accepted);
    SetPendingKeeps(s, base, diff, sys.downlink);
    SenderMoves(s, SetPendingFrom(s, base, diff), sys.client.transport.recv, sys.downlink, sys.downlink, sys.uplink, sys.accepted);
  }

  // ------------------------------------------------------------------------------ runs

  /** Numbers only grow: states, acknowledgements, watermarks, and the displayed state. */
  predicate Grown(s: Sender, s': Sender) {
    s.sentNum <= s'.sentNum && s.ackedByRemote <= s'.ackedByRemote
  }

  lemma {:induction false} ApplyAckGrows(s: Sender, ack: nat)
    ensures Grown(s, ApplyAck(s, ack))
  {}

  lemma {:induction false} ReceiveGrows(d: Duplex, ti: TransportInstruction, clock: Clock)
    ensures Grown(d.send, Receive(d, ti, clock).state.send)
  {
    hide ApplyAck, Accept;
    ApplyAckGrows(d.send, ti.ackNum);
  }

  lemma {:induction false} TickGrows(d: Duplex, clock: Clock, chaff: seq<byte>, sealing: Sealing)
    ensures Grown(d.send, Tick(d, clock, chaff, sealing).state.send)
  {
    hide Tick;
    TickReports(d, clock, chaff, sealing);
  }

  lemma {:induction false} PreparedGrows(s: Sender, l: Log, turn: Turn)
    ensures Grown(s, Prepare(s, l, turn).send)
  {
    hide ProcessAcks, ChooseBase;
  }

  lemma {:induction false} FlushGrows(c: ClientState, turn: Turn)
    ensures Grown(c.transport.send, Flush(c, turn).state.transport.send)
  {
    hide Prepare, Tick;
    if !c.log.dead {
      var q := Prepare(c.transport.send, c.log, turn);
      PreparedGrows(c.transport.send, c.log, turn);
      TickGrows(Duplex(q.send, c.transport.recv), turn.tickClock, turn.chaff, turn.sealing);
      FlushParts(c, turn);
    }
  }

  lemma {:induction false} NextGrows<F>(sys: System<F>, step: Step, interpret: Interpreter<F>)
    ensures Grown(sys.client.transport.send, Next(sys, step, interpret).client.transport.send)
    ensures Grown(sys.server.send, Next(sys, step, interpret).server.send)
  {
    hide Receive, Tick, Flush, FlushHistory, SetPendingFrom, ApplyHostState, Rebuild, Branched, Extended, OnWire;
    match step
    case FlushClient(turn) => FlushGrows(sys.client, turn);
    case ReachServer(ti, clock) => ReceiveGrows(sys.server, ti, clock);
    case ReachClient(ti, clock) => ReceiveGrows(sys.client.transport, ti, clock);
    case ServerShows(base, diff) => SetPendingCounts(sys.server.send, base, diff);
    case TickServer(clock, chaff, sealing) => TickGrows(sys.server, clock, chaff, sealing);
    case _ =>
  }

  lemma {:induction false} NextInv<F>(sys: System<F>, step: Step, frame: F, interpret: Interpreter<F>)
    requires Inv(sys, frame, interpret) && Fits(Next(sys, step, interpret))
    ensures Inv(Next(sys, step, interpret), frame, interpret)
  {
    hide Inv, DoFlush, DoReachServer, DoReachClient, DoTickServer, Do, SetPendingFrom;
    match step
    case Type(keys) => DoInv(sys, Keystroke(keys), frame, interpret);
    case SetSize(cols, rows) => DoInv(sys, UserInstruction([], cols, rows), frame, interpret);
    case FlushClient(turn) => DoFlushInv(sys, turn, frame, interpret);
    case ReachServer(ti, clock) => DoReachServerInv(sys, ti, clock, frame, interpret);
    case ReachClient(ti, clock) => DoReachClientInv(sys, ti, clock, frame, interpret);
    case ServerShows(base, diff) => ServerShowsInv(sys, base, diff, frame, interpret);
    case TickServer(clock, chaff, sealing) => DoTickServerInv(sys, clock, chaff, sealing, frame, interpret);
  }

  /** The invariant holds in every reachable state. */
  lemma {:induction false} RunInv<F>(frame: F, steps: seq<Step>, interpret: Interpreter<F>)
    requires Fits(Run(frame, steps, interpret))
    ensures Inv(Run(frame, steps, interpret), frame, interpret)
    decreases |steps|
  {
    hide Inv, Next;
    if steps == [] {
      StartInv(frame, interpret);
    } else {
      var before := Run(frame, steps[..|steps| - 1], interpret);
      NextGrows(before, steps[|steps| - 1], interpret);
      RunInv(frame, steps[..|steps| - 1], interpret);
      NextInv(before, steps[|steps| - 1], frame, interpret);
    }
  }
}
