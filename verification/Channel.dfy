/** What one direction of the protocol keeps: a sender, the instructions it ever emitted,
    and a receiver to which any of them may be delivered, late, twice or never. */
module Channel {
  import opened Basics
  import opened Pb
  import opened Ssp

  predicate Rising(q: seq<OutboundState>) {
    forall i, j :: 0 <= i < j < |q| ==> q[i].newNum < q[j].newNum
  }

  /** Numbered above the acknowledged state and at most `top`, on an older base. */
  predicate Placed(q: seq<OutboundState>, acked: nat, top: nat) {
    forall st :: st in q ==> st.oldNum < st.newNum && acked < st.newNum <= top
  }

  predicate SenderOk(s: Sender) {
    && s.localThrowaway == s.ackedByRemote <= s.sentNum
    && |s.outbound| <= SENT_STATE_CAP
    && |s.sentStates| <= SENT_STATE_CAP
    && Rising(s.outbound)
    && Placed(s.outbound, s.ackedByRemote, s.sentNum)
  }

  /** One (base, diff) per number: queued states and emitted instructions agree. */
  ghost predicate Matches(q: seq<OutboundState>, wire: set<TransportInstruction>) {
    && (forall ti, st :: ti in wire && st in q && ti.newNum == st.newNum
          ==> ti.oldNum == st.oldNum && ti.diff == st.diff)
    && (forall ti, tj :: ti in wire && tj in wire && ti.newNum == tj.newNum
          ==> ti.oldNum == tj.oldNum && ti.diff == tj.diff)
  }

  /** No advertised watermark reaches above a base the sender may still use. */
  ghost predicate BasesKept(s: Sender, wire: set<TransportInstruction>) {
    && (forall ti :: ti in wire ==> ti.throwawayNum <= ti.oldNum < ti.newNum <= s.sentNum)
    && (forall ti :: ti in wire ==> ti.throwawayNum <= s.ackedByRemote)
    && (forall ti, st :: ti in wire && st in s.outbound ==> ti.throwawayNum <= st.oldNum)
  }

  ghost predicate Emitted(s: Sender, wire: set<TransportInstruction>) {
    SenderOk(s) && Matches(s.outbound, wire) && BasesKept(s, wire)
  }

  // ----------------------------------------------------------- shrinking the queue

  lemma {:induction false} RetainRising(q: seq<OutboundState>, n: nat, keep: OutboundState -> bool)
    requires n <= |q| && Rising(q)
    ensures Rising(RetainUpTo(q, n, keep))
    ensures n < |q| ==> forall st :: st in RetainUpTo(q, n, keep) ==> st.newNum < q[n].newNum
  {
    RetainUpToMembers(q, n, keep);
    if n > 0 {
      RetainRising(q, n - 1, keep);
      var r := RetainUpTo(q, n - 1, keep);
      forall i, j | 0 <= i < j < |RetainUpTo(q, n, keep)|
        ensures RetainUpTo(q, n, keep)[i].newNum < RetainUpTo(q, n, keep)[j].newNum
      {
        if j == |r| {
          assert r[i] in r;
        }
      }
    }
  }

  lemma {:induction false} RetainLast(q: seq<OutboundState>, keep: OutboundState -> bool)
    requires q != [] && keep(q[|q| - 1])
    ensures Retain(q, keep) != [] && Retain(q, keep)[|Retain(q, keep)| - 1] == q[|q| - 1]
  {}

  /** Removing entries, whichever, keeps everything a sender promises. */
  lemma {:induction false} ShrinkKeeps(s: Sender, q: seq<OutboundState>, wire: set<TransportInstruction>)
    requires Emitted(s, wire)
    requires Rising(q) && |q| <= |s.outbound| && forall st :: st in q ==> st in s.outbound
    ensures Emitted(s.(outbound := q), wire)
  {}

  lemma {:induction false} RetainKeeps(s: Sender, keep: OutboundState -> bool, wire: set<TransportInstruction>)
    requires Emitted(s, wire)
    ensures Emitted(s.(outbound := Retain(s.outbound, keep)), wire)
  {
    RetainMembers(s.outbound, keep);
    RetainRising(s.outbound, |s.outbound|, keep);
    ShrinkKeeps(s, Retain(s.outbound, keep), wire);
  }

  lemma {:induction false} LastUnsentIsLast(q: seq<OutboundState>, n: nat)
    requires n <= |q|
    ensures var i := LastUnsent(q, n);
            (i >= 0 ==> q[i].lastSent.None?) && forall j :: i < j < n ==> q[j].lastSent.Some?
  {
    if n > 0 {
      LastUnsentIsLast(q, n - 1);
    }
  }

  lemma {:induction false} CoalesceKeeps(s: Sender, wire: set<TransportInstruction>)
    requires Emitted(s, wire)
    ensures Emitted(s.(outbound := Coalesce(s.outbound)), wire)
    ensures Tip(s.(outbound := Coalesce(s.outbound))) == Tip(s)
  {
    hide Emitted, Retain;
    var q := s.outbound;
    var i := LastUnsent(q, |q|);
    if i >= 0 {
      LastUnsentIsLast(q, |q|);
      RetainKeeps(s, SentOr(q[i].newNum), wire);
      RetainLast(q, SentOr(q[i].newNum));
    }
  }

  // ------------------------------------------------------------ the sender's steps

  lemma {:induction false} RemoveMembers<T>(s: seq<T>, i: nat)
    requires i < |s|
    ensures |Remove(s, i)| == |s| - 1
    ensures forall x :: x in Remove(s, i) ==> x in s
  {}

  lemma {:induction false} RemoveRising(q: seq<OutboundState>, i: nat)
    requires i < |q| && Rising(q)
    ensures Rising(Remove(q, i))
  {}

  lemma {:induction false} CappedQueue(q: seq<OutboundState>)
    requires Rising(q) && |q| <= SENT_STATE_CAP + 1
    ensures Rising(Capped(q)) && |Capped(q)| <= SENT_STATE_CAP && |Capped(q)| <= |q|
    ensures forall st :: st in Capped(q) ==> st in q
    ensures q != [] ==> Capped(q) != [] && Capped(q)[|Capped(q)| - 1] == q[|q| - 1]
  {
    if |q| > SENT_STATE_CAP {
      RemoveMembers(q, |q| - 16);
      RemoveRising(q, |q| - 16);
    }
  }

  /** The base a queued state gets is the one asked for if the peer may have it. */
  function BaseFor(s: Sender, oldNum: nat): nat {
    if oldNum == s.ackedByRemote || Ssp.Queued(s.outbound, oldNum) then oldNum else s.ackedByRemote
  }

  lemma {:induction false} AppendKeeps(s: Sender, st: OutboundState, wire: set<TransportInstruction>)
    requires Emitted(s, wire) && st.newNum == s.sentNum + 1
    requires s.ackedByRemote <= st.oldNum <= s.sentNum
    ensures Rising(s.outbound + [st])
    ensures Placed(s.outbound + [st], s.ackedByRemote, s.sentNum + 1)
    ensures Matches(s.outbound + [st], wire)
    ensures BasesKept(s.(sentNum := s.sentNum + 1, outbound := s.outbound + [st]), wire)
  {
    var q := s.outbound + [st];
    forall i, j | 0 <= i < j < |q|
      ensures q[i].newNum < q[j].newNum
    {
      assert q[i] in s.outbound;
    }
  }

  /** The sender once `st` is the newest of its states and the queue has been capped. */
  lemma {:induction false} CapKeeps(s: Sender, q: seq<OutboundState>, r: seq<OutboundState>, overflowed: bool, wire: set<TransportInstruction>)
    requires SenderOk(s) && Placed(q, s.ackedByRemote, s.sentNum + 1) && Matches(q, wire)
    requires BasesKept(s.(sentNum := s.sentNum + 1, outbound := q), wire)
    requires Rising(r) && |r| <= SENT_STATE_CAP && forall st :: st in r ==> st in q
    ensures Emitted(s.(sentNum := s.sentNum + 1, outbound := r, overflowed := overflowed), wire)
  {}

  lemma {:induction false} SetPendingKeeps(s: Sender, oldNum: nat, diff: seq<byte>, wire: set<TransportInstruction>)
    requires Emitted(s, wire) && s.sentNum < U64_MAX
    ensures var s' := SetPendingFrom(s, oldNum, diff);
            Emitted(s', wire) && s'.sentNum == s.sentNum + 1 && Tip(s') == s'.sentNum
    ensures var queued := OutboundState(BaseFor(s, oldNum), s.sentNum + 1, diff, None);
            forall st :: st in SetPendingFrom(s, oldNum, diff).outbound ==> st in s.outbound || st == queued
  {
    var st := OutboundState(BaseFor(s, oldNum), s.sentNum + 1, diff, None);
    var q := s.outbound + [st];
    AppendKeeps(s, st, wire);
    CappedQueue(q);
    CapKeeps(s, q, Capped(q), s.overflowed || |q| > SENT_STATE_CAP, wire);
    assert forall x :: x in q ==> x in s.outbound || x == st;
    SetPendingShape(s, oldNum, diff, st);
  }

  lemma {:induction false} SetPendingShape(s: Sender, oldNum: nat, diff: seq<byte>, st: OutboundState)
    requires s.sentNum < U64_MAX && st == OutboundState(BaseFor(s, oldNum), s.sentNum + 1, diff, None)
    ensures var q := s.outbound + [st];
      SetPendingFrom(s, oldNum, diff)
        == s.(sentNum := s.sentNum + 1, outbound := Capped(q), overflowed := s.overflowed || |q| > SENT_STATE_CAP)
  {}

  lemma {:induction false} MinBaseLow(q: seq<OutboundState>, n: nat, floor: nat)
    requires n <= |q|
    ensures MinBase(q, n, floor) <= floor
    ensures forall i :: 0 <= i < n ==> MinBase(q, n, floor) <= q[i].oldNum
  {
    if n > 0 {
      MinBaseLow(q, n - 1, floor);
    }
  }

  /** Same entries up to the time they were last sent. */
  predicate SameStates(q: seq<OutboundState>, q': seq<OutboundState>) {
    |q| == |q'| && forall i :: 0 <= i < |q| ==> q'[i].(lastSent := None) == q[i].(lastSent := None)
  }

  lemma {:induction false} SameStatesMembers(q: seq<OutboundState>, q': seq<OutboundState>)
    requires SameStates(q, q')
    ensures forall st' :: st' in q' ==> exists st :: st in q && st.(lastSent := None) == st'.(lastSent := None)
  {
    forall st' | st' in q'
      ensures exists st :: st in q && st.(lastSent := None) == st'.(lastSent := None)
    {
      var i :| 0 <= i < |q'| && q'[i] == st';
      assert q[i] in q;
    }
  }

  lemma {:induction false} SameStatesKeep(s: Sender, q: seq<OutboundState>, wire: set<TransportInstruction>)
    requires Emitted(s, wire) && SameStates(s.outbound, q)
    ensures Emitted(s.(outbound := q), wire)
    ensures Tip(s.(outbound := q)) == Tip(s)
  {
    SameStatesMembers(s.outbound, q);
    forall i, j | 0 <= i < j < |q|
      ensures q[i].newNum < q[j].newNum
    {
      assert q[i].(lastSent := None) == s.outbound[i].(lastSent := None);
      assert q[j].(lastSent := None) == s.outbound[j].(lastSent := None);
    }
  }

  lemma {:induction false} UnsendSame(q: seq<OutboundState>, n: nat)
    requires n <= |q|
    ensures |Unsend(q, n)| == n
    ensures forall i :: 0 <= i < n ==> Unsend(q, n)[i] == q[i].(lastSent := None)
  {
    if n > 0 {
      UnsendSame(q, n - 1);
    }
  }

  lemma {:induction false} SetMaxFragmentPayloadKeeps(s: Sender, wire: set<TransportInstruction>)
    requires Emitted(s, wire)
    ensures Emitted(SetMaxFragmentPayload(s), wire) && Tip(SetMaxFragmentPayload(s)) == Tip(s)
    ensures SameStates(s.outbound, SetMaxFragmentPayload(s).outbound)
  {
    UnsendSame(s.outbound, |s.outbound|);
    SameStatesKeep(s, Unsend(s.outbound, |s.outbound|), wire);
  }

  /** Picking a queued state changes only when it was last sent. */
  lemma {:induction false} PickQueued(s: Sender, i: nat, clock: Clock, wire: set<TransportInstruction>)
    requires Emitted(s, wire) && i < |s.outbound|
    ensures var p := Pick(s, i, clock);
      && Emitted(p.send, wire) && Tip(p.send) == Tip(s) && p.send.sentNum == s.sentNum
      && SameStates(s.outbound, p.send.outbound)
      && p.send.ackedByRemote == s.ackedByRemote
      && (p.oldNum, p.newNum, p.diff) == (s.outbound[i].oldNum, s.outbound[i].newNum, s.outbound[i].diff)
      && p.send.outbound[i].oldNum == p.oldNum && p.send.outbound[i].newNum == p.newNum
      && p.send.outbound[i].diff == p.diff
  {
    var p := Pick(s, i, clock);
    SameStatesKeep(s, p.send.outbound, wire);
  }

  lemma {:induction false} PickEmpty(s: Sender, clock: Clock, wire: set<TransportInstruction>)
    requires Emitted(s, wire) && s.sentNum < U64_MAX
    ensures var p := Pick(s, -1, clock);
      && Emitted(p.send, wire) && Tip(p.send) == Tip(s) && p.send.outbound == s.outbound
      && (p.oldNum, p.newNum, p.diff) == (Tip(s), s.sentNum + 1, [])
      && p.send.sentNum == s.sentNum + 1
      && s.ackedByRemote <= p.oldNum < p.newNum
  {
    if s.outbound != [] {
      assert s.outbound[|s.outbound| - 1] in s.outbound;
    }
  }

  /** A picked state that the queue and the wire agree on. */
  ghost predicate Consistent(p: Picked, wire: set<TransportInstruction>) {
    && p.oldNum < p.newNum <= p.send.sentNum
    && (p.send.ackedByRemote <= p.oldNum || exists st :: st in p.send.outbound && st.oldNum == p.oldNum)
    && (forall ti :: ti in wire && ti.newNum == p.newNum ==> ti.oldNum == p.oldNum && ti.diff == p.diff)
    && (forall st :: st in p.send.outbound && st.newNum == p.newNum ==> st.oldNum == p.oldNum && st.diff == p.diff)
  }

  lemma {:induction false} RisingInjective(q: seq<OutboundState>, st: OutboundState, st': OutboundState)
    requires Rising(q) && st in q && st' in q && st.newNum == st'.newNum
    ensures st == st'
  {
    var i :| 0 <= i < |q| && q[i] == st;
    var j :| 0 <= j < |q| && q[j] == st';
  }

  lemma {:induction false} PickConsistent(s: Sender, i: int, clock: Clock, wire: set<TransportInstruction>)
    requires Emitted(s, wire) && -1 <= i < |s.outbound| && (i < 0 ==> s.sentNum < U64_MAX)
    ensures Consistent(Pick(s, i, clock), wire)
  {
    var p := Pick(s, i, clock);
    if i >= 0 {
      PickQueued(s, i, clock, wire);
      var chosen := p.send.outbound[i];
      forall st | st in p.send.outbound && st.newNum == p.newNum
        ensures st == chosen
      {
        RisingInjective(p.send.outbound, st, chosen);
      }
    } else {
      PickEmpty(s, clock, wire);
    }
  }

  lemma {:induction false} InstructionKeeps(p: Picked, ackNum: nat, chaff: seq<byte>, wire: set<TransportInstruction>)
    requires Emitted(p.send, wire) && Consistent(p, wire)
    ensures Emitted(p.send, wire + {Instruction(p, ackNum, chaff)})
  {
    MinBaseLow(p.send.outbound, |p.send.outbound|, p.send.localThrowaway);
    forall st | st in p.send.outbound
      ensures MinBase(p.send.outbound, |p.send.outbound|, p.send.localThrowaway) <= st.oldNum
    {}
  }

  lemma {:induction false} SealKeeps(s: Sender, newNum: nat, sealing: Sealing, wire: set<TransportInstruction>)
    requires Emitted(s, wire)
    ensures Emitted(Seal(s, newNum, sealing), wire)
    ensures Seal(s, newNum, sealing).outbound == s.outbound
  {}

  /** What a tick adds to the wire. */
  function OnWire(wire: set<TransportInstruction>, ti: Option<TransportInstruction>): set<TransportInstruction> {
    if ti.Some? then wire + {ti.value} else wire
  }

  lemma {:induction false} SendKeeps(s: Sender, r: Receiver, clock: Clock, chaff: seq<byte>, sealing: Sealing, wire: set<TransportInstruction>)
    requires Emitted(s, wire)
    requires Send(s, r, clock, chaff, sealing).state.send.sentNum < U64_MAX
    ensures var t := Send(s, r, clock, chaff, sealing); Emitted(t.state.send, OnWire(wire, t.wire))
  {
    var i := Chosen(s, AckDue(r, clock), clock);
    var p := Pick(s, i, clock);
    PickConsistent(s, i, clock, wire);
    if i >= 0 {
      PickQueued(s, i, clock, wire);
    } else {
      PickEmpty(s, clock, wire);
    }
    InstructionKeeps(p, r.ackNum, chaff, wire);
    SealKeeps(p.send, p.newNum, sealing, wire);
    SealKeeps(p.send, p.newNum, sealing, wire + {Instruction(p, r.ackNum, chaff)});
  }

  lemma {:induction false} TickKeeps(d: Duplex, clock: Clock, chaff: seq<byte>, sealing: Sealing, wire: set<TransportInstruction>)
    requires Emitted(d.send, wire)
    requires Tick(d, clock, chaff, sealing).state.send.sentNum < U64_MAX
    ensures var t := Tick(d, clock, chaff, sealing); Emitted(t.state.send, OnWire(wire, t.wire))
  {
    var s := d.send.(outbound := Coalesce(d.send.outbound));
    CoalesceKeeps(d.send, wire);
    if SendDue(s, AckDue(d.recv, clock), clock) {
      SendKeeps(s, d.recv, clock, chaff, sealing, wire);
    }
  }

  lemma {:induction false} AdoptKeeps(s: Sender, ack: nat, wire: set<TransportInstruction>)
    requires Emitted(s, wire) && s.ackedByRemote < ack <= s.sentNum
    ensures Emitted(Adopt(s, ack), wire)
    ensures forall st :: st in Adopt(s, ack).outbound ==> st in s.outbound
  {
    RetainMembers(s.outbound, NewerThan(ack));
    RetainKeeps(s, NewerThan(ack), wire);
    var newer := Retain(s.outbound, NewerThan(ack));
    RetainMembers(newer, BasedFrom(ack));
    RetainKeeps(s.(outbound := newer), BasedFrom(ack), wire);
  }

  lemma {:induction false} ApplyAckKeeps(s: Sender, ack: nat, wire: set<TransportInstruction>)
    requires Emitted(s, wire)
    ensures Emitted(ApplyAck(s, ack), wire)
    ensures ApplyAck(s, ack).sentNum == s.sentNum
    ensures forall st :: st in ApplyAck(s, ack).outbound ==> st in s.outbound
    ensures ApplyAck(s, ack).ackedByRemote == s.ackedByRemote
         || (ApplyAck(s, ack).ackedByRemote == ack && s.ackedByRemote < ack)
  {
    if s.ackedByRemote < ack <= s.sentNum {
      AdoptKeeps(s.(sentStates := ForgetBefore(s.sentStates, ack)), ack, wire);
    }
  }

  // ------------------------------------------------------------------ the receiver

  /** The retained numbers are the accepted ones above the watermark. */
  ghost predicate Accepting(r: Receiver, accepted: set<nat>) {
    && (forall n :: n in r.receivedNums <==> n in accepted && n >= r.throwawayNum)
    && r.ackNum in accepted
    && (forall n :: n in accepted ==> n <= r.ackNum)
  }

  lemma {:induction false} HonorKeeps(r: Receiver, throwaway: nat, accepted: set<nat>)
    requires Accepting(r, accepted)
    ensures Accepting(Honor(r, throwaway), accepted)
    ensures Honor(r, throwaway).throwawayNum == Max(r.throwawayNum, throwaway)
    ensures Honor(r, throwaway).ackNum == r.ackNum
  {
    RetainMembers(r.receivedNums, AtLeast(throwaway));
  }

  function Extended(accepted: set<nat>, d: Option<ReceivedStateDiff>): set<nat> {
    if d.Some? then accepted + {d.value.newNum} else accepted
  }

  lemma {:induction false} AcceptKeeps(r: Receiver, ti: TransportInstruction, clock: Clock, accepted: set<nat>)
    requires Accepting(r, accepted) && ti.throwawayNum <= ti.oldNum < ti.newNum
    ensures var a := Accept(r, ti, clock);
      && Accepting(a.recv, Extended(accepted, a.state))
      && (a.recv.throwawayNum == r.throwawayNum || a.recv.throwawayNum == ti.throwawayNum)
      && (a.state.Some? ==>
            && a.state.value == ReceivedStateDiff(ti.oldNum, ti.newNum, a.recv.throwawayNum, ti.diff)
            && ti.newNum !in accepted && ti.oldNum in accepted && ti.oldNum in r.receivedNums
            && a.recv.throwawayNum <= ti.oldNum
            && a.recv.throwawayNum == Max(r.throwawayNum, ti.throwawayNum)
            && a.recv.ackNum == Max(r.ackNum, ti.newNum))
      && (a.state.None? ==> a.recv.ackNum == r.ackNum)
  {
    HonorKeeps(r, ti.throwawayNum, accepted);
  }

  // -------------------------------------------------------------- both ends together

  /** `wire` carries the sender's instructions, `back` the receiver's acknowledgements. */
  ghost predicate Linked(s: Sender, r: Receiver, wire: set<TransportInstruction>, back: set<TransportInstruction>, accepted: set<nat>) {
    && Emitted(s, wire)
    && Accepting(r, accepted)
    && 0 in accepted
    && s.ackedByRemote in accepted
    && r.throwawayNum <= s.ackedByRemote
    && (forall n :: n in accepted ==> n == 0 || exists ti :: ti in wire && ti.newNum == n)
    && (forall tj :: tj in back ==> tj.ackNum in accepted)
  }

  /** The acknowledged state is never pruned by the peer, so a state rebased on it cannot be
      refused for want of its base. */
  lemma {:induction false} AckedBaseHeld(s: Sender, r: Receiver, wire: set<TransportInstruction>, back: set<TransportInstruction>, accepted: set<nat>, ti: TransportInstruction, clock: Clock)
    requires Linked(s, r, wire, back, accepted)
    ensures s.ackedByRemote in r.receivedNums
    ensures ti in wire && ti.oldNum == s.ackedByRemote && Accept(r, ti, clock).state.None?
      ==> ti.newNum in accepted || (clock.quenched && |Honor(r, ti.throwawayNum).receivedNums| > RECEIVED_STATE_CAP)
  {}

  lemma {:induction false} DeliverKeeps(s: Sender, r: Receiver, wire: set<TransportInstruction>, back: set<TransportInstruction>, accepted: set<nat>, ti: TransportInstruction, clock: Clock)
    requires Linked(s, r, wire, back, accepted) && ti in wire
    ensures var a := Accept(r, ti, clock); Linked(s, a.recv, wire, back, Extended(accepted, a.state))
  {
    AcceptKeeps(r, ti, clock, accepted);
  }

  lemma {:induction false} AcknowledgeKeeps(s: Sender, r: Receiver, wire: set<TransportInstruction>, back: set<TransportInstruction>, accepted: set<nat>, tj: TransportInstruction)
    requires Linked(s, r, wire, back, accepted) && tj in back
    ensures Linked(ApplyAck(s, tj.ackNum), r, wire, back, accepted)
  {
    ApplyAckKeeps(s, tj.ackNum, wire);
  }

  /** The sender moved on and may have emitted one more instruction. */
  lemma {:induction false} SenderMoves(s: Sender, s': Sender, r: Receiver, wire: set<TransportInstruction>, wire': set<TransportInstruction>, back: set<TransportInstruction>, accepted: set<nat>)
    requires Linked(s, r, wire, back, accepted)
    requires Emitted(s', wire') && wire <= wire' && s'.ackedByRemote == s.ackedByRemote
    ensures Linked(s', r, wire', back, accepted)
  {
    forall n | n in accepted && n != 0
      ensures exists ti :: ti in wire' && ti.newNum == n
    {
      var ti :| ti in wire && ti.newNum == n;
      assert ti in wire';
    }
  }

  /** The receiver's endpoint emitted an instruction carrying its acknowledgement. */
  lemma {:induction false} ReceiverReports(s: Sender, r: Receiver, r': Receiver, wire: set<TransportInstruction>, back: set<TransportInstruction>, accepted: set<nat>, tj: Option<TransportInstruction>)
    requires Linked(s, r, wire, back, accepted)
    requires r' == r.(pendingDataAck := r'.pendingDataAck, sentAckNum := r'.sentAckNum)
    requires tj.Some? ==> tj.value.ackNum == r.ackNum
    ensures Linked(s, r', wire, OnWire(back, tj), accepted)
  {}

  lemma {:induction false} PickReports(s: Sender, i: int, clock: Clock)
    requires -1 <= i < |s.outbound|
    ensures Pick(s, i, clock).send.ackedByRemote == s.ackedByRemote
    ensures Pick(s, i, clock).send.sentNum >= s.sentNum
  {}

  lemma {:induction false} SendReports(s: Sender, r: Receiver, clock: Clock, chaff: seq<byte>, sealing: Sealing)
    ensures var t := Send(s, r, clock, chaff, sealing);
      && t.state.recv == r.(pendingDataAck := false, sentAckNum := r.ackNum)
      && (t.wire.Some? ==> t.wire.value.ackNum == r.ackNum)
      && t.state.send.ackedByRemote == s.ackedByRemote
      && t.state.send.sentNum >= s.sentNum
  {
    PickReports(s, Chosen(s, AckDue(r, clock), clock), clock);
  }

  lemma {:induction false} TickReports(d: Duplex, clock: Clock, chaff: seq<byte>, sealing: Sealing)
    ensures var t := Tick(d, clock, chaff, sealing);
      && t.state.recv == d.recv.(pendingDataAck := t.state.recv.pendingDataAck, sentAckNum := t.state.recv.sentAckNum)
      && (t.wire.Some? ==> t.wire.value.ackNum == d.recv.ackNum)
      && t.state.send.ackedByRemote == d.send.ackedByRemote
      && t.state.send.sentNum >= d.send.sentNum
  {
    SendReports(d.send.(outbound := Coalesce(d.send.outbound)), d.recv, clock, chaff, sealing);
  }
}
