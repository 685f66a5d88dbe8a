/** What a tick puts on the wire: the newest state never sent, or one that is overdue, or an empty
    one, or nothing. */
module Ticks {
  import opened Basics
  import opened Pb
  import opened Ssp
  import opened Channel

  // --------------------------------------------------------------------- the queue, read off

  /** Entry `i` is the newest of those never sent. */
  predicate NewestUnsent(q: seq<OutboundState>, i: nat) {
    i < |q| && q[i].lastSent.None? && forall j :: i < j < |q| ==> q[j].lastSent.Some?
  }

  predicate Overdue(st: OutboundState, clock: Clock) {
    && st.lastSent.Some?
    && (if clock.now > st.lastSent.value then clock.now - st.lastSent.value else 0) >= clock.retransmitAfter
  }

  /** Entry `i` is the newest of those sent so long ago that they are sent again. */
  predicate NewestOverdue(q: seq<OutboundState>, i: nat, clock: Clock) {
    i < |q| && Overdue(q[i], clock) && forall j :: i < j < |q| ==> !Overdue(q[j], clock)
  }

  predicate AnyUnsent(q: seq<OutboundState>) { exists i :: 0 <= i < |q| && q[i].lastSent.None? }

  predicate AnyOverdue(q: seq<OutboundState>, clock: Clock) { exists i :: 0 <= i < |q| && Overdue(q[i], clock) }

  /** An acknowledgement is waiting and its time has come. */
  predicate Answering(r: Receiver, clock: Clock) {
    || (r.pendingDataAck && clock.ackDelayOver)
    || (r.sentAckNum < r.ackNum && (clock.heartbeatOver || r.ackNum == U64_MAX))
  }

  /** The pace allows a new state, or something has to be sent anyhow. */
  predicate MaySendNew(d: Duplex, clock: Clock) {
    !d.send.pacing || d.send.allowImmediate || clock.sendIntervalOver || Answering(d.recv, clock) || d.send.forceSend
  }

  predicate SendsNew(d: Duplex, clock: Clock, i: nat) { NewestUnsent(d.send.outbound, i) && MaySendNew(d, clock) }

  predicate SendsAgain(d: Duplex, clock: Clock, i: nat) {
    !(AnyUnsent(d.send.outbound) && MaySendNew(d, clock)) && NewestOverdue(d.send.outbound, i, clock)
  }

  /** Nothing queued is to be sent, but an answer, a heartbeat or a forced send is due. */
  predicate SendsEmpty(d: Duplex, clock: Clock) {
    && !(AnyUnsent(d.send.outbound) && MaySendNew(d, clock)) && !AnyOverdue(d.send.outbound, clock)
    && (Answering(d.recv, clock) || d.send.forceSend || (d.send.outbound == [] && clock.heartbeatOver))
  }

  // ------------------------------------------------------------------------- what comes out

  /** No base still in use lies below the watermark, and it is not lower than it has to be. */
  predicate Watermark(s: Sender, n: nat) {
    && n <= s.localThrowaway && (forall st :: st in s.outbound ==> n <= st.oldNum)
    && (n == s.localThrowaway || exists st :: st in s.outbound && n == st.oldNum)
  }

  predicate Instructs(ti: TransportInstruction, s: Sender, r: Receiver, oldNum: nat, newNum: nat, diff: seq<byte>, chaff: seq<byte>) {
    && ti.protocolVersion == 2 && ti.oldNum == oldNum && ti.newNum == newNum && ti.diff == diff
    && ti.ackNum == r.ackNum && ti.chaff == chaff && Watermark(s, ti.throwawayNum)
  }

  /** What every send leaves behind, beside the queue and the state number. */
  predicate Reported(d: Duplex, t: Ticked, newNum: nat, sealing: Sealing) {
    var s, s' := d.send, t.state.send;
    && t.state.recv == d.recv.(pendingDataAck := false, sentAckNum := d.recv.ackNum)
    && !s'.forceSend && s'.ackedByRemote == s.ackedByRemote && s'.localThrowaway == s.localThrowaway
    && s'.overflowed == s.overflowed && s'.rebaseRequired == s.rebaseRequired && s'.pacing == s.pacing
    && s'.instructionTooLarge == (s.instructionTooLarge || sealing.TooLarge?)
    && s'.cryptoExhausted == (s.cryptoExhausted || sealing.Exhausted?)
    && (sealing.Sealed? ==> newNum in s'.sentStates) && (!sealing.Sealed? ==> s'.sentStates == s.sentStates)
  }

  predicate Emits(d: Duplex, t: Ticked, oldNum: nat, newNum: nat, diff: seq<byte>, chaff: seq<byte>, sealing: Sealing) {
    && Reported(d, t, newNum, sealing)
    && (if sealing.Sealed? then t.wire.Some? && Instructs(t.wire.value, t.state.send, d.recv, oldNum, newNum, diff, chaff)
        else t.wire.None?)
  }

  /** The entries that stay, with entry `n` marked as sent now. */
  predicate Marked(q: seq<OutboundState>, q': seq<OutboundState>, n: nat, now: nat) {
    && Rising(q')
    && (forall st :: st in q' ==> exists o :: o in q && Remains(q, o) && st == if o.newNum == n then o.(lastSent := Some(now)) else o)
    && (forall o :: o in q && Remains(q, o) ==> (if o.newNum == n then o.(lastSent := Some(now)) else o) in q')
  }

  /** Sent already, or the newest of those never sent. */
  predicate Remains(q: seq<OutboundState>, o: OutboundState) {
    o.lastSent.Some? || exists i :: 0 <= i < |q| && NewestUnsent(q, i) && o == q[i]
  }

  // --------------------------------------------------------------------------- coalescing

  lemma {:induction false} OneNewest(q: seq<OutboundState>, i: nat, j: nat)
    requires NewestUnsent(q, i) && NewestUnsent(q, j)
    ensures i == j
  {}

  lemma {:induction false} LastUnsentIs(q: seq<OutboundState>)
    ensures var i := LastUnsent(q, |q|);
      if i >= 0 then NewestUnsent(q, i) else !AnyUnsent(q)
  {
    LastUnsentIsLast(q, |q|);
  }

  lemma {:induction false} RisingDistinct(q: seq<OutboundState>, o: OutboundState, i: nat)
    requires Rising(q) && o in q && i < |q| && o.newNum == q[i].newNum
    ensures o == q[i]
  {
    var j :| 0 <= j < |q| && q[j] == o;
    if j != i {
      assert q[j].newNum != q[i].newNum;
    }
  }

  lemma {:induction false} RetainsAll(q: seq<OutboundState>, keep: OutboundState -> bool)
    ensures Retain(q, keep) == RetainUpTo(q, |q|, keep)
  {}

  /** Coalescing keeps what was sent and the newest of the rest, in order. */
  lemma {:induction false} CoalesceIs(q: seq<OutboundState>)
    requires Rising(q)
    ensures Rising(Coalesce(q)) && forall o :: o in Coalesce(q) <==> o in q && Remains(q, o)
  {
    hide Retain;
    LastUnsentIs(q);
    var i := LastUnsent(q, |q|);
    if i >= 0 {
      RetainMembers(q, SentOr(q[i].newNum));
      RetainRising(q, |q|, SentOr(q[i].newNum));
      RetainsAll(q, SentOr(q[i].newNum));
      forall o
        ensures o in Coalesce(q) <==> o in q && Remains(q, o)
      {
        if o in q && o.newNum == q[i].newNum {
          RisingDistinct(q, o, i);
        }
        if o in q && Remains(q, o) && o.lastSent.None? {
          var j :| 0 <= j < |q| && NewestUnsent(q, j) && o == q[j];
          OneNewest(q, i, j);
        }
      }
    }
  }

  function WithTime(o: OutboundState, n: nat, now: nat): OutboundState {
    if o.newNum == n then o.(lastSent := Some(now)) else o
  }

  lemma {:induction false} MarkedAt(q2: seq<OutboundState>, k: nat, now: nat, j: nat)
    requires Rising(q2) && k < |q2| && j < |q2|
    ensures q2[k := q2[k].(lastSent := Some(now))][j] == WithTime(q2[j], q2[k].newNum, now)
  {}

  lemma {:induction false} StillRising(q2: seq<OutboundState>, k: nat, now: nat)
    requires Rising(q2) && k < |q2|
    ensures Rising(q2[k := q2[k].(lastSent := Some(now))])
  {}

  /** The same entries in the same order, with entry `k` marked. */
  lemma {:induction false} MarkedIs(q: seq<OutboundState>, k: nat, now: nat)
    requires Rising(q) && k < |Coalesce(q)|
    ensures var q2 := Coalesce(q); Marked(q, q2[k := q2[k].(lastSent := Some(now))], q2[k].newNum, now)
  {
    hide Coalesce, Remains, Rising;
    CoalesceIs(q);
    var q2 := Coalesce(q);
    var n, q' := q2[k].newNum, q2[k := q2[k].(lastSent := Some(now))];
    StillRising(q2, k, now);
    forall st | st in q'
      ensures exists o :: o in q && Remains(q, o) && st == if o.newNum == n then o.(lastSent := Some(now)) else o
    {
      var j :| 0 <= j < |q'| && q'[j] == st;
      MarkedAt(q2, k, now, j);
      assert q2[j] in q2;
    }
    forall o | o in q && Remains(q, o)
      ensures (if o.newNum == n then o.(lastSent := Some(now)) else o) in q'
    {
      var j :| 0 <= j < |q2| && q2[j] == o;
      MarkedAt(q2, k, now, j);
      assert q'[j] in q';
    }
  }

  lemma {:induction false} NothingMarked(q: seq<OutboundState>, n: nat, now: nat)
    requires Rising(q) && forall o :: o in q ==> o.newNum != n
    ensures Marked(q, Coalesce(q), n, now)
  {
    hide Coalesce, Remains;
    CoalesceIs(q);
  }

  // ---------------------------------------------------------------------------- choosing

  lemma {:induction false} FirstUnsentIs(q: seq<OutboundState>, i: nat)
    requires i <= |q|
    ensures var k := FirstUnsent(q, i);
      if k >= 0 then q[k].lastSent.None? else forall j :: i <= j < |q| ==> q[j].lastSent.Some?
    decreases |q| - i
  {
    if i < |q| && q[i].lastSent.Some? {
      FirstUnsentIs(q, i + 1);
    }
  }

  lemma {:induction false} LastStaleIs(q: seq<OutboundState>, n: nat, clock: Clock)
    requires n <= |q|
    ensures var k := LastStale(q, n, clock);
      (k >= 0 ==> Overdue(q[k], clock)) && forall j :: k < j < n ==> !Overdue(q[j], clock)
  {
    if n > 0 {
      LastStaleIs(q, n - 1, clock);
    }
  }

  /** What is left never sent is the newest that was never sent. */
  lemma {:induction false} UnsentLeft(q: seq<OutboundState>, i: nat)
    requires Rising(q) && NewestUnsent(q, i)
    ensures var k := FirstUnsent(Coalesce(q), 0); k >= 0 && Coalesce(q)[k] == q[i]
  {
    hide Coalesce;
    CoalesceIs(q);
    var q2 := Coalesce(q);
    FirstUnsentIs(q2, 0);
    assert Remains(q, q[i]);
    assert q[i] in q2;
    var k := FirstUnsent(q2, 0);
    assert k >= 0;
    assert q2[k] in q2 && Remains(q, q2[k]);
    var j :| 0 <= j < |q| && NewestUnsent(q, j) && q2[k] == q[j];
    OneNewest(q, i, j);
  }

  lemma {:induction false} NoneLeft(q: seq<OutboundState>)
    requires Rising(q) && !AnyUnsent(q)
    ensures FirstUnsent(Coalesce(q), 0) < 0
  {
    hide Coalesce, Remains;
    var q2 := Coalesce(q);
    var k := FirstUnsent(q2, 0);
    FirstUnsentIs(q2, 0);
    assert k >= 0 ==> q2[k] in q2;
    CoalesceIs(q);
    assert forall o :: o in q ==> o.lastSent.Some?;
  }

  lemma {:induction false} NewestExists(q: seq<OutboundState>)
    requires AnyUnsent(q)
    ensures LastUnsent(q, |q|) >= 0 && NewestUnsent(q, LastUnsent(q, |q|))
  {
    LastUnsentIs(q);
  }

  lemma {:induction false} OverdueLeft(q: seq<OutboundState>, i: nat, clock: Clock)
    requires Rising(q) && NewestOverdue(q, i, clock)
    ensures var k := LastStale(Coalesce(q), |Coalesce(q)|, clock); k >= 0 && Coalesce(q)[k] == q[i]
  {
    hide Coalesce;
    CoalesceIs(q);
    var q2 := Coalesce(q);
    LastStaleIs(q2, |q2|, clock);
    assert q[i] in q2;
    var m :| 0 <= m < |q2| && q2[m] == q[i];
    var k := LastStale(q2, |q2|, clock);
    assert k >= m;
    assert q2[k] in q2;
    var j :| 0 <= j < |q| && q[j] == q2[k];
    assert j <= i;
    assert k > m ==> q2[m].newNum < q2[k].newNum;
    assert j < i ==> q[j].newNum < q[i].newNum;
  }

  lemma {:induction false} NoneOverdue(q: seq<OutboundState>, clock: Clock)
    requires Rising(q) && !AnyOverdue(q, clock)
    ensures LastStale(Coalesce(q), |Coalesce(q)|, clock) < 0
  {
    hide Coalesce, Remains, Overdue;
    var q2 := Coalesce(q);
    var k := LastStale(q2, |q2|, clock);
    LastStaleIs(q2, |q2|, clock);
    assert k >= 0 ==> q2[k] in q2;
    CoalesceIs(q);
    assert forall o :: o in q ==> !Overdue(o, clock);
  }

  // ----------------------------------------------------------------------------- sending

  lemma {:induction false} MinBaseIs(q: seq<OutboundState>, n: nat, floor: nat)
    requires n <= |q|
    ensures var m := MinBase(q, n, floor);
      && m <= floor && (forall i :: 0 <= i < n ==> m <= q[i].oldNum)
      && (m == floor || exists i :: 0 <= i < n && m == q[i].oldNum)
  {
    if n > 0 {
      MinBaseIs(q, n - 1, floor);
    }
  }

  lemma {:induction false} WatermarkIs(s: Sender)
    ensures Watermark(s, MinBase(s.outbound, |s.outbound|, s.localThrowaway))
  {
    hide MinBase;
    MinBaseIs(s.outbound, |s.outbound|, s.localThrowaway);
  }

  lemma {:induction false} RecordsSent(nums: seq<nat>, n: nat)
    ensures n in RecordSent(nums, n)
  {
    var all := nums + [n];
    assert all[|all| - 1] == n;
    if |all| > SENT_STATE_CAP {
      var r := Remove(all, |all| - 16);
      assert r[|r| - 1] == n;
    }
  }

  /** Sealing what was picked. */
  lemma {:induction false} SealEmits(d: Duplex, p: Picked, chaff: seq<byte>, sealing: Sealing)
    requires p.send == d.send.(outbound := p.send.outbound, sentNum := p.send.sentNum, forceSend := false,
                               allowImmediate := p.send.allowImmediate)
    ensures var t := Ticked(Duplex(Seal(p.send, p.newNum, sealing), d.recv.(pendingDataAck := false, sentAckNum := d.recv.ackNum)),
                            if sealing.Sealed? then Some(Instruction(p, d.recv.ackNum, chaff)) else None);
      && Emits(d, t, p.oldNum, p.newNum, p.diff, chaff, sealing)
      && t.state.send.outbound == p.send.outbound && t.state.send.sentNum == p.send.sentNum
      && t.state.send.allowImmediate == p.send.allowImmediate
  {
    hide MinBase, RecordSent, Watermark;
    RecordsSent(p.send.sentStates, p.newNum);
    WatermarkIs(p.send);
    SameWatermark(p.send, Seal(p.send, p.newNum, sealing), MinBase(p.send.outbound, |p.send.outbound|, p.send.localThrowaway));
  }

  lemma {:induction false} SameWatermark(s: Sender, s': Sender, n: nat)
    requires Watermark(s, n) && s'.outbound == s.outbound && s'.localThrowaway == s.localThrowaway
    ensures Watermark(s', n)
  {}

  lemma {:induction false} SendShape(s: Sender, r: Receiver, clock: Clock, chaff: seq<byte>, sealing: Sealing)
    ensures var p := Pick(s, Chosen(s, AckDue(r, clock), clock), clock);
      Send(s, r, clock, chaff, sealing)
        == Ticked(Duplex(Seal(p.send, p.newNum, sealing), r.(pendingDataAck := false, sentAckNum := r.ackNum)),
                  if sealing.Sealed? then Some(Instruction(p, r.ackNum, chaff)) else None)
  {
    hide Chosen, Pick, AckDue, Instruction, Seal;
  }

  /** Sending entry `k` of the queue. */
  lemma {:induction false} SendQueued(d: Duplex, s: Sender, k: nat, clock: Clock, chaff: seq<byte>, sealing: Sealing)
    requires s == d.send.(outbound := s.outbound) && k < |s.outbound| && k == Chosen(s, AckDue(d.recv, clock), clock)
    ensures var t, st := Send(s, d.recv, clock, chaff, sealing), s.outbound[k];
      && Emits(d, t, st.oldNum, st.newNum, st.diff, chaff, sealing)
      && t.state.send.outbound == s.outbound[k := st.(lastSent := Some(clock.now))]
      && t.state.send.sentNum == s.sentNum
      && t.state.send.allowImmediate == (s.allowImmediate && st.lastSent.Some?)
  {
    hide Chosen, AckDue, Send, Emits, Seal, Instruction;
    SendShape(s, d.recv, clock, chaff, sealing);
    SealEmits(d, Pick(s, k, clock), chaff, sealing);
  }

  lemma {:induction false} SendNumbered(d: Duplex, s: Sender, clock: Clock, chaff: seq<byte>, sealing: Sealing)
    requires s == d.send.(outbound := s.outbound) && Chosen(s, AckDue(d.recv, clock), clock) < 0
    ensures var t := Send(s, d.recv, clock, chaff, sealing);
      && Emits(d, t, Tip(s), SatInc(s.sentNum), [], chaff, sealing)
      && t.state.send.outbound == s.outbound && t.state.send.sentNum == SatInc(s.sentNum)
      && t.state.send.allowImmediate == s.allowImmediate
  {
    hide Chosen, AckDue, Send, Emits, Seal, Instruction, Tip;
    SendShape(s, d.recv, clock, chaff, sealing);
    SealEmits(d, Pick(s, -1, clock), chaff, sealing);
  }

  lemma {:induction false} AnsweringIs(r: Receiver, clock: Clock)
    ensures AckDue(r, clock) == Answering(r, clock)
  {}

  /** The newest state never sent goes out as soon as the pace, an answer or a forced send allows. */
  lemma {:induction false} NewGoesOut(d: Duplex, clock: Clock, chaff: seq<byte>, sealing: Sealing, i: nat)
    requires Rising(d.send.outbound) && SendsNew(d, clock, i)
    ensures var t, st, s' := Tick(d, clock, chaff, sealing), d.send.outbound[i], Tick(d, clock, chaff, sealing).state.send;
      && Emits(d, t, st.oldNum, st.newNum, st.diff, chaff, sealing)
      && Marked(d.send.outbound, s'.outbound, st.newNum, clock.now)
      && s'.sentNum == d.send.sentNum && !s'.allowImmediate
  {
    hide Coalesce, Emits, NewestUnsent, LastStale, Send, AckDue, Answering, Rising, Marked;
    var q := d.send.outbound;
    var s := d.send.(outbound := Coalesce(q));
    AnsweringIs(d.recv, clock);
    UnsentLeft(q, i);
    UnsentHere(q, i);
    var k := FirstUnsent(s.outbound, 0);
    assert SendDue(s, AckDue(d.recv, clock), clock) && Chosen(s, AckDue(d.recv, clock), clock) == k;
    SendQueued(d, s, k, clock, chaff, sealing);
    MarkedIs(q, k, clock.now);
  }

  lemma {:induction false} UnsentHere(q: seq<OutboundState>, i: nat)
    requires NewestUnsent(q, i)
    ensures AnyUnsent(q) && q[i].lastSent.None?
  {}

  /** Otherwise the newest that is overdue goes out again. */
  lemma {:induction false} OverdueGoesOut(d: Duplex, clock: Clock, chaff: seq<byte>, sealing: Sealing, i: nat)
    requires Rising(d.send.outbound) && SendsAgain(d, clock, i)
    ensures var t, st, s' := Tick(d, clock, chaff, sealing), d.send.outbound[i], Tick(d, clock, chaff, sealing).state.send;
      && Emits(d, t, st.oldNum, st.newNum, st.diff, chaff, sealing)
      && Marked(d.send.outbound, s'.outbound, st.newNum, clock.now)
      && s'.sentNum == d.send.sentNum && s'.allowImmediate == d.send.allowImmediate
  {
    hide Coalesce, Emits, NewestUnsent, NewestOverdue, LastStale, Send, AckDue, Answering, Rising, Marked, FirstUnsent;
    var q := d.send.outbound;
    var s := d.send.(outbound := Coalesce(q));
    AnsweringIs(d.recv, clock);
    OverdueLeft(q, i, clock);
    OverdueHere(q, i, clock);
    var k := LastStale(s.outbound, |s.outbound|, clock);
    UnsentKept(q);
    assert SendDue(s, AckDue(d.recv, clock), clock) && Chosen(s, AckDue(d.recv, clock), clock) == k;
    SendQueued(d, s, k, clock, chaff, sealing);
    MarkedIs(q, k, clock.now);
  }

  lemma {:induction false} OverdueHere(q: seq<OutboundState>, i: nat, clock: Clock)
    requires NewestOverdue(q, i, clock)
    ensures i < |q| && q[i].lastSent.Some?
  {}

  lemma {:induction false} UnsentKept(q: seq<OutboundState>)
    requires Rising(q)
    ensures FirstUnsent(Coalesce(q), 0) >= 0 <==> AnyUnsent(q)
  {
    hide Coalesce, FirstUnsent, Rising;
    if AnyUnsent(q) {
      NewestExists(q);
      UnsentLeft(q, LastUnsent(q, |q|));
    } else {
      NoneLeft(q);
    }
  }

  lemma {:induction false} CoalesceEnds(q: seq<OutboundState>)
    ensures Coalesce(q) == [] <==> q == []
    ensures q != [] ==> Coalesce(q)[|Coalesce(q)| - 1] == q[|q| - 1]
  {
    hide Retain;
    LastUnsentIs(q);
    var i := LastUnsent(q, |q|);
    if i >= 0 {
      RetainLast(q, SentOr(q[i].newNum));
    }
  }

  /** With nothing of the queue to send an answer, a heartbeat or a forced send is an empty state on
      the newest one. */
  lemma {:induction false} EmptyGoesOut(d: Duplex, clock: Clock, chaff: seq<byte>, sealing: Sealing)
    requires Rising(d.send.outbound) && SendsEmpty(d, clock)
    ensures var t, q := Tick(d, clock, chaff, sealing), d.send.outbound;
            var tip := if q == [] then d.send.ackedByRemote else q[|q| - 1].newNum;
            var n := if d.send.sentNum < U64_MAX then d.send.sentNum + 1 else d.send.sentNum;
      && Emits(d, t, tip, n, [], chaff, sealing)
      && t.state.send.outbound == Coalesce(q) && t.state.send.sentNum == n
      && t.state.send.allowImmediate == d.send.allowImmediate
  {
    hide Coalesce, Emits, LastStale, Send, AckDue, Answering, Rising, FirstUnsent, AnyUnsent, AnyOverdue;
    var q := d.send.outbound;
    var s := d.send.(outbound := Coalesce(q));
    AnsweringIs(d.recv, clock);
    UnsentKept(q);
    NoneOverdue(q, clock);
    CoalesceEnds(q);
    assert SendDue(s, AckDue(d.recv, clock), clock) && Chosen(s, AckDue(d.recv, clock), clock) < 0;
    SendNumbered(d, s, clock, chaff, sealing);
  }

  /** In all other cases nothing goes out, and nothing but the queue may change. */
  lemma {:induction false} NothingGoesOut(d: Duplex, clock: Clock, chaff: seq<byte>, sealing: Sealing)
    requires Rising(d.send.outbound)
    requires !(AnyUnsent(d.send.outbound) && MaySendNew(d, clock)) && !AnyOverdue(d.send.outbound, clock) && !SendsEmpty(d, clock)
    ensures Tick(d, clock, chaff, sealing) == Ticked(d.(send := d.send.(outbound := Coalesce(d.send.outbound))), None)
  {
    hide Coalesce, LastStale, Send, AckDue, Answering, Rising, FirstUnsent, AnyUnsent, AnyOverdue;
    var q := d.send.outbound;
    var s := d.send.(outbound := Coalesce(q));
    AnsweringIs(d.recv, clock);
    UnsentKept(q);
    NoneOverdue(q, clock);
    CoalesceEnds(q);
    assert !SendDue(s, AckDue(d.recv, clock), clock);
  }

  // -------------------------------------------------------------------------- from the start

  /** The first state of a new endpoint goes out with the first tick, whatever the timers say. */
  lemma {:induction false} FirstGoesOut(isServer: bool, diff: seq<byte>, clock: Clock, chaff: seq<byte>)
    ensures var d := Initial(isServer);
      Tick(d.(send := SetPendingFrom(d.send, 0, diff)), clock, chaff, Sealed).wire
        == Some(TransportInstruction(2, 0, 1, 0, 0, diff, chaff))
  {
    hide Tick;
    var d := Initial(isServer);
    var e := d.(send := SetPendingFrom(d.send, 0, diff));
    assert e.send.outbound == [OutboundState(0, 1, diff, None)];
    NewGoesOut(e, clock, chaff, Sealed, 0);
    var t := Tick(e, clock, chaff, Sealed);
    assert t.wire == Some(TransportInstruction(2, 0, 1, 0, t.wire.value.throwawayNum, diff, chaff));
  }

  /** Only a client's states are paced: with all timers quiet, and nothing answered, forced or allowed at
      once, a state just queued goes out exactly if the endpoint is a server. */
  lemma {:induction false} OnlyClientsPace(isServer: bool, d: Duplex, clock: Clock, chaff: seq<byte>, diff: seq<byte>)
    requires d.send == Initial(isServer).send.(sentNum := 2, outbound := [OutboundState(0, 2, diff, None)], allowImmediate := false)
    requires !clock.sendIntervalOver && !Answering(d.recv, clock)
    ensures Tick(d, clock, chaff, Sealed).wire.Some? <==> isServer
  {
    hide Tick, Answering;
    if isServer {
      NewGoesOut(d, clock, chaff, Sealed, 0);
    } else {
      NothingGoesOut(d, clock, chaff, Sealed);
    }
  }
}
