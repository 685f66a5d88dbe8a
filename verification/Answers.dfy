/** What an arriving instruction changes at an endpoint, and what ends a flush. */
module Answers {
  import opened Basics
  import opened Pb
  import opened Ssp
  import opened Input
  import opened Channel

  // --------------------------------------------------------------------- acknowledgements

  /** Sent states before a known acknowledged one are forgotten. */
  predicate Forgets(was: seq<nat>, nums: seq<nat>, ack: nat) {
    if ack in was then
      |nums| <= |was| && nums == was[|was| - |nums|..] && nums != [] && nums[0] == ack && ack !in was[..|was| - |nums|]
    else nums == was
  }

  lemma {:induction false} PositionIs(nums: seq<nat>, n: nat, i: nat)
    requires i <= |nums|
    ensures var k := Position(nums, n, i);
      && i <= k && (k < |nums| ==> nums[k] == n) && forall j :: i <= j < k ==> nums[j] != n
    decreases |nums| - i
  {
    if i < |nums| && nums[i] != n {
      PositionIs(nums, n, i + 1);
    }
  }

  lemma {:induction false} ForgetsBefore(nums: seq<nat>, ack: nat)
    ensures Forgets(nums, ForgetBefore(nums, ack), ack)
    ensures ack in nums <==> Position(nums, ack, 0) < |nums|
  {
    PositionIs(nums, ack, 0);
  }

  /** Waits for an answer: newer than the acknowledged state and, after an overflow, not built on
      anything older than it. */
  predicate StillQueued(o: OutboundState, ack: nat, overflowed: bool) {
    o.newNum > ack && (overflowed ==> o.oldNum >= ack)
  }

  /** The acknowledged base moves forward. Acknowledged states leave the queue; after an overflow so do
      those built on older states, and then the input they carried is to be queued anew. */
  ghost predicate Advanced(s: Sender, q: Sender, ack: nat) {
    && q == s.(ackedByRemote := ack, localThrowaway := ack, overflowed := false, sentStates := q.sentStates,
               outbound := q.outbound, allowImmediate := q.allowImmediate, rebaseRequired := q.rebaseRequired)
    && (forall o :: o in q.outbound <==> o in s.outbound && StillQueued(o, ack, s.overflowed))
    && (q.allowImmediate <==> s.allowImmediate || forall o :: o in s.outbound ==> o.newNum <= ack)
    && (q.rebaseRequired <==>
          if s.overflowed then exists o :: o in s.outbound && o.newNum > ack && o.oldNum < ack else s.rebaseRequired)
  }

  /** Every queued state has its own number: keeping some of them leaves a shorter queue unless all stay. */
  lemma {:induction false} RetainAll(q: seq<OutboundState>, n: nat, keep: OutboundState -> bool)
    requires n <= |q|
    ensures |RetainUpTo(q, n, keep)| == n <==> forall i :: 0 <= i < n ==> keep(q[i])
    ensures |RetainUpTo(q, n, keep)| <= n
  {
    if n > 0 {
      RetainAll(q, n - 1, keep);
    }
  }

  lemma {:induction false} Leaves(q: seq<OutboundState>, ack: nat)
    ensures var newer := Retain(q, NewerThan(ack));
      && (newer == [] <==> forall o :: o in q ==> o.newNum <= ack)
      && (|Retain(newer, BasedFrom(ack))| < |newer| <==> exists o :: o in q && o.newNum > ack && o.oldNum < ack)
  {
    var newer := Retain(q, NewerThan(ack));
    RetainMembers(q, NewerThan(ack));
    RetainAll(newer, |newer|, BasedFrom(ack));
    if newer != [] {
      assert newer[0] in newer;
    }
    if exists o :: o in q && o.newNum > ack && o.oldNum < ack {
      var o :| o in q && o.newNum > ack && o.oldNum < ack;
      assert o in newer;
      var i :| 0 <= i < |newer| && newer[i] == o;
      assert !BasedFrom(ack)(newer[i]);
    }
    if |Retain(newer, BasedFrom(ack))| < |newer| {
      var i :| 0 <= i < |newer| && !BasedFrom(ack)(newer[i]);
      assert newer[i] in newer;
    }
  }

  lemma {:induction false} AdoptIs(s: Sender, ack: nat)
    ensures Advanced(s, Adopt(s, ack), ack)
  {
    hide Retain;
    Leaves(s.outbound, ack);
    var newer := Retain(s.outbound, NewerThan(ack));
    RetainMembers(s.outbound, NewerThan(ack));
    RetainMembers(newer, BasedFrom(ack));
  }

  /** An acknowledgement counts if its state is known, newer than the last one and not beyond what was
      numbered. Otherwise it only may forget sending times. */
  lemma {:induction false} AckAnswered(s: Sender, ack: nat)
    ensures var q := ApplyAck(s, ack);
      && Forgets(s.sentStates, q.sentStates, ack)
      && (Rising(s.outbound) ==> Rising(q.outbound))
      && (if ack in s.sentStates && s.ackedByRemote < ack <= s.sentNum then Advanced(s, q, ack)
          else q == s.(sentStates := q.sentStates))
  {
    hide Adopt, ForgetBefore, Position, Rising, Retain, Advanced;
    ForgetsBefore(s.sentStates, ack);
    var s1 := s.(sentStates := ForgetBefore(s.sentStates, ack));
    AdoptIs(s1, ack);
    AdvancedFrom(s, s1, Adopt(s1, ack), ack);
    RetainedRising(s1.outbound, ack);
    AdoptShape(s1, ack);
  }

  lemma {:induction false} AdoptShape(s: Sender, ack: nat)
    ensures Adopt(s, ack).outbound == AfterAck(s.outbound, ack, s.overflowed) && Adopt(s, ack).sentStates == s.sentStates
  {}

  lemma {:induction false} AdvancedFrom(s: Sender, s1: Sender, q: Sender, ack: nat)
    requires s1 == s.(sentStates := s1.sentStates) && Advanced(s1, q, ack)
    ensures Advanced(s, q, ack)
  {}

  lemma {:induction false} RetainedRising(q: seq<OutboundState>, ack: nat)
    ensures Rising(q) ==> Rising(AfterAck(q, ack, false)) && Rising(AfterAck(q, ack, true))
  {
    if Rising(q) {
      var newer := Retain(q, NewerThan(ack));
      RetainRising(q, |q|, NewerThan(ack));
      RetainRising(newer, |newer|, BasedFrom(ack));
    }
  }

  // ------------------------------------------------------------------------- new states

  /** The window once the sender's watermark is taken on. */
  ghost predicate Windowed(r: Receiver, nums: seq<nat>, throwaway: nat) {
    forall n :: n in nums <==> n in r.receivedNums && (throwaway > r.throwawayNum ==> n >= throwaway)
  }

  function Higher(a: nat, b: nat): nat { if a > b then a else b }

  /** A state already known, or without its base, changes nothing. Any other first moves the watermark
      forward. It is then refused if more than 1024 states are retained during a quench; otherwise it joins
      the window, is acknowledged, and is delivered with the watermark in force. */
  lemma {:induction false} StateAnswered(r: Receiver, ti: TransportInstruction, clock: Clock)
    ensures var a := Accept(r, ti, clock);
      if ti.newNum in r.receivedNums || ti.oldNum !in r.receivedNums then a == Accepted(r, None)
      else
        exists nums ::
          && Windowed(r, nums, ti.throwawayNum) && |nums| <= |r.receivedNums|
          && (ti.throwawayNum <= r.throwawayNum ==> nums == r.receivedNums)
          && var pruned := r.(receivedNums := nums, throwawayNum := Higher(r.throwawayNum, ti.throwawayNum));
             a == if |nums| > 1024 && clock.quenched then Accepted(pruned, None)
                  else
                    Accepted(pruned.(receivedNums := nums + [ti.newNum], ackNum := Higher(r.ackNum, ti.newNum),
                                     pendingDataAck := r.pendingDataAck || ti.diff != [] || ti.newNum == 0xFFFF_FFFF_FFFF_FFFF),
                             Some(ReceivedStateDiff(ti.oldNum, ti.newNum, pruned.throwawayNum, ti.diff)))
  {
    hide Retain;
    RetainMembers(r.receivedNums, AtLeast(ti.throwawayNum));
    var h := Honor(r, ti.throwawayNum);
    assert Windowed(r, h.receivedNums, ti.throwawayNum);
  }

  /** An instruction of another protocol version changes nothing; any other is answered as an
      acknowledgement and as a state, each on its own half. */
  lemma {:induction false} InstructionAnswered(st: Duplex, ti: TransportInstruction, clock: Clock)
    ensures Receive(st, ti, clock) ==
      if ti.protocolVersion != 2 then Received(st, None)
      else Received(Duplex(ApplyAck(st.send, ti.ackNum), Accept(st.recv, ti, clock).recv), Accept(st.recv, ti, clock).state)
  {
    hide ApplyAck, Accept;
  }

  // ----------------------------------------------------------------------- ends of a flush

  /** The queue as if nothing of it had been sent. */
  predicate AllUnsent(q: seq<OutboundState>, q': seq<OutboundState>) {
    |q'| == |q| && forall i :: 0 <= i < |q| ==> q'[i] == q[i].(lastSent := None)
  }

  lemma {:induction false} UnsendIs(q: seq<OutboundState>, n: nat)
    requires n <= |q|
    ensures |Unsend(q, n)| == n && forall i :: 0 <= i < n ==> Unsend(q, n)[i] == q[i].(lastSent := None)
  {
    if n > 0 {
      UnsendIs(q, n - 1);
    }
  }

  /** What the timers sent, `t`, and what the flush makes of it. A state too large to send, or an exhausted
      cipher, ends the client. A datagram too long for the socket makes every queued state unsent again
      and forces the next tick. A dead client does nothing. */
  lemma {:induction false} FlushEnds(st: ClientState, turn: Turn)
    ensures st.log.dead ==> Flush(st, turn) == Flushed(st, None)
    ensures !st.log.dead ==>
      var q := Prepare(st.transport.send, st.log, turn);
      var t := Tick(Duplex(q.send, st.transport.recv), turn.tickClock, turn.chaff, turn.sealing);
      var f, s, s' := Flush(st, turn), t.state.send, Flush(st, turn).state.transport.send;
      && f.state.transport.recv == t.state.recv
      && f.state.log == q.log.(dead := q.log.dead || s.instructionTooLarge || s.cryptoExhausted)
      && f.wire == (if s.instructionTooLarge || s.cryptoExhausted then None else t.wire)
      && (if s.instructionTooLarge then s' == s.(instructionTooLarge := false)
          else if !s.cryptoExhausted && t.wire.Some? && turn.datagramTooLong then
            s' == s.(outbound := s'.outbound, forceSend := true) && AllUnsent(s.outbound, s'.outbound)
          else s' == s)
  {
    hide Prepare, Tick;
    if !st.log.dead {
      var q := Prepare(st.transport.send, st.log, turn);
      var s := Tick(Duplex(q.send, st.transport.recv), turn.tickClock, turn.chaff, turn.sealing).state.send;
      UnsendIs(s.outbound, |s.outbound|);
    }
  }
}
