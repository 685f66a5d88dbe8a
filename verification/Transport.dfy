/** The endpoint as the object the client holds; each method refines a function of `Ssp`. */
module Transport {
  import opened Basics
  import opened Pb
  import opened Ssp

  class Endpoint {
    var sentNum: nat
    var ackedByRemote: nat
    var outbound: seq<OutboundState>
    var sentStates: seq<nat>
    var instructionTooLarge: bool
    var overflowed: bool
    var rebaseRequired: bool
    var pacing: bool
    var allowImmediate: bool
    var pendingDataAck: bool
    var localThrowaway: nat
    var receivedNums: seq<nat>
    var ackNum: nat
    var sentAckNum: nat
    var throwawayNum: nat
    var cryptoExhausted: bool
    var forceSend: bool

    ghost function Sending(): Sender
      reads this
    {
      Sender(sentNum, ackedByRemote, outbound, sentStates, instructionTooLarge, overflowed,
             rebaseRequired, pacing, allowImmediate, localThrowaway, cryptoExhausted, forceSend)
    }

    ghost function Receiving(): Receiver
      reads this
    {
      Receiver(receivedNums, ackNum, sentAckNum, throwawayNum, pendingDataAck)
    }

    ghost function Value(): Duplex
      reads this
    {
      Duplex(Sending(), Receiving())
    }

    ghost predicate Valid()
      reads this
    {
      |outbound| <= SENT_STATE_CAP && |sentStates| <= SENT_STATE_CAP
    }

    constructor (isServer: bool)
      ensures Valid() && Value() == Initial(isServer)
    {
      sentNum, ackedByRemote, outbound, sentStates := 0, 0, [], [0];
      instructionTooLarge, overflowed, rebaseRequired := false, false, false;
      pacing, allowImmediate, pendingDataAck, localThrowaway := !isServer, true, false, 0;
      receivedNums, ackNum, sentAckNum, throwawayNum := [0], 0, 0, 0;
      cryptoExhausted, forceSend := false, false;
    }

    method ForceNextSend()
      modifies this`forceSend
      ensures Value() == Forced(old(Value()))
    {
      forceSend := true;
    }

    method IsQueued(n: nat) returns (found: bool)
      ensures found == Queued(outbound, n)
    {
      for i := 0 to |outbound|
        invariant forall j :: 0 <= j < i ==> outbound[j].newNum != n
      {
        if outbound[i].newNum == n {
          return true;
        }
      }
      return false;
    }

    method SetPendingFrom(oldNum: nat, diff: seq<byte>) returns (n: nat)
      requires Valid()
      modifies this`sentNum, this`outbound, this`overflowed
      ensures Valid() && Sending() == Ssp.SetPendingFrom(old(Sending()), oldNum, diff)
      ensures n == sentNum
    {
      var known := IsQueued(oldNum);
      var base := if oldNum == ackedByRemote || known then oldNum else ackedByRemote;
      sentNum := SatInc(sentNum);
      outbound := outbound + [OutboundState(base, sentNum, diff, None)];
      if |outbound| > SENT_STATE_CAP {
        outbound := Remove(outbound, |outbound| - 16);
        overflowed := true;
      }
      n := sentNum;
    }

    method ProspectiveBaseNum(clock: Clock) returns (candidate: Option<nat>)
      ensures candidate == ProspectiveBase(outbound, clock)
    {
      candidate := None;
      var i := 0;
      while i < |outbound| && Fresh(outbound[i], clock)
        invariant i <= |outbound|
        invariant i + FreshFrom(outbound, i, clock) == FreshFrom(outbound, 0, clock)
        invariant candidate == if i == 0 then None else Some(outbound[i - 1].newNum)
      {
        candidate := Some(outbound[i].newNum);
        i := i + 1;
      }
    }

    method ProspectiveChainExpired(clock: Clock) returns (expired: bool)
      ensures expired == ChainExpired(Sending(), clock)
    {
      if outbound == [] {
        return false;
      }
      var latest := outbound[|outbound| - 1];
      if latest.oldNum == ackedByRemote {
        return false;
      }
      var base := ProspectiveBaseNum(clock);
      expired := base.None? || base.value < latest.oldNum;
    }

    method TakeRebaseRequired() returns (taken: bool)
      modifies this`rebaseRequired
      ensures taken == old(rebaseRequired) && !rebaseRequired
    {
      taken, rebaseRequired := rebaseRequired, false;
    }

    method SetMaxFragmentPayload()
      modifies this`outbound, this`forceSend
      ensures Sending() == Ssp.SetMaxFragmentPayload(old(Sending()))
      ensures |outbound| == |old(outbound)|
    {
      var q := [];
      for i := 0 to |outbound|
        invariant q == Unsend(outbound, i) && |q| == i
      {
        q := q + [outbound[i].(lastSent := None)];
      }
      outbound, forceSend := q, true;
    }

    method RetainOutbound(keep: OutboundState -> bool)
      modifies this`outbound
      ensures outbound == Retain(old(outbound), keep)
      ensures |outbound| <= |old(outbound)|
    {
      var q := [];
      for i := 0 to |outbound|
        invariant q == RetainUpTo(outbound, i, keep) && |q| <= i
      {
        if keep(outbound[i]) {
          q := q + [outbound[i]];
        }
      }
      outbound := q;
    }

    /** Drops every unsent state but the newest. */
    method DropStaleUnsent()
      modifies this`outbound
      ensures outbound == Coalesce(old(outbound))
      ensures |outbound| <= |old(outbound)|
    {
      var last := |outbound| - 1;
      while last >= 0 && outbound[last].lastSent.Some?
        invariant -1 <= last < |outbound|
        invariant LastUnsent(outbound, last + 1) == LastUnsent(outbound, |outbound|)
      {
        last := last - 1;
      }
      if last >= 0 {
        RetainOutbound(SentOr(outbound[last].newNum));
      }
    }

    method FindUnsent() returns (index: int)
      ensures index == FirstUnsent(outbound, 0)
    {
      index := 0;
      while index < |outbound| && outbound[index].lastSent.Some?
        invariant 0 <= index <= |outbound|
        invariant FirstUnsent(outbound, index) == FirstUnsent(outbound, 0)
      {
        index := index + 1;
      }
      if index == |outbound| {
        index := -1;
      }
    }

    method FindStale(clock: Clock) returns (index: int)
      ensures index == LastStale(outbound, |outbound|, clock)
    {
      index := |outbound| - 1;
      while index >= 0 && !Stale(outbound[index], clock)
        invariant -1 <= index < |outbound|
        invariant LastStale(outbound, index + 1, clock) == LastStale(outbound, |outbound|, clock)
      {
        index := index - 1;
      }
    }

    method OldestBase() returns (throwaway: nat)
      ensures throwaway == MinBase(outbound, |outbound|, localThrowaway)
    {
      throwaway := localThrowaway;
      for i := 0 to |outbound|
        invariant throwaway == MinBase(outbound, i, localThrowaway)
      {
        throwaway := Min(throwaway, outbound[i].oldNum);
      }
    }

    /** Marks entry `index` of the queue as sent, or numbers an empty state. */
    method PickState(index: int, clock: Clock) returns (oldNum: nat, newNum: nat, diff: seq<byte>)
      requires -1 <= index < |outbound|
      modifies this`outbound, this`allowImmediate, this`sentNum, this`forceSend
      ensures Picked(Sending(), oldNum, newNum, diff) == Pick(old(Sending()), index, clock)
      ensures |outbound| == |old(outbound)|
    {
      forceSend := false;
      if index >= 0 {
        var st := outbound[index];
        if st.lastSent.None? {
          allowImmediate := false;
        }
        outbound := outbound[index := st.(lastSent := Some(clock.now))];
        oldNum, newNum, diff := st.oldNum, st.newNum, st.diff;
      } else {
        oldNum := if outbound == [] then ackedByRemote else outbound[|outbound| - 1].newNum;
        sentNum := SatInc(sentNum);
        newNum, diff := sentNum, [];
      }
    }

    method SealState(newNum: nat, sealing: Sealing)
      requires |sentStates| <= SENT_STATE_CAP
      modifies this`sentStates, this`instructionTooLarge, this`cryptoExhausted
      ensures Sending() == Seal(old(Sending()), newNum, sealing)
      ensures |sentStates| <= SENT_STATE_CAP
    {
      match sealing
      case TooLarge => instructionTooLarge := true;
      case Exhausted => cryptoExhausted := true;
      case Sealed => RecordSentState(newNum);
    }

    method SendState(index: int, clock: Clock, chaff: seq<byte>, sealing: Sealing)
      returns (wire: Option<TransportInstruction>)
      requires Valid() && index == Chosen(Sending(), AckDue(Receiving(), clock), clock)
      modifies this
      ensures Ticked(Value(), wire) == Send(old(Sending()), old(Receiving()), clock, chaff, sealing)
      ensures Valid()
    {
      ghost var recv := Receiving();
      var oldNum, newNum, diff := PickState(index, clock);
      ghost var send := Sending();
      assert recv == Receiving();
      pendingDataAck := false;
      var throwaway := OldestBase();
      var ti := TransportInstruction(PROTOCOL_VERSION, oldNum, newNum, ackNum, throwaway, diff, chaff);
      sentAckNum := ackNum;
      recv := recv.(pendingDataAck := false, sentAckNum := recv.ackNum);
      assert send == Sending() && recv == Receiving();
      SealState(newNum, sealing);
      assert recv == Receiving();
      wire := if sealing.Sealed? then Some(ti) else None;
    }

    /** Whether anything has to be sent now, and which queue entry if it is one. */
    method Decide(clock: Clock) returns (due: bool, index: int)
      ensures due == SendDue(Sending(), AckDue(Receiving(), clock), clock)
      ensures index == Chosen(Sending(), AckDue(Receiving(), clock), clock)
    {
      var unsent := FindUnsent();
      var unsentDue := unsent >= 0 && (!pacing || allowImmediate || clock.sendIntervalOver);
      var stale := FindStale(clock);
      var ackDue := || (pendingDataAck && clock.ackDelayOver)
                    || (ackNum > sentAckNum && (clock.heartbeatOver || ackNum == U64_MAX));
      due := unsentDue || ackDue || stale >= 0 || (outbound == [] && clock.heartbeatOver) || forceSend;
      index := if unsent >= 0 && (unsentDue || ackDue || forceSend) then unsent else stale;
    }

    method SendStateIfDue(clock: Clock, chaff: seq<byte>, sealing: Sealing)
      returns (wire: Option<TransportInstruction>)
      requires Valid()
      modifies this
      ensures Ticked(Value(), wire) == SendIfDue(old(Sending()), old(Receiving()), clock, chaff, sealing)
      ensures Valid()
    {
      var due, index := Decide(clock);
      if due {
        wire := SendState(index, clock, chaff, sealing);
      } else {
        wire := None;
      }
    }

    method Tick(clock: Clock, chaff: seq<byte>, sealing: Sealing) returns (wire: Option<TransportInstruction>)
      requires Valid()
      modifies this
      ensures Ticked(Value(), wire) == Ssp.Tick(old(Value()), clock, chaff, sealing)
      ensures Valid()
    {
      ghost var send, recv := Sending(), Receiving();
      DropStaleUnsent();
      send := send.(outbound := Coalesce(send.outbound));
      assert send == Sending() && recv == Receiving();
      wire := SendStateIfDue(clock, chaff, sealing);
    }

    method RecordSentState(n: nat)
      requires |sentStates| <= SENT_STATE_CAP
      modifies this`sentStates
      ensures sentStates == RecordSent(old(sentStates), n)
    {
      if n in sentStates {
        return;
      }
      sentStates := sentStates + [n];
      if |sentStates| > SENT_STATE_CAP {
        sentStates := Remove(sentStates, |sentStates| - 16);
      }
    }

    method ProcessRoundtripAck(ack: nat) returns (known: bool)
      modifies this`sentStates
      ensures known == (Position(old(sentStates), ack, 0) < |old(sentStates)|)
      ensures sentStates == ForgetBefore(old(sentStates), ack)
    {
      var i := 0;
      while i < |sentStates| && sentStates[i] != ack
        invariant i <= |sentStates|
        invariant Position(sentStates, ack, i) == Position(sentStates, ack, 0)
      {
        i := i + 1;
      }
      known := i < |sentStates|;
      if known {
        sentStates := sentStates[i..];
      }
    }

    method AdoptAck(ack: nat)
      modifies this`ackedByRemote, this`localThrowaway, this`outbound,
               this`allowImmediate, this`rebaseRequired, this`overflowed
      ensures Sending() == Adopt(old(Sending()), ack)
      ensures |outbound| <= |old(outbound)|
    {
      ackedByRemote := ack;
      localThrowaway := ackedByRemote;
      RetainOutbound(NewerThan(ack));
      if outbound == [] {
        allowImmediate := true;
      }
      if overflowed {
        var before := |outbound|;
        RetainOutbound(BasedFrom(ack));
        rebaseRequired := |outbound| < before;
        overflowed := false;
      }
    }

    method ProcessAck(ack: nat)
      requires Valid()
      modifies this`sentStates, this`ackedByRemote, this`localThrowaway, this`outbound,
               this`allowImmediate, this`rebaseRequired, this`overflowed
      ensures Sending() == ApplyAck(old(Sending()), ack)
      ensures Valid()
    {
      var known := ProcessRoundtripAck(ack);
      if known && ack > ackedByRemote && ack <= sentNum {
        AdoptAck(ack);
      }
    }

    method RetainReceived(throwaway: nat)
      modifies this`receivedNums
      ensures receivedNums == Prune(old(receivedNums), throwaway)
    {
      var kept := [];
      for i := 0 to |receivedNums|
        invariant kept == RetainUpTo(receivedNums, i, AtLeast(throwaway))
      {
        if receivedNums[i] >= throwaway {
          kept := kept + [receivedNums[i]];
        }
      }
      receivedNums := kept;
    }

    /** Takes in a numbered diff once the acknowledgement has been processed. */
    method Accept(ti: TransportInstruction, clock: Clock) returns (state: Option<ReceivedStateDiff>)
      modifies this`throwawayNum, this`receivedNums, this`ackNum, this`pendingDataAck
      ensures Accepted(Receiving(), state) == Ssp.Accept(old(Receiving()), ti, clock)
    {
      if ti.newNum in receivedNums || ti.oldNum !in receivedNums {
        return None;
      }
      if ti.throwawayNum > throwawayNum {
        throwawayNum := ti.throwawayNum;
        RetainReceived(throwawayNum);
      }
      if |receivedNums| > RECEIVED_STATE_CAP && clock.quenched {
        return None;
      }
      receivedNums := receivedNums + [ti.newNum];
      ackNum := Max(ackNum, ti.newNum);
      if ti.diff != [] || ti.newNum == U64_MAX {
        pendingDataAck := true;
      }
      return Some(ReceivedStateDiff(ti.oldNum, ti.newNum, throwawayNum, ti.diff));
    }

    method Receive(ti: TransportInstruction, clock: Clock) returns (diff: Option<ReceivedStateDiff>)
      requires Valid()
      modifies this
      ensures Received(Value(), diff) == Ssp.Receive(old(Value()), ti, clock)
      ensures Valid()
    {
      if ti.protocolVersion != PROTOCOL_VERSION {
        return None;
      }
      ghost var recv := Receiving();
      ProcessAck(ti.ackNum);
      ghost var send := Sending();
      assert recv == Receiving();
      diff := Accept(ti, clock);
      assert send == Sending();
    }
  }
}
