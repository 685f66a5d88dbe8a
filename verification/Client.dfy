/** The client session as an object: its input log beside the endpoint it drives. */
module Client {
  import opened Basics
  import opened Pb
  import opened Ssp
  import opened Input
  import opened Transport

  class Connection {
    const transport: Endpoint
    var actions: seq<UserInstruction>
    var ackedActionCount: nat
    var lastAcked: nat
    var sentActionCounts: seq<(nat, nat)>
    var dirty: bool
    var dead: bool
    var forceKnownBase: bool

    ghost function Logged(): Log
      reads this
    {
      Log(actions, ackedActionCount, lastAcked, sentActionCounts, dirty, dead, forceKnownBase)
    }

    ghost function Value(): ClientState
      reads this, transport
    {
      ClientState(transport.Value(), Logged())
    }

    ghost predicate Valid()
      reads this, transport
    {
      transport.Valid() && LogOk(Logged())
    }

    constructor ()
      ensures Valid() && Value() == NEW_CLIENT
    {
      transport := new Endpoint(false);
      actions, ackedActionCount, lastAcked, sentActionCounts := [], 0, 0, [];
      dirty, dead, forceKnownBase := false, false, false;
      new;
      transport.ForceNextSend();
    }

    method SendKeys(keys: seq<byte>)
      requires Valid()
      modifies this`actions, this`dirty
      ensures Valid()
      ensures Logged() == if keys == [] then old(Logged()) else Append(old(Logged()), Keystroke(keys))
    {
      if keys == [] || dead {
        return;
      }
      actions := actions + [Keystroke(keys)];
      dirty := true;
    }

    method Resize(cols: nat, rows: nat)
      requires Valid() && cols <= 0xFFFF && rows <= 0xFFFF
      modifies this`actions, this`dirty
      ensures Valid()
      ensures Logged() == Append(old(Logged()), UserInstruction([], cols, rows))
    {
      if dead {
        return;
      }
      actions := actions + [UserInstruction([], cols, rows)];
      dirty := true;
    }

    /** The largest count recorded for a state the peer has. */
    method CoveredCount(acked: nat) returns (count: nat)
      ensures count == MaxCount(sentActionCounts, |sentActionCounts|, acked)
    {
      count := 0;
      for i := 0 to |sentActionCounts|
        invariant count == MaxCount(sentActionCounts, i, acked)
      {
        if sentActionCounts[i].0 <= acked {
          count := Max(count, sentActionCounts[i].1);
        }
      }
    }

    method ForgetCounts(acked: nat)
      modifies this`sentActionCounts
      ensures sentActionCounts == Retain(old(sentActionCounts), After(acked))
    {
      var kept := [];
      for i := 0 to |sentActionCounts|
        invariant kept == RetainUpTo(sentActionCounts, i, After(acked))
      {
        if sentActionCounts[i].0 > acked {
          kept := kept + [sentActionCounts[i]];
        }
      }
      sentActionCounts := kept;
    }

    method DrainActions()
      modifies this`actions, this`sentActionCounts, this`ackedActionCount
      ensures Logged() == Drain(old(Logged()))
    {
      if 0 < ackedActionCount <= |actions| {
        var drained := ackedActionCount;
        actions := actions[drained..];
        var shifted := [];
        for i := 0 to |sentActionCounts|
          invariant shifted == Shifted(sentActionCounts, i, drained)
        {
          shifted := shifted + [(sentActionCounts[i].0, SatSub(sentActionCounts[i].1, drained))];
        }
        sentActionCounts := shifted;
        ackedActionCount := 0;
      }
    }

    method AcknowledgeActions(acked: nat)
      modifies this
      ensures Logged() == Acknowledge(old(Logged()), acked)
    {
      if acked > lastAcked {
        lastAcked := acked;
        var count := CoveredCount(acked);
        if count > ackedActionCount {
          ackedActionCount := count;
        }
        ForgetCounts(acked);
        DrainActions();
      }
    }

    /** Whether queued states lost their base, so that the input must be queued again. */
    method NeedsRebase(clock: Clock) returns (needed: bool)
      modifies transport`rebaseRequired
      ensures needed == (old(transport.rebaseRequired) || ChainExpired(old(transport.Sending()), clock))
      ensures !transport.rebaseRequired
    {
      var expired := transport.ProspectiveChainExpired(clock);
      var required := transport.TakeRebaseRequired();
      needed := required || expired;
    }

    method CheckRebase(clock: Clock)
      modifies this`forceKnownBase, this`dirty, transport`rebaseRequired
      ensures Logged() == Rebase(old(transport.Sending()), old(Logged()), clock)
      ensures transport.Sending() == old(transport.Sending()).(rebaseRequired := false)
    {
      hide ChainExpired;
      ghost var log := Logged();
      var needed := NeedsRebase(clock);
      if needed {
        forceKnownBase, dirty := true, dirty || actions != [];
        assert Logged() == log.(forceKnownBase := true, dirty := log.dirty || log.actions != []);
      }
    }

    method ProcessAcks(clock: Clock)
      requires Valid()
      modifies this, transport`rebaseRequired
      ensures Logged() == Input.ProcessAcks(old(transport.Sending()), old(Logged()), clock)
      ensures transport.Sending() == old(transport.Sending()).(rebaseRequired := false)
      ensures Valid()
    {
      ghost var send, log := transport.Sending(), Logged();
      CheckRebase(clock);
      ghost var send', log' := transport.Sending(), Logged();
      AcknowledgeActions(transport.ackedByRemote);
      assert transport.Sending() == send' && Logged() == Acknowledge(log', send.ackedByRemote);
      ProcessAcksOk(send, log, clock);
    }

    method FindCount(n: nat) returns (count: Option<nat>)
      ensures count == CountOf(sentActionCounts, 0, n)
    {
      var i := 0;
      while i < |sentActionCounts| && sentActionCounts[i].0 != n
        invariant i <= |sentActionCounts|
        invariant CountOf(sentActionCounts, i, n) == CountOf(sentActionCounts, 0, n)
      {
        i := i + 1;
      }
      count := if i < |sentActionCounts| then Some(sentActionCounts[i].1) else None;
    }

    method ChooseBase(clock: Clock) returns (base: Base)
      requires Valid()
      ensures base == Input.ChooseBase(transport.Sending(), Logged(), clock)
    {
      var payload := EncodeUserMessage(actions[ackedActionCount..]);
      base := Base(transport.ackedByRemote, payload);
      if !forceKnownBase {
        var candidate := transport.ProspectiveBaseNum(clock);
        if candidate.Some? {
          var count := FindCount(candidate.value);
          if count.Some? && count.value <= |actions| {
            var short := EncodeUserMessage(actions[count.value..]);
            if !PrefersKnown(|payload|, |short|) {
              base := Base(candidate.value, short);
            }
          }
        }
      }
    }

    method QueueInput(clock: Clock)
      requires Valid()
      modifies this, transport`sentNum, transport`outbound, transport`overflowed
      ensures Queued(transport.Sending(), Logged())
           == Input.QueueInput(old(transport.Sending()), old(Logged()), clock)
      ensures Valid()
    {
      if !dirty {
        return;
      }
      ghost var send, log := transport.Sending(), Logged();
      dirty := false;
      if actions[ackedActionCount..] == [] {
        return;
      }
      var base := ChooseBase(clock);
      assert base == Input.ChooseBase(send, log, clock);
      var n := transport.SetPendingFrom(base.oldNum, base.payload);
      forceKnownBase := false;
      sentActionCounts := sentActionCounts + [(n, |actions|)];
    }

    /** What the flush does with the outcome of the tick. */
    method Settle(sent: Option<TransportInstruction>, datagramTooLong: bool)
      returns (wire: Option<TransportInstruction>)
      requires Valid()
      modifies this`dead, transport
      ensures Flushed(Value(), wire)
           == Finish(Ticked(old(transport.Value()), sent), old(Logged()), datagramTooLong)
      ensures Valid()
    {
      ghost var recv := transport.Receiving();
      wire := sent;
      if transport.instructionTooLarge {
        transport.instructionTooLarge := false;
        dead := true;
        wire := None;
      } else if transport.cryptoExhausted {
        dead := true;
        wire := None;
      } else if sent.Some? && datagramTooLong {
        transport.SetMaxFragmentPayload();
      }
      assert recv == transport.Receiving();
    }

    method FlushTicks(turn: Turn) returns (wire: Option<TransportInstruction>)
      requires Valid()
      modifies this, transport
      ensures Flushed(Value(), wire) == Flush(old(Value()), turn)
      ensures Valid()
    {
      if dead {
        return None;
      }
      ghost var recv := transport.Receiving();
      ghost var q := Prepare(transport.Sending(), Logged(), turn);
      ProcessAcks(turn.ackClock);
      assert recv == transport.Receiving();
      QueueInput(turn.baseClock);
      assert q == Queued(transport.Sending(), Logged()) && recv == transport.Receiving();
      var sent := transport.Tick(turn.tickClock, turn.chaff, turn.sealing);
      assert q.log == Logged();
      wire := Settle(sent, turn.datagramTooLong);
    }
  }
}
