/** The log of user actions and how the client turns it into numbered states, as functions. */
module Input {
  import opened Basics
  import opened Pb
  import opened Ssp

  /** Actions not acknowledged yet, and how many of them each numbered state covers. */
  datatype Log = Log(
    actions: seq<UserInstruction>, ackedActionCount: nat, lastAcked: nat,
    sentActionCounts: seq<(nat, nat)>, dirty: bool, dead: bool, forceKnownBase: bool)

  datatype ClientState = ClientState(transport: Duplex, log: Log)

  const NEW_LOG := Log([], 0, 0, [], false, false, false)

  /** A client just made: nothing entered yet, and its first tick is to send. */
  const NEW_CLIENT := ClientState(Forced(Initial(false)), NEW_LOG)

  function Keystroke(keys: seq<byte>): UserInstruction { UserInstruction(keys, 0, 0) }

  function Append(l: Log, u: UserInstruction): Log {
    if l.dead then l else l.(actions := l.actions + [u], dirty := true)
  }

  // ---------------------------------------------------------- acknowledgements

  /** The largest count among the first `n` entries for states up to `acked`, or 0. */
  function MaxCount(counts: seq<(nat, nat)>, n: nat, acked: nat): nat
    requires n <= |counts|
  {
    if n == 0 then 0
    else
      var m := MaxCount(counts, n - 1, acked);
      if counts[n - 1].0 <= acked then Max(m, counts[n - 1].1) else m
  }

  function After(acked: nat): ((nat, nat)) -> bool {
    (e: (nat, nat)) => e.0 > acked
  }

  function Shifted(counts: seq<(nat, nat)>, n: nat, drained: nat): seq<(nat, nat)>
    requires n <= |counts|
  {
    if n == 0 then []
    else Shifted(counts, n - 1, drained) + [(counts[n - 1].0, SatSub(counts[n - 1].1, drained))]
  }

  /** Drops the actions every later state already has. */
  function Drain(l: Log): Log {
    if 0 < l.ackedActionCount <= |l.actions| then
      l.(actions := l.actions[l.ackedActionCount..],
         sentActionCounts := Shifted(l.sentActionCounts, |l.sentActionCounts|, l.ackedActionCount),
         ackedActionCount := 0)
    else l
  }

  function Acknowledge(l: Log, acked: nat): Log {
    if acked > l.lastAcked then
      Drain(l.(lastAcked := acked,
               ackedActionCount := Max(l.ackedActionCount, MaxCount(l.sentActionCounts, |l.sentActionCounts|, acked)),
               sentActionCounts := Retain(l.sentActionCounts, After(acked))))
    else l
  }

  function Rebase(s: Sender, l: Log, clock: Clock): Log {
    if s.rebaseRequired || ChainExpired(s, clock)
    then l.(forceKnownBase := true, dirty := l.dirty || l.actions != [])
    else l
  }

  function ProcessAcks(s: Sender, l: Log, clock: Clock): Log {
    Acknowledge(Rebase(s, l, clock), s.ackedByRemote)
  }

  // ------------------------------------------------------------ queueing input

  /** The count recorded for state `n` at or after entry `i`. */
  function CountOf(counts: seq<(nat, nat)>, i: nat, n: nat): Option<nat>
    requires i <= |counts|
    decreases |counts| - i
  {
    if i == |counts| then None else if counts[i].0 == n then Some(counts[i].1) else CountOf(counts, i + 1, n)
  }

  /** Resending from the known base is preferred when it costs nothing, or little. */
  predicate PrefersKnown(full: nat, short: nat) {
    full <= short || (full < 1000 && full - short < 100)
  }

  datatype Base = Base(oldNum: nat, payload: seq<byte>)

  /** The actions from number `n` on; `n` never exceeds their number (see `LogOk`). */
  function From(actions: seq<UserInstruction>, n: nat): seq<UserInstruction> {
    if n <= |actions| then actions[n..] else []
  }

  function KnownBase(s: Sender, l: Log): Base {
    Base(s.ackedByRemote, EncodeMessage(From(l.actions, l.ackedActionCount)))
  }

  /** The state the next diff is built on, and the diff: everything after that state. */
  function ChooseBase(s: Sender, l: Log, clock: Clock): Base {
    var known := KnownBase(s, l);
    var candidate := ProspectiveBase(s.outbound, clock);
    if l.forceKnownBase || candidate.None? then known
    else
      var count := CountOf(l.sentActionCounts, 0, candidate.value);
      if count.None? || count.value > |l.actions| then known
      else
        var payload := EncodeMessage(From(l.actions, count.value));
        if PrefersKnown(|known.payload|, |payload|) then known else Base(candidate.value, payload)
  }

  datatype Queued = Queued(send: Sender, log: Log)

  function QueueInput(s: Sender, l: Log, clock: Clock): Queued {
    if !l.dirty then Queued(s, l)
    else if From(l.actions, l.ackedActionCount) == [] then Queued(s, l.(dirty := false))
    else
      var base := ChooseBase(s, l, clock);
      var s' := SetPendingFrom(s, base.oldNum, base.payload);
      Queued(s', l.(dirty := false, forceKnownBase := false,
                    sentActionCounts := l.sentActionCounts + [(s'.sentNum, |l.actions|)]))
  }

  // ------------------------------------------------------------------ flushing

  /** What one flush meets: the times at which it looks at its timers, the chaff, how
      sealing ends, and whether a socket finds a datagram too long. */
  datatype Turn = Turn(
    ackClock: Clock, baseClock: Clock, tickClock: Clock,
    chaff: seq<byte>, sealing: Sealing, datagramTooLong: bool)

  datatype Flushed = Flushed(state: ClientState, wire: Option<TransportInstruction>)

  /** Acknowledgements first, then new input. */
  function Prepare(s: Sender, l: Log, turn: Turn): Queued {
    QueueInput(s.(rebaseRequired := false), ProcessAcks(s, l, turn.ackClock), turn.baseClock)
  }

  function Finish(t: Ticked, l: Log, datagramTooLong: bool): Flushed {
    var s := t.state.send;
    if s.instructionTooLarge then
      Flushed(ClientState(t.state.(send := s.(instructionTooLarge := false)), l.(dead := true)), None)
    else if s.cryptoExhausted then
      Flushed(ClientState(t.state, l.(dead := true)), None)
    else if t.wire.Some? && datagramTooLong then
      Flushed(ClientState(t.state.(send := SetMaxFragmentPayload(s)), l), t.wire)
    else
      Flushed(ClientState(t.state, l), t.wire)
  }

  /** `flush_ticks`: acknowledgements, then new input, then the timers. */
  function Flush(st: ClientState, turn: Turn): Flushed {
    if st.log.dead then Flushed(st, None)
    else
      var q := Prepare(st.transport.send, st.log, turn);
      Finish(Tick(Duplex(q.send, st.transport.recv), turn.tickClock, turn.chaff, turn.sealing),
             q.log, turn.datagramTooLong)
  }

  // ------------------------------------------------------- the log's own invariant

  /** Drained actions are gone, and no count points beyond the actions that remain. */
  predicate LogOk(l: Log) {
    && l.ackedActionCount == 0
    && forall i :: 0 <= i < |l.sentActionCounts| ==> l.sentActionCounts[i].1 <= |l.actions|
  }

  lemma {:induction false} MaxCountBound(counts: seq<(nat, nat)>, n: nat, acked: nat, bound: nat)
    requires n <= |counts| && forall i :: 0 <= i < |counts| ==> counts[i].1 <= bound
    ensures MaxCount(counts, n, acked) <= bound
  {
    if n > 0 {
      MaxCountBound(counts, n - 1, acked, bound);
    }
  }

  lemma {:induction false} ShiftedEntries(counts: seq<(nat, nat)>, n: nat, drained: nat)
    requires n <= |counts|
    ensures |Shifted(counts, n, drained)| == n
    ensures forall i :: 0 <= i < n ==>
      Shifted(counts, n, drained)[i] == (counts[i].0, SatSub(counts[i].1, drained))
  {
    if n > 0 {
      ShiftedEntries(counts, n - 1, drained);
    }
  }

  lemma {:induction false} DrainOk(l: Log)
    requires l.ackedActionCount <= |l.actions|
    requires forall i :: 0 <= i < |l.sentActionCounts| ==> l.sentActionCounts[i].1 <= |l.actions|
    ensures LogOk(Drain(l))
  {
    ShiftedEntries(l.sentActionCounts, |l.sentActionCounts|, l.ackedActionCount);
  }

  lemma {:induction false} AcknowledgeOk(l: Log, acked: nat)
    requires LogOk(l)
    ensures LogOk(Acknowledge(l, acked))
  {
    var counts := l.sentActionCounts;
    MaxCountBound(counts, |counts|, acked, |l.actions|);
    RetainMembers(counts, After(acked));
    var kept := Retain(counts, After(acked));
    forall i | 0 <= i < |kept|
      ensures kept[i].1 <= |l.actions|
    {
      assert kept[i] in counts;
    }
    if acked > l.lastAcked {
      DrainOk(l.(lastAcked := acked, ackedActionCount := MaxCount(counts, |counts|, acked),
                 sentActionCounts := kept));
    }
  }

  lemma {:induction false} ProcessAcksOk(s: Sender, l: Log, clock: Clock)
    requires LogOk(l)
    ensures LogOk(ProcessAcks(s, l, clock))
  {
    AcknowledgeOk(Rebase(s, l, clock), s.ackedByRemote);
  }
}
