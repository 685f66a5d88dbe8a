/** What a State Synchronization Protocol endpoint sends and accepts, as functions of its state. */
module Ssp {
  import opened Basics
  import opened Pb

  const PROTOCOL_VERSION: nat := 2
  const SENT_STATE_CAP: nat := 32
  const RECEIVED_STATE_CAP: nat := 1024

  datatype OutboundState = OutboundState(oldNum: nat, newNum: nat, diff: seq<byte>, lastSent: Option<nat>)

  datatype ReceivedStateDiff = ReceivedStateDiff(oldNum: nat, newNum: nat, throwawayNum: nat, diff: seq<byte>)

  /** What the timers say during one call. `maxAge` and `retransmitAfter` come from the
      smoothed round-trip time, which is not modelled: every value of them is allowed. */
  datatype Clock = Clock(
    now: nat, maxAge: nat, retransmitAfter: nat,
    sendIntervalOver: bool, heartbeatOver: bool, ackDelayOver: bool, quenched: bool)

  /** How sealing an instruction into datagrams ends. */
  datatype Sealing = Sealed | TooLarge | Exhausted

  /** The half of an endpoint that numbers and sends its own states. */
  datatype Sender = Sender(
    sentNum: nat, ackedByRemote: nat, outbound: seq<OutboundState>, sentStates: seq<nat>,
    instructionTooLarge: bool, overflowed: bool, rebaseRequired: bool, pacing: bool,
    allowImmediate: bool, localThrowaway: nat, cryptoExhausted: bool, forceSend: bool)

  /** The half that accepts the peer's states. */
  datatype Receiver = Receiver(
    receivedNums: seq<nat>, ackNum: nat, sentAckNum: nat, throwawayNum: nat, pendingDataAck: bool)

  datatype Duplex = Duplex(send: Sender, recv: Receiver)

  function Initial(isServer: bool): Duplex {
    Duplex(Sender(0, 0, [], [0], false, false, false, !isServer, true, 0, false, false),
          Receiver([0], 0, 0, 0, false))
  }

  /** The next tick sends, whatever the timers say. */
  function Forced(d: Duplex): Duplex { d.(send := d.send.(forceSend := true)) }

  // ------------------------------------------------------- queueing a new state

  predicate Queued(q: seq<OutboundState>, n: nat) {
    exists i :: 0 <= i < |q| && q[i].newNum == n
  }

  function Remove<T>(s: seq<T>, i: nat): seq<T>
    requires i < |s|
  {
    s[..i] + s[i + 1..]
  }

  /** Keeps at most 32 entries by dropping the one 16 from the end. */
  function Capped<T>(s: seq<T>): seq<T> {
    if |s| > SENT_STATE_CAP then Remove(s, |s| - 16) else s
  }

  function SetPendingFrom(s: Sender, oldNum: nat, diff: seq<byte>): Sender {
    var base := if oldNum == s.ackedByRemote || Queued(s.outbound, oldNum) then oldNum else s.ackedByRemote;
    var n := SatInc(s.sentNum);
    var q := s.outbound + [OutboundState(base, n, diff, None)];
    s.(sentNum := n, outbound := Capped(q), overflowed := s.overflowed || |q| > SENT_STATE_CAP)
  }

  // ---------------------------------------------------------- prospective bases

  predicate Fresh(st: OutboundState, clock: Clock) {
    st.lastSent.Some? && SatSub(clock.now, st.lastSent.value) < clock.maxAge
  }

  /** How many states from `i` on were all sent recently. */
  function FreshFrom(q: seq<OutboundState>, i: nat, clock: Clock): nat
    requires i <= |q|
    decreases |q| - i
  {
    if i == |q| || !Fresh(q[i], clock) then 0 else 1 + FreshFrom(q, i + 1, clock)
  }

  /** The number of the last state in the recently sent prefix of the queue. */
  function ProspectiveBase(q: seq<OutboundState>, clock: Clock): Option<nat> {
    var k := FreshFrom(q, 0, clock);
    if 0 < k <= |q| then Some(q[k - 1].newNum) else None
  }

  predicate ChainExpired(s: Sender, clock: Clock) {
    && s.outbound != []
    && var latest := s.outbound[|s.outbound| - 1];
       && latest.oldNum != s.ackedByRemote
       && var base := ProspectiveBase(s.outbound, clock);
          base.None? || base.value < latest.oldNum
  }

  // ------------------------------------------------------------------- sending

  /** Index of the last of the first `n` states that was never sent, or -1. */
  function LastUnsent(q: seq<OutboundState>, n: nat): (i: int)
    requires n <= |q|
    ensures -1 <= i < n
  {
    if n == 0 then -1 else if q[n - 1].lastSent.None? then n - 1 else LastUnsent(q, n - 1)
  }

  /** Index of the first state from `i` on that was never sent, or -1. */
  function FirstUnsent(q: seq<OutboundState>, i: nat): (k: int)
    requires i <= |q|
    ensures -1 <= k < |q|
    decreases |q| - i
  {
    if i == |q| then -1 else if q[i].lastSent.None? then i else FirstUnsent(q, i + 1)
  }

  predicate Stale(st: OutboundState, clock: Clock) {
    st.lastSent.Some? && SatSub(clock.now, st.lastSent.value) >= clock.retransmitAfter
  }

  /** Index of the last of the first `n` states whose retransmission is due, or -1. */
  function LastStale(q: seq<OutboundState>, n: nat, clock: Clock): (i: int)
    requires n <= |q|
    ensures -1 <= i < n
  {
    if n == 0 then -1 else if Stale(q[n - 1], clock) then n - 1 else LastStale(q, n - 1, clock)
  }

  function SentOr(n: nat): OutboundState -> bool {
    (st: OutboundState) => st.lastSent.Some? || st.newNum == n
  }

  function Coalesce(q: seq<OutboundState>): seq<OutboundState> {
    var i := LastUnsent(q, |q|);
    if i < 0 then q else Retain(q, SentOr(q[i].newNum))
  }

  /** The least of `floor` and the bases of the first `n` states. */
  function MinBase(q: seq<OutboundState>, n: nat, floor: nat): nat
    requires n <= |q|
  {
    if n == 0 then floor else Min(MinBase(q, n - 1, floor), q[n - 1].oldNum)
  }

  function RecordSent(nums: seq<nat>, n: nat): seq<nat>
  {
    if n in nums then nums else Capped(nums + [n])
  }

  predicate AckDue(r: Receiver, clock: Clock) {
    || (r.pendingDataAck && clock.ackDelayOver)
    || (r.ackNum > r.sentAckNum && (clock.heartbeatOver || r.ackNum == U64_MAX))
  }

  predicate UnsentDue(s: Sender, clock: Clock) {
    FirstUnsent(s.outbound, 0) >= 0 && (!s.pacing || s.allowImmediate || clock.sendIntervalOver)
  }

  predicate SendDue(s: Sender, ackDue: bool, clock: Clock) {
    || UnsentDue(s, clock)
    || ackDue
    || LastStale(s.outbound, |s.outbound|, clock) >= 0
    || (s.outbound == [] && clock.heartbeatOver)
    || s.forceSend
  }

  /** The queued state that this tick sends, or -1 for an empty state. */
  function Chosen(s: Sender, ackDue: bool, clock: Clock): (i: int)
    ensures -1 <= i < |s.outbound|
  {
    if FirstUnsent(s.outbound, 0) >= 0 && (UnsentDue(s, clock) || ackDue || s.forceSend)
    then FirstUnsent(s.outbound, 0)
    else LastStale(s.outbound, |s.outbound|, clock)
  }

  /** The number of the newest state the sender still stands behind. */
  function Tip(s: Sender): nat {
    if s.outbound == [] then s.ackedByRemote else s.outbound[|s.outbound| - 1].newNum
  }

  datatype Picked = Picked(send: Sender, oldNum: nat, newNum: nat, diff: seq<byte>)

  /** Marks entry `i` of the queue as sent, or numbers a new empty state if `i` is -1. */
  function Pick(s: Sender, i: int, clock: Clock): (r: Picked)
    requires -1 <= i < |s.outbound|
    ensures r.send.sentStates == s.sentStates
  {
    if i >= 0 then
      var st := s.outbound[i];
      Picked(s.(outbound := s.outbound[i := st.(lastSent := Some(clock.now))],
                allowImmediate := s.allowImmediate && st.lastSent.Some?, forceSend := false),
             st.oldNum, st.newNum, st.diff)
    else
      Picked(s.(sentNum := SatInc(s.sentNum), forceSend := false), Tip(s), SatInc(s.sentNum), [])
  }

  function Instruction(p: Picked, ackNum: nat, chaff: seq<byte>): TransportInstruction {
    TransportInstruction(PROTOCOL_VERSION, p.oldNum, p.newNum, ackNum,
                         MinBase(p.send.outbound, |p.send.outbound|, p.send.localThrowaway), p.diff, chaff)
  }

  function Seal(s: Sender, newNum: nat, sealing: Sealing): Sender {
    match sealing
    case Sealed => s.(sentStates := RecordSent(s.sentStates, newNum))
    case TooLarge => s.(instructionTooLarge := true)
    case Exhausted => s.(cryptoExhausted := true)
  }

  datatype Ticked = Ticked(state: Duplex, wire: Option<TransportInstruction>)

  /** A due tick: what remains to be done once the queue has been coalesced. */
  function Send(s: Sender, r: Receiver, clock: Clock, chaff: seq<byte>, sealing: Sealing): Ticked {
    var p := Pick(s, Chosen(s, AckDue(r, clock), clock), clock);
    Ticked(Duplex(Seal(p.send, p.newNum, sealing), r.(pendingDataAck := false, sentAckNum := r.ackNum)),
           if sealing.Sealed? then Some(Instruction(p, r.ackNum, chaff)) else None)
  }

  function SendIfDue(s: Sender, r: Receiver, clock: Clock, chaff: seq<byte>, sealing: Sealing): Ticked {
    if SendDue(s, AckDue(r, clock), clock) then Send(s, r, clock, chaff, sealing)
    else Ticked(Duplex(s, r), None)
  }

  /** One call of `tick`: the new state, and the instruction put on the wire, if any. */
  function Tick(st: Duplex, clock: Clock, chaff: seq<byte>, sealing: Sealing): Ticked {
    SendIfDue(st.send.(outbound := Coalesce(st.send.outbound)), st.recv, clock, chaff, sealing)
  }

  function Unsend(q: seq<OutboundState>, n: nat): seq<OutboundState>
    requires n <= |q|
  {
    if n == 0 then [] else Unsend(q, n - 1) + [q[n - 1].(lastSent := None)]
  }

  function SetMaxFragmentPayload(s: Sender): Sender {
    s.(outbound := Unsend(s.outbound, |s.outbound|), forceSend := true)
  }

  // ----------------------------------------------------------------- receiving

  /** Index of `n` at or after `i`, or the length if there is none. */
  function Position(nums: seq<nat>, n: nat, i: nat): (k: nat)
    requires i <= |nums|
    ensures k <= |nums|
    decreases |nums| - i
  {
    if i == |nums| || nums[i] == n then i else Position(nums, n, i + 1)
  }

  /** Drops what was sent before the state named by `ack`, if that state is known. */
  function ForgetBefore(nums: seq<nat>, ack: nat): (r: seq<nat>)
    ensures |r| <= |nums|
  {
    var k := Position(nums, ack, 0);
    if k < |nums| then nums[k..] else nums
  }

  function NewerThan(n: nat): OutboundState -> bool {
    (st: OutboundState) => st.newNum > n
  }

  function BasedFrom(n: nat): OutboundState -> bool {
    (st: OutboundState) => st.oldNum >= n
  }

  /** The part of the queue an acknowledgement leaves. After an overflow, states based on
      anything older than the acknowledged one go too. */
  function AfterAck(q: seq<OutboundState>, ack: nat, overflowed: bool): seq<OutboundState> {
    var newer := Retain(q, NewerThan(ack));
    if overflowed then Retain(newer, BasedFrom(ack)) else newer
  }

  /** Moves the acknowledged base forward and drops what no longer stands on it. */
  function Adopt(s: Sender, ack: nat): Sender {
    var newer := Retain(s.outbound, NewerThan(ack));
    var kept := AfterAck(s.outbound, ack, s.overflowed);
    s.(ackedByRemote := ack, localThrowaway := ack, outbound := kept,
       allowImmediate := s.allowImmediate || newer == [],
       rebaseRequired := if s.overflowed then |kept| < |newer| else s.rebaseRequired,
       overflowed := false)
  }

  function ApplyAck(s: Sender, ack: nat): Sender {
    var known := Position(s.sentStates, ack, 0) < |s.sentStates|;
    var s1 := s.(sentStates := ForgetBefore(s.sentStates, ack));
    if known && s.ackedByRemote < ack <= s.sentNum then Adopt(s1, ack) else s1
  }

  function AtLeast(n: nat): nat -> bool {
    (m: nat) => m >= n
  }

  function Prune(nums: seq<nat>, throwaway: nat): seq<nat> {
    Retain(nums, AtLeast(throwaway))
  }

  function Honor(r: Receiver, throwaway: nat): Receiver {
    if throwaway > r.throwawayNum
    then r.(throwawayNum := throwaway, receivedNums := Prune(r.receivedNums, throwaway))
    else r
  }

  datatype Accepted = Accepted(recv: Receiver, state: Option<ReceivedStateDiff>)

  /** Accepts a numbered diff, or refuses a duplicate, a diff without its base, and
      whatever exceeds the window while the receiver quenches. */
  function Accept(r: Receiver, ti: TransportInstruction, clock: Clock): Accepted {
    if ti.newNum in r.receivedNums || ti.oldNum !in r.receivedNums then Accepted(r, None)
    else
      var h := Honor(r, ti.throwawayNum);
      if |h.receivedNums| > RECEIVED_STATE_CAP && clock.quenched then Accepted(h, None)
      else
        Accepted(h.(receivedNums := h.receivedNums + [ti.newNum],
                    ackNum := Max(h.ackNum, ti.newNum),
                    pendingDataAck := h.pendingDataAck || ti.diff != [] || ti.newNum == U64_MAX),
                 Some(ReceivedStateDiff(ti.oldNum, ti.newNum, h.throwawayNum, ti.diff)))
  }

  datatype Received = Received(state: Duplex, diff: Option<ReceivedStateDiff>)

  /** One whole instruction, after decryption and reassembly. */
  function Receive(st: Duplex, ti: TransportInstruction, clock: Clock): Received {
    if ti.protocolVersion != PROTOCOL_VERSION then Received(st, None)
    else
      var a := Accept(st.recv, ti, clock);
      Received(Duplex(ApplyAck(st.send, ti.ackNum), a.recv), a.state)
  }
}
