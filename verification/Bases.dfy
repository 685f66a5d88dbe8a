/** Which base the next state is built on: the acknowledged one, or the newest of those sent so
    recently that the peer may be expected to have them. */
module Bases {
  import opened Basics
  import opened Pb
  import opened Ssp
  import opened Input

  predicate Recent(st: OutboundState, clock: Clock) {
    st.lastSent.Some? && (if clock.now > st.lastSent.value then clock.now - st.lastSent.value else 0) < clock.maxAge
  }

  /** The first `k` entries were all sent recently, and no more in a row. */
  predicate RecentRun(q: seq<OutboundState>, k: nat, clock: Clock) {
    && k <= |q| && (forall i :: 0 <= i < k ==> Recent(q[i], clock))
    && (k < |q| ==> !Recent(q[k], clock))
  }

  /** The newest queued state stands on one that the peer can no longer be expected to have. */
  predicate Lapsed(s: Sender, k: nat, clock: Clock) {
    && s.outbound != [] && RecentRun(s.outbound, k, clock)
    && var newest := s.outbound[|s.outbound| - 1];
       newest.oldNum != s.ackedByRemote && (k == 0 || s.outbound[k - 1].newNum < newest.oldNum)
  }

  lemma {:induction false} FreshFromIs(q: seq<OutboundState>, i: nat, clock: Clock)
    requires i <= |q|
    ensures var k := FreshFrom(q, i, clock);
      && i + k <= |q| && (forall j :: i <= j < i + k ==> Recent(q[j], clock))
      && (i + k < |q| ==> !Recent(q[i + k], clock))
    decreases |q| - i
  {
    if i < |q| && Fresh(q[i], clock) {
      FreshFromIs(q, i + 1, clock);
    }
  }

  lemma {:induction false} OneRun(q: seq<OutboundState>, j: nat, k: nat, clock: Clock)
    requires RecentRun(q, j, clock) && RecentRun(q, k, clock)
    ensures j == k
  {}

  lemma {:induction false} ProspectiveIs(q: seq<OutboundState>, k: nat, clock: Clock)
    requires RecentRun(q, k, clock)
    ensures ProspectiveBase(q, clock) == if k == 0 then None else Some(q[k - 1].newNum)
  {
    hide Recent;
    FreshFromIs(q, 0, clock);
    OneRun(q, k, FreshFrom(q, 0, clock), clock);
  }

  lemma {:induction false} LapsedIs(s: Sender, k: nat, clock: Clock)
    requires RecentRun(s.outbound, k, clock)
    ensures ChainExpired(s, clock) <==> Lapsed(s, k, clock)
  {
    hide Recent;
    ProspectiveIs(s.outbound, k, clock);
  }

  // --------------------------------------------------------------------------- the choice

  /** The count recorded first for state `n`. */
  predicate Counted(counts: seq<(nat, nat)>, n: nat, count: nat) {
    exists i :: 0 <= i < |counts| && counts[i] == (n, count) && forall j :: 0 <= j < i ==> counts[j].0 != n
  }

  lemma {:induction false} CountOfIs(counts: seq<(nat, nat)>, i: nat, n: nat)
    requires i <= |counts|
    ensures var c := CountOf(counts, i, n);
      if c.Some? then exists k :: i <= k < |counts| && counts[k] == (n, c.value) && forall j :: i <= j < k ==> counts[j].0 != n
      else forall j :: i <= j < |counts| ==> counts[j].0 != n
    decreases |counts| - i
  {
    if i < |counts| && counts[i].0 != n {
      CountOfIs(counts, i + 1, n);
    } else if i < |counts| {
      assert counts[i] == (n, counts[i].1);
    }
  }

  /** Sending everything again from the acknowledged state costs nothing, or little. */
  predicate Cheap(full: nat, short: nat) { full <= short || (full < 1000 && full < short + 100) }

  /** A shorter diff can be built on the recently sent state `n`, which covers `count` actions. */
  predicate Shortens(s: Sender, l: Log, k: nat, count: nat, clock: Clock) {
    && !l.forceKnownBase && RecentRun(s.outbound, k, clock) && k > 0
    && Counted(l.sentActionCounts, s.outbound[k - 1].newNum, count) && count <= |l.actions|
    && !Cheap(|EncodeMessage(l.actions)|, |EncodeMessage(l.actions[count..])|)
  }

  /** If one does, it is the base, and the payload is what follows it. */
  lemma {:induction false} RecentIsBase(s: Sender, l: Log, k: nat, count: nat, clock: Clock)
    requires LogOk(l) && Shortens(s, l, k, count, clock)
    ensures ChooseBase(s, l, clock) == Base(s.outbound[k - 1].newNum, EncodeMessage(l.actions[count..]))
  {
    hide EncodeMessage, Recent;
    ProspectiveIs(s.outbound, k, clock);
    CountOfIs(l.sentActionCounts, 0, s.outbound[k - 1].newNum);
    assert l.actions[0..] == l.actions;
  }

  /** Otherwise the acknowledged state is, and the payload is everything not acknowledged. */
  lemma {:induction false} AckedIsBase(s: Sender, l: Log, k: nat, clock: Clock)
    requires LogOk(l) && RecentRun(s.outbound, k, clock) && forall count: nat :: !Shortens(s, l, k, count, clock)
    ensures ChooseBase(s, l, clock) == Base(s.ackedByRemote, EncodeMessage(l.actions))
  {
    hide EncodeMessage, Recent;
    ProspectiveIs(s.outbound, k, clock);
    assert l.actions[0..] == l.actions;
    if !l.forceKnownBase && k > 0 {
      var n := s.outbound[k - 1].newNum;
      CountOfIs(l.sentActionCounts, 0, n);
      var c := CountOf(l.sentActionCounts, 0, n);
      if c.Some? {
        assert Counted(l.sentActionCounts, n, c.value);
        assert !Shortens(s, l, k, c.value, clock);
      }
    }
  }

  // ------------------------------------------------------------------------- the new state

  /** Dirty input goes into one new state at the end of the queue. */
  lemma {:induction false} QueuesOne(s: Sender, l: Log, clock: Clock)
    requires LogOk(l) && l.dirty && l.actions != [] && s.sentNum < U64_MAX
    ensures var b, q := ChooseBase(s, l, clock), QueueInput(s, l, clock);
            var known := b.oldNum == s.ackedByRemote || exists st :: st in s.outbound && st.newNum == b.oldNum;
      && q.send.sentNum == s.sentNum + 1 && q.send.outbound != []
      && q.send.outbound[|q.send.outbound| - 1]
         == OutboundState(if known then b.oldNum else s.ackedByRemote, s.sentNum + 1, b.payload, None)
      && q.log == l.(dirty := false, forceKnownBase := false,
                     sentActionCounts := l.sentActionCounts + [(s.sentNum + 1, |l.actions|)])
  {
    hide ChooseBase;
  }

  /** A queue of 33 loses its entry 16 from the end, and no other; a shorter one none. */
  lemma {:induction false} QueueDrops(s: Sender, oldNum: nat, diff: seq<byte>, i: nat)
    requires |s.outbound| <= 32
    ensures var q := SetPendingFrom(s, oldNum, diff);
      && |q.outbound| == (if |s.outbound| < 32 then |s.outbound| + 1 else 32)
      && (i + 1 < |q.outbound| ==> q.outbound[i] == s.outbound[if |s.outbound| == 32 && i >= 17 then i + 1 else i])
      && q.overflowed == (s.overflowed || |s.outbound| == 32)
  {}

  /** A state sent for the first time is noted last, and of 33 notes that 16 from the end goes. */
  lemma {:induction false} NotesSent(nums: seq<nat>, n: nat, i: nat)
    requires |nums| <= 32
    ensures var r := RecordSent(nums, n);
      if n in nums then r == nums
      else
        && |r| == (if |nums| < 32 then |nums| + 1 else 32) && r[|r| - 1] == n
        && (i + 1 < |r| ==> r[i] == nums[if |nums| == 32 && i >= 17 then i + 1 else i])
  {}

  lemma {:induction false} AcksKeepForce(l: Log, acked: nat)
    ensures Acknowledge(l, acked).forceKnownBase == l.forceKnownBase && Acknowledge(l, acked).dirty == l.dirty
  {}

  lemma {:induction false} AcksKeepSome(l: Log, acked: nat)
    ensures Acknowledge(l, acked).actions != [] ==> l.actions != []
  {}

  /** When queued states lost their base, or the newest can no longer be expected to arrive, all
      input not acknowledged is queued again on the acknowledged state. */
  lemma {:induction false} LapsedRebases(s: Sender, l: Log, turn: Turn, k: nat)
    requires LogOk(l) && s.sentNum < U64_MAX && RecentRun(s.outbound, k, turn.ackClock)
    requires s.rebaseRequired || Lapsed(s, k, turn.ackClock)
    requires ProcessAcks(s, l, turn.ackClock).actions != []
    ensures var q := Prepare(s, l, turn).send;
      && q.outbound != []
      && q.outbound[|q.outbound| - 1]
         == OutboundState(s.ackedByRemote, s.sentNum + 1, EncodeMessage(ProcessAcks(s, l, turn.ackClock).actions), None)
  {
    hide Lapsed, ChainExpired, Acknowledge, EncodeMessage, RecentRun, ChooseBase, QueueInput;
    var l1 := ProcessAcks(s, l, turn.ackClock);
    LapsedIs(s, k, turn.ackClock);
    ProcessAcksOk(s, l, turn.ackClock);
    AcksKeepForce(Rebase(s, l, turn.ackClock), s.ackedByRemote);
    AcksKeepSome(Rebase(s, l, turn.ackClock), s.ackedByRemote);
    var s' := s.(rebaseRequired := false);
    ForcedBase(s', l1, turn.baseClock);
    QueuesOne(s', l1, turn.baseClock);
  }

  lemma {:induction false} ForcedBase(s: Sender, l: Log, clock: Clock)
    requires LogOk(l) && l.forceKnownBase
    ensures ChooseBase(s, l, clock) == Base(s.ackedByRemote, EncodeMessage(l.actions))
  {
    assert l.actions[0..] == l.actions;
  }
}
