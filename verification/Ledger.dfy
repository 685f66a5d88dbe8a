/** How numbered states stand for prefixes of everything the user ever did. The history is
    the full log together with, for every state number, the length of the prefix it denotes. */
module Ledger {
  import opened Basics
  import opened Pb
  import opened Ssp
  import opened Input
  import opened Channel

  datatype History = History(log: seq<UserInstruction>, prefixes: seq<nat>)

  predicate HistoryOk(h: History, top: nat) {
    && |h.prefixes| == top + 1
    && (forall i, j :: 0 <= i <= j <= top ==> h.prefixes[i] <= h.prefixes[j])
    && (forall i :: 0 <= i <= top ==> h.prefixes[i] <= |h.log|)
    && Actions(h.log)
  }

  /** The bytes that lead from state `a` to state `b`. */
  function Between(h: History, a: nat, b: nat): seq<byte> {
    if a < |h.prefixes| && b < |h.prefixes| && h.prefixes[a] <= h.prefixes[b] <= |h.log|
    then EncodeMessage(h.log[h.prefixes[a]..h.prefixes[b]])
    else []
  }

  ghost predicate DiffsOk(h: History, q: seq<OutboundState>, wire: set<TransportInstruction>) {
    && (forall st :: st in q ==> st.diff == Between(h, st.oldNum, st.newNum))
    && (forall ti :: ti in wire ==> ti.diff == Between(h, ti.oldNum, ti.newNum))
  }

  /** How many actions have been drained: the log beyond them is what the client keeps. */
  function Drained(h: History, l: Log): int {
    |h.log| - |l.actions|
  }

  predicate KeepsRest(h: History, l: Log) {
    |l.actions| <= |h.log| && l.actions == h.log[|h.log| - |l.actions|..]
  }

  /** Every recorded count is the prefix length of its state, relative to what is drained. */
  predicate CountsOk(h: History, l: Log, top: nat) {
    forall e :: e in l.sentActionCounts ==>
      && l.lastAcked < e.0 <= top
      && e.0 < |h.prefixes| && h.prefixes[e.0] == Drained(h, l) + e.1
  }

  /** State `n` is covered: it holds just the drained part, or some recorded state up to it
      has the same prefix. */
  ghost predicate Recorded(h: History, l: Log, n: nat)
    requires n < |h.prefixes|
  {
    || h.prefixes[n] == Drained(h, l)
    || exists e :: e in l.sentActionCounts && e.0 <= n && h.prefixes[n] == Drained(h, l) + e.1
  }

  ghost predicate LedgerOk(h: History, l: Log, acked: nat, top: nat) {
    && HistoryOk(h, top)
    && LogOk(l)
    && KeepsRest(h, l)
    && l.lastAcked <= acked <= top
    && h.prefixes[l.lastAcked] == Drained(h, l)
    && CountsOk(h, l, top)
    && (forall n :: l.lastAcked <= n <= top ==> Recorded(h, l, n))
  }

  /** Nothing is stranded: the newest state the sender stands behind denotes as much as any
      state ever numbered, and what it does not denote yet is marked for sending. */
  predicate CoversTip(h: History, s: Sender) {
    Tip(s) < |h.prefixes| && s.sentNum < |h.prefixes| && h.prefixes[Tip(s)] == h.prefixes[s.sentNum]
  }

  predicate Marked(h: History, l: Log, top: nat) {
    l.dirty || (top < |h.prefixes| && h.prefixes[top] == |h.log|)
  }

  // ---------------------------------------------------------------- typing

  function Typed(h: History, u: UserInstruction): History {
    h.(log := h.log + [u])
  }

  lemma {:induction false} TypedBetween(h: History, u: UserInstruction, a: nat, b: nat)
    requires forall i :: 0 <= i < |h.prefixes| ==> h.prefixes[i] <= |h.log|
    ensures Between(Typed(h, u), a, b) == Between(h, a, b)
  {
    if a < |h.prefixes| && b < |h.prefixes| && h.prefixes[a] <= h.prefixes[b] {
      assert Typed(h, u).log[h.prefixes[a]..h.prefixes[b]] == h.log[h.prefixes[a]..h.prefixes[b]];
    }
  }

  lemma {:induction false} TypedDiffs(h: History, u: UserInstruction, q: seq<OutboundState>, wire: set<TransportInstruction>)
    requires forall i :: 0 <= i < |h.prefixes| ==> h.prefixes[i] <= |h.log|
    requires DiffsOk(h, q, wire)
    ensures DiffsOk(Typed(h, u), q, wire)
  {
    forall st | st in q
      ensures st.diff == Between(Typed(h, u), st.oldNum, st.newNum)
    {
      TypedBetween(h, u, st.oldNum, st.newNum);
    }
    forall ti | ti in wire
      ensures ti.diff == Between(Typed(h, u), ti.oldNum, ti.newNum)
    {
      TypedBetween(h, u, ti.oldNum, ti.newNum);
    }
  }

  lemma {:induction false} TypingKeeps(h: History, l: Log, u: UserInstruction, acked: nat, top: nat)
    requires LedgerOk(h, l, acked, top) && Action(u) && !l.dead
    ensures LedgerOk(Typed(h, u), Append(l, u), acked, top)
    ensures Append(l, u).dirty
  {
    var h', l' := Typed(h, u), Append(l, u);
    assert Drained(h', l') == Drained(h, l);
    var k := Drained(h, l);
    assert h'.log[k..] == h.log[k..] + [u];
    forall n | l'.lastAcked <= n <= top
      ensures Recorded(h', l', n)
    {
      assert Recorded(h, l, n);
    }
  }

  // ------------------------------------------------------------ acknowledgements

  lemma {:induction false} MaxCountWitness(counts: seq<(nat, nat)>, n: nat, acked: nat)
    requires n <= |counts|
    ensures forall i :: 0 <= i < n && counts[i].0 <= acked ==> counts[i].1 <= MaxCount(counts, n, acked)
    ensures MaxCount(counts, n, acked) == 0
         || exists i :: 0 <= i < n && counts[i].0 <= acked && counts[i].1 == MaxCount(counts, n, acked)
  {
    if n > 0 {
      MaxCountWitness(counts, n - 1, acked);
    }
  }

  /** The largest recorded count is exactly what the acknowledged state denotes. */
  lemma {:induction false} MaxCountExact(h: History, l: Log, acked: nat, top: nat)
    requires LedgerOk(h, l, acked, top)
    ensures h.prefixes[acked] == Drained(h, l) + MaxCount(l.sentActionCounts, |l.sentActionCounts|, acked)
  {
    var counts := l.sentActionCounts;
    var m := MaxCount(counts, |counts|, acked);
    MaxCountWitness(counts, |counts|, acked);
    if m > 0 {
      var i :| 0 <= i < |counts| && counts[i].0 <= acked && counts[i].1 == m;
      assert counts[i] in counts;
      assert h.prefixes[acked] >= Drained(h, l) + m;
    }
    assert Recorded(h, l, acked);
    if h.prefixes[acked] != Drained(h, l) {
      var e :| e in counts && e.0 <= acked && h.prefixes[acked] == Drained(h, l) + e.1;
      var i :| 0 <= i < |counts| && counts[i] == e;
      assert e.1 <= m;
    }
  }

  /** The log after the acknowledged actions are gone. */
  predicate DrainedBy(l: Log, kept: seq<(nat, nat)>, m: nat, acked: nat, l': Log) {
    && m <= |l.actions|
    && l'.actions == l.actions[m..]
    && l'.lastAcked == acked
    && l'.ackedActionCount == 0
    && |l'.sentActionCounts| == |kept|
    && (forall i :: 0 <= i < |kept| ==> l'.sentActionCounts[i] == (kept[i].0, SatSub(kept[i].1, m)))
    && l'.dirty == l.dirty && l'.dead == l.dead
  }

  lemma {:induction false} AcknowledgeDrains(l: Log, acked: nat)
    requires LogOk(l) && acked > l.lastAcked
    ensures var m := MaxCount(l.sentActionCounts, |l.sentActionCounts|, acked);
            DrainedBy(l, Retain(l.sentActionCounts, After(acked)), m, acked, Acknowledge(l, acked))
  {
    var counts := l.sentActionCounts;
    var kept := Retain(counts, After(acked));
    var m := MaxCount(counts, |counts|, acked);
    MaxCountBound(counts, |counts|, acked, |l.actions|);
    ShiftedEntries(kept, |kept|, m);
    assert l.actions[0..] == l.actions;
  }

  lemma {:induction false} DrainedCounts(h: History, l: Log, kept: seq<(nat, nat)>, m: nat, acked: nat, top: nat, l': Log)
    requires LedgerOk(h, l, acked, top) && DrainedBy(l, kept, m, acked, l')
    requires forall e :: e in kept <==> e in l.sentActionCounts && e.0 > acked
    requires h.prefixes[acked] == Drained(h, l) + m
    ensures KeepsRest(h, l') && Drained(h, l') == h.prefixes[acked]
    ensures CountsOk(h, l', top)
    ensures forall e :: e in kept ==> e.1 >= m && (e.0, e.1 - m) in l'.sentActionCounts
  {
    var k := Drained(h, l);
    assert h.log[k..][m..] == h.log[k + m..];
    forall e' | e' in l'.sentActionCounts
      ensures acked < e'.0 <= top && h.prefixes[e'.0] == k + m + e'.1
    {
      var i :| 0 <= i < |kept| && l'.sentActionCounts[i] == e';
      assert kept[i] in kept;
      assert h.prefixes[kept[i].0] >= h.prefixes[acked];
    }
    forall e | e in kept
      ensures e.1 >= m && (e.0, e.1 - m) in l'.sentActionCounts
    {
      var i :| 0 <= i < |kept| && kept[i] == e;
      assert h.prefixes[e.0] >= h.prefixes[acked];
      assert l'.sentActionCounts[i] == (e.0, e.1 - m);
    }
  }

  lemma {:induction false} DrainedRecorded(h: History, l: Log, kept: seq<(nat, nat)>, m: nat, acked: nat, top: nat, l': Log, n: nat)
    requires LedgerOk(h, l, acked, top) && acked <= n <= top
    requires forall e :: e in kept <==> e in l.sentActionCounts && e.0 > acked
    requires h.prefixes[acked] == Drained(h, l) + m && Drained(h, l') == h.prefixes[acked]
    requires forall e :: e in kept ==> e.1 >= m && (e.0, e.1 - m) in l'.sentActionCounts
    ensures Recorded(h, l', n)
  {
    assert Recorded(h, l, n);
    if h.prefixes[n] != h.prefixes[acked] {
      var e :| e in l.sentActionCounts && e.0 <= n && h.prefixes[n] == Drained(h, l) + e.1;
      assert h.prefixes[n] > h.prefixes[acked];
      assert h.prefixes[e.0] == h.prefixes[n];
      assert e.0 > acked;
      assert e in kept;
      var e' := (e.0, e.1 - m);
      assert e' in l'.sentActionCounts && h.prefixes[n] == Drained(h, l') + e'.1;
    }
  }

  /** Acknowledging drains exactly what the acknowledged state denotes, and nothing else. */
  lemma {:induction false} AcknowledgeKeeps(h: History, l: Log, acked: nat, top: nat)
    requires LedgerOk(h, l, acked, top)
    ensures LedgerOk(h, Acknowledge(l, acked), acked, top)
    ensures Acknowledge(l, acked).lastAcked == acked
    ensures Acknowledge(l, acked).dirty == l.dirty && Acknowledge(l, acked).dead == l.dead
  {
    if acked > l.lastAcked {
      var l' := Acknowledge(l, acked);
      var counts := l.sentActionCounts;
      var m := MaxCount(counts, |counts|, acked);
      var kept := Retain(counts, After(acked));
      MaxCountExact(h, l, acked, top);
      RetainMembers(counts, After(acked));
      AcknowledgeDrains(l, acked);
      DrainedCounts(h, l, kept, m, acked, top, l');
      AcknowledgeOk(l, acked);
      forall n | acked <= n <= top
        ensures Recorded(h, l', n)
      {
        DrainedRecorded(h, l, kept, m, acked, top, l', n);
      }
    }
  }

  /** After the acknowledgements: what the tip does not cover is marked, and the drained
      part is what the acknowledged state denotes. */
  lemma {:induction false} ProcessAcksKeeps(h: History, s: Sender, l: Log, clock: Clock)
    requires LedgerOk(h, l, s.ackedByRemote, s.sentNum)
    requires s.rebaseRequired || CoversTip(h, s)
    requires Marked(h, l, s.sentNum)
    requires s.ackedByRemote <= Tip(s) <= s.sentNum
    ensures var l' := ProcessAcks(s, l, clock);
      && LedgerOk(h, l', s.ackedByRemote, s.sentNum)
      && l'.lastAcked == s.ackedByRemote
      && (l'.dirty || CoversTip(h, s))
      && Marked(h, l', s.sentNum)
      && l'.dead == l.dead
  {
    var r := Rebase(s, l, clock);
    RebaseKeeps(h, l, r, s.ackedByRemote, s.sentNum);
    AcknowledgeKeeps(h, r, s.ackedByRemote, s.sentNum);
    if !r.dirty && s.rebaseRequired {
      assert h.prefixes[l.lastAcked] == |h.log|;
      assert h.prefixes[Tip(s)] >= h.prefixes[l.lastAcked];
    }
  }

  lemma {:induction false} RebaseKeeps(h: History, l: Log, r: Log, acked: nat, top: nat)
    requires LedgerOk(h, l, acked, top)
    requires r == l.(forceKnownBase := r.forceKnownBase, dirty := r.dirty)
    ensures LedgerOk(h, r, acked, top)
  {
    forall n | l.lastAcked <= n <= top
      ensures Recorded(h, r, n)
    {
      assert Recorded(h, l, n);
    }
  }

  // --------------------------------------------------------------- queueing input

  lemma {:induction false} CountOfEntry(counts: seq<(nat, nat)>, i: nat, n: nat)
    requires i <= |counts|
    ensures CountOf(counts, i, n).Some? ==> (n, CountOf(counts, i, n).value) in counts
    decreases |counts| - i
  {
    if i < |counts| && counts[i].0 != n {
      CountOfEntry(counts, i + 1, n);
    }
  }

  lemma {:induction false} RestFrom(h: History, l: Log, c: nat)
    requires KeepsRest(h, l) && c <= |l.actions|
    ensures h.log[Drained(h, l) + c..] == From(l.actions, c)
  {
    assert h.log[Drained(h, l)..][c..] == h.log[Drained(h, l) + c..];
  }

  /** A base other than the known one is the end of the recently sent prefix of the queue. */
  lemma {:induction false} ChooseBaseCases(s: Sender, l: Log, clock: Clock)
    ensures var b := ChooseBase(s, l, clock);
      || b == KnownBase(s, l)
      || (&& Ssp.Queued(s.outbound, b.oldNum)
          && CountOf(l.sentActionCounts, 0, b.oldNum).Some?
          && CountOf(l.sentActionCounts, 0, b.oldNum).value <= |l.actions|
          && b.payload == EncodeMessage(From(l.actions, CountOf(l.sentActionCounts, 0, b.oldNum).value)))
  {
    var candidate := ProspectiveBase(s.outbound, clock);
    if candidate.Some? {
      assert s.outbound[FreshFrom(s.outbound, 0, clock) - 1].newNum == candidate.value;
    }
  }

  lemma {:induction false} KnownPayload(h: History, s: Sender, l: Log, acked: nat, top: nat)
    requires LedgerOk(h, l, acked, top) && l.lastAcked == acked == s.ackedByRemote
    ensures KnownBase(s, l).payload == EncodeMessage(h.log[h.prefixes[acked]..])
  {
    RestFrom(h, l, 0);
  }

  lemma {:induction false} RecordedPayload(h: History, l: Log, acked: nat, top: nat, n: nat, c: nat)
    requires LedgerOk(h, l, acked, top) && (n, c) in l.sentActionCounts && c <= |l.actions|
    ensures n <= top && EncodeMessage(From(l.actions, c)) == EncodeMessage(h.log[h.prefixes[n]..])
  {
    RestFrom(h, l, c);
  }

  /** The base chosen is the acknowledged state or a queued one, never the fallback, and the
      payload is exactly the rest of the log after what that base denotes. */
  lemma {:induction false} ChosenBase(h: History, s: Sender, l: Log, clock: Clock)
    requires LedgerOk(h, l, s.ackedByRemote, s.sentNum) && l.lastAcked == s.ackedByRemote
    ensures var b := ChooseBase(s, l, clock);
      && (b.oldNum == s.ackedByRemote || Ssp.Queued(s.outbound, b.oldNum))
      && b.oldNum < |h.prefixes|
      && b.payload == EncodeMessage(h.log[h.prefixes[b.oldNum]..])
  {
    var b := ChooseBase(s, l, clock);
    var count := CountOf(l.sentActionCounts, 0, b.oldNum);
    ChooseBaseCases(s, l, clock);
    KnownPayload(h, s, l, s.ackedByRemote, s.sentNum);
    CountOfEntry(l.sentActionCounts, 0, b.oldNum);
    if b != KnownBase(s, l) {
      RecordedPayload(h, l, s.ackedByRemote, s.sentNum, b.oldNum, count.value);
    }
  }

  /** One more state number, denoting the whole log. */
  function Numbered(h: History, length: nat): History {
    h.(prefixes := h.prefixes + [length])
  }

  lemma {:induction false} NumberedBetween(h: History, length: nat, a: nat, b: nat)
    requires a < |h.prefixes| && b < |h.prefixes|
    ensures Between(Numbered(h, length), a, b) == Between(h, a, b)
  {}

  lemma {:induction false} NumberedDiffs(h: History, length: nat, top: nat, q: seq<OutboundState>, wire: set<TransportInstruction>)
    requires |h.prefixes| == top + 1 && DiffsOk(h, q, wire)
    requires forall st :: st in q ==> st.oldNum < st.newNum <= top
    requires forall ti :: ti in wire ==> ti.oldNum < ti.newNum <= top
    ensures DiffsOk(Numbered(h, length), q, wire)
  {
    forall st | st in q
      ensures st.diff == Between(Numbered(h, length), st.oldNum, st.newNum)
    {
      NumberedBetween(h, length, st.oldNum, st.newNum);
    }
    forall ti | ti in wire
      ensures ti.diff == Between(Numbered(h, length), ti.oldNum, ti.newNum)
    {
      NumberedBetween(h, length, ti.oldNum, ti.newNum);
    }
  }

  lemma {:induction false} NumberedKeeps(h: History, l: Log, l': Log, length: nat, acked: nat, top: nat)
    requires LedgerOk(h, l, acked, top) && h.prefixes[top] <= length <= |h.log|
    requires l'.actions == l.actions && l'.lastAcked == l.lastAcked && l'.ackedActionCount == 0
    requires l'.sentActionCounts == l.sentActionCounts + [(top + 1, length - Drained(h, l))]
          || (l'.sentActionCounts == l.sentActionCounts && length == h.prefixes[top])
    ensures LedgerOk(Numbered(h, length), l', acked, top + 1)
  {
    var h' := Numbered(h, length);
    forall n | l'.lastAcked <= n <= top + 1
      ensures Recorded(h', l', n)
    {
      if n <= top {
        assert Recorded(h, l, n);
      } else if l'.sentActionCounts == l.sentActionCounts {
        assert Recorded(h, l, top);
      } else {
        var e := (top + 1, length - Drained(h, l));
        assert e in l'.sentActionCounts;
      }
    }
  }

  /** The history after input may have been queued. */
  function AfterQueue(h: History, s: Sender, q: Input.Queued): History {
    if q.send.sentNum > s.sentNum then Numbered(h, |h.log|) else h
  }

  ghost predicate Settled(h: History, l: Log, s: Sender, wire: set<TransportInstruction>) {
    && LedgerOk(h, l, s.ackedByRemote, s.sentNum)
    && l.lastAcked == s.ackedByRemote
    && CoversTip(h, s)
    && !l.dirty && h.prefixes[s.sentNum] == |h.log|
    && DiffsOk(h, s.outbound, wire)
    && Emitted(s, wire)
  }

  lemma {:induction false} QueueNothing(h: History, s: Sender, l: Log, clock: Clock, wire: set<TransportInstruction>)
    requires LedgerOk(h, l, s.ackedByRemote, s.sentNum) && l.lastAcked == s.ackedByRemote
    requires l.dirty || CoversTip(h, s)
    requires Marked(h, l, s.sentNum)
    requires DiffsOk(h, s.outbound, wire) && Emitted(s, wire)
    requires s.ackedByRemote <= Tip(s) <= s.sentNum
    requires !l.dirty || l.actions == []
    ensures var q := QueueInput(s, l, clock); q.send == s && Settled(h, q.log, q.send, wire)
    ensures QueueInput(s, l, clock).log.dead == l.dead
  {
    assert From(l.actions, 0) == l.actions;
    var l' := QueueInput(s, l, clock).log;
    RebaseKeeps(h, l, l', s.ackedByRemote, s.sentNum);
    if l.actions == [] {
      assert h.prefixes[l.lastAcked] == |h.log|;
      assert h.prefixes[Tip(s)] >= h.prefixes[l.lastAcked];
    }
  }

  lemma {:induction false} QueuedDiff(h: History, s: Sender, b: Base)
    requires HistoryOk(h, s.sentNum) && b.oldNum <= s.sentNum
    requires b.payload == EncodeMessage(h.log[h.prefixes[b.oldNum]..])
    ensures b.payload == Between(Numbered(h, |h.log|), b.oldNum, s.sentNum + 1)
  {
    assert h.log[h.prefixes[b.oldNum]..] == h.log[h.prefixes[b.oldNum]..|h.log|];
  }

  lemma {:induction false} QueuedNumBound(s: Sender, n: nat)
    requires SenderOk(s) && (n == s.ackedByRemote || Ssp.Queued(s.outbound, n))
    ensures BaseFor(s, n) == n <= s.sentNum
  {
    if Ssp.Queued(s.outbound, n) {
      var i :| 0 <= i < |s.outbound| && s.outbound[i].newNum == n;
      assert s.outbound[i] in s.outbound;
    }
  }

  lemma {:induction false} QueueShape(s: Sender, l: Log, clock: Clock)
    requires l.dirty && l.actions != [] && l.ackedActionCount == 0
    ensures var b := ChooseBase(s, l, clock);
            var s' := SetPendingFrom(s, b.oldNum, b.payload);
      QueueInput(s, l, clock) == Input.Queued(s',
        l.(dirty := false, forceKnownBase := false,
           sentActionCounts := l.sentActionCounts + [(s'.sentNum, |l.actions|)]))
  {}

  predicate OnlyAdds(q: seq<OutboundState>, added: OutboundState, q': seq<OutboundState>) {
    forall st :: st in q' ==> st in q || st == added
  }

  lemma {:induction false} QueuedDiffs(h: History, s: Sender, b: Base, q: seq<OutboundState>, wire: set<TransportInstruction>)
    requires HistoryOk(h, s.sentNum) && DiffsOk(h, s.outbound, wire) && Emitted(s, wire)
    requires b.oldNum <= s.sentNum && b.payload == EncodeMessage(h.log[h.prefixes[b.oldNum]..])
    requires OnlyAdds(s.outbound, OutboundState(b.oldNum, s.sentNum + 1, b.payload, None), q)
    ensures DiffsOk(Numbered(h, |h.log|), q, wire)
  {
    QueuedDiff(h, s, b);
    NumberedDiffs(h, |h.log|, s.sentNum, s.outbound, wire);
  }

  lemma {:induction false} QueueSomething(h: History, s: Sender, l: Log, clock: Clock, wire: set<TransportInstruction>)
    requires LedgerOk(h, l, s.ackedByRemote, s.sentNum) && l.lastAcked == s.ackedByRemote
    requires DiffsOk(h, s.outbound, wire) && Emitted(s, wire) && s.sentNum < U64_MAX
    requires l.dirty && l.actions != []
    ensures var q := QueueInput(s, l, clock);
      && q.send.sentNum == s.sentNum + 1
      && q.send.ackedByRemote == s.ackedByRemote
      && Settled(Numbered(h, |h.log|), q.log, q.send, wire)
      && q.log.dead == l.dead
  {
    var b := ChooseBase(s, l, clock);
    var s' := SetPendingFrom(s, b.oldNum, b.payload);
    QueueShape(s, l, clock);
    ChosenBase(h, s, l, clock);
    QueuedNumBound(s, b.oldNum);
    SetPendingKeeps(s, b.oldNum, b.payload, wire);
    QueueWith(h, s, l, b, s', wire);
  }

  lemma {:induction false} QueueWith(h: History, s: Sender, l: Log, b: Base, s': Sender, wire: set<TransportInstruction>)
    requires LedgerOk(h, l, s.ackedByRemote, s.sentNum) && l.lastAcked == s.ackedByRemote
    requires HistoryOk(h, s.sentNum)
    requires DiffsOk(h, s.outbound, wire) && Emitted(s, wire)
    requires b.oldNum <= s.sentNum && b.payload == EncodeMessage(h.log[h.prefixes[b.oldNum]..])
    requires Emitted(s', wire) && s'.sentNum == s.sentNum + 1 == Tip(s') && s'.ackedByRemote == s.ackedByRemote
    requires OnlyAdds(s.outbound, OutboundState(b.oldNum, s.sentNum + 1, b.payload, None), s'.outbound)
    requires |h.prefixes| == s'.sentNum
    ensures Settled(Numbered(h, |h.log|),
                    l.(dirty := false, forceKnownBase := false,
                       sentActionCounts := l.sentActionCounts + [(s'.sentNum, |l.actions|)]), s', wire)
  {
    hide *;
    QueuedDiffs(h, s, b, s'.outbound, wire);
    QueuedLedger(h, l, s.ackedByRemote, s.sentNum);
    QueuedSettled(h, l.(dirty := false, forceKnownBase := false,
                        sentActionCounts := l.sentActionCounts + [(s'.sentNum, |l.actions|)]), s', wire);
  }

  lemma {:induction false} QueuedLedger(h: History, l: Log, acked: nat, top: nat)
    requires LedgerOk(h, l, acked, top)
    ensures LedgerOk(Numbered(h, |h.log|),
                     l.(dirty := false, forceKnownBase := false,
                        sentActionCounts := l.sentActionCounts + [(top + 1, |l.actions|)]), acked, top + 1)
  {
    assert |h.log| - Drained(h, l) == |l.actions|;
    NumberedKeeps(h, l, l.(dirty := false, forceKnownBase := false,
                           sentActionCounts := l.sentActionCounts + [(top + 1, |l.actions|)]), |h.log|, acked, top);
  }

  lemma {:induction false} QueuedSettled(h: History, l: Log, s: Sender, wire: set<TransportInstruction>)
    requires s.sentNum > 0 && |h.prefixes| == s.sentNum
    requires LedgerOk(Numbered(h, |h.log|), l, s.ackedByRemote, s.sentNum)
    requires DiffsOk(Numbered(h, |h.log|), s.outbound, wire)
    requires Emitted(s, wire) && Tip(s) == s.sentNum && l.lastAcked == s.ackedByRemote && !l.dirty
    ensures Settled(Numbered(h, |h.log|), l, s, wire)
  {}

  // ------------------------------------------------------------------- the timers

  /** The history after a tick: an empty state denotes what the newest state did. */
  function AfterTick(h: History, before: Sender, after: Sender): History {
    if after.sentNum > before.sentNum && h.prefixes != []
    then Numbered(h, h.prefixes[|h.prefixes| - 1])
    else h
  }

  lemma {:induction false} SubDiffs(h: History, q: seq<OutboundState>, r: seq<OutboundState>, wire: set<TransportInstruction>)
    requires DiffsOk(h, q, wire) && (forall st :: st in r ==> st in q)
    ensures DiffsOk(h, r, wire)
  {}

  lemma {:induction false} SameStatesDiffs(h: History, q: seq<OutboundState>, r: seq<OutboundState>, wire: set<TransportInstruction>)
    requires DiffsOk(h, q, wire) && SameStates(q, r)
    ensures DiffsOk(h, r, wire)
  {
    SameStatesMembers(q, r);
  }

  lemma {:induction false} CoalesceMembers(q: seq<OutboundState>)
    ensures forall st :: st in Coalesce(q) ==> st in q
  {
    var i := LastUnsent(q, |q|);
    if i >= 0 {
      RetainMembers(q, SentOr(q[i].newNum));
    }
  }

  /** A picked state whose diff is what separates the two prefixes. */
  ghost predicate PickSettled(h: History, l: Log, p: Picked, wire: set<TransportInstruction>) {
    && LedgerOk(h, l, p.send.ackedByRemote, p.send.sentNum)
    && CoversTip(h, p.send)
    && h.prefixes[p.send.sentNum] == |h.log|
    && DiffsOk(h, p.send.outbound, wire)
    && p.diff == Between(h, p.oldNum, p.newNum)
  }

  lemma {:induction false} PickQueuedSettled(h: History, l: Log, s: Sender, i: nat, clock: Clock, wire: set<TransportInstruction>)
    requires Settled(h, l, s, wire) && i < |s.outbound|
    ensures PickSettled(h, l, Pick(s, i, clock), wire)
  {
    var p := Pick(s, i, clock);
    PickQueued(s, i, clock, wire);
    SameStatesDiffs(h, s.outbound, p.send.outbound, wire);
    assert p.send.outbound[i] in p.send.outbound;
  }

  lemma {:induction false} PickEmptySettled(h: History, l: Log, s: Sender, clock: Clock, wire: set<TransportInstruction>)
    requires Settled(h, l, s, wire) && s.sentNum < U64_MAX
    ensures PickSettled(Numbered(h, |h.log|), l, Pick(s, -1, clock), wire)
  {
    PickEmpty(s, clock, wire);
    NumberedKeeps(h, l, l, |h.log|, s.ackedByRemote, s.sentNum);
    NumberedDiffs(h, |h.log|, s.sentNum, s.outbound, wire);
    EmptyBetween(Numbered(h, |h.log|), Tip(s), s.sentNum + 1);
  }

  lemma {:induction false} SealSettled(h: History, l: Log, p: Picked, s: Sender, ti: Option<TransportInstruction>, wire: set<TransportInstruction>)
    requires PickSettled(h, l, p, wire) && l.lastAcked == p.send.ackedByRemote && !l.dirty
    requires s.outbound == p.send.outbound && s.sentNum == p.send.sentNum && s.ackedByRemote == p.send.ackedByRemote
    requires ti.Some? ==> ti.value.oldNum == p.oldNum && ti.value.newNum == p.newNum && ti.value.diff == p.diff
    requires Emitted(s, OnWire(wire, ti))
    ensures Settled(h, l, s, OnWire(wire, ti))
  {}

  lemma {:induction false} SendFrom(h: History, l: Log, s: Sender, r: Receiver, clock: Clock, chaff: seq<byte>, sealing: Sealing, wire: set<TransportInstruction>)
    requires Emitted(s, wire) && l.lastAcked == s.ackedByRemote && !l.dirty
    requires Send(s, r, clock, chaff, sealing).state.send.sentNum < U64_MAX
    requires PickSettled(h, l, Pick(s, Chosen(s, AckDue(r, clock), clock), clock), wire)
    ensures var t := Send(s, r, clock, chaff, sealing); Settled(h, l, t.state.send, OnWire(wire, t.wire))
  {
    var i := Chosen(s, AckDue(r, clock), clock);
    var t := Send(s, r, clock, chaff, sealing);
    SendKeeps(s, r, clock, chaff, sealing, wire);
    SealedState(s, r, clock, chaff, sealing);
    PickCounts(s, i, clock);
    SealSettled(h, l, Pick(s, i, clock), t.state.send, t.wire, wire);
  }

  lemma {:induction false} SentCounts(s: Sender, r: Receiver, clock: Clock, chaff: seq<byte>, sealing: Sealing)
    ensures Send(s, r, clock, chaff, sealing).state.send.sentNum
         == if Chosen(s, AckDue(r, clock), clock) >= 0 then s.sentNum else SatInc(s.sentNum)
  {
    SealedState(s, r, clock, chaff, sealing);
    PickCounts(s, Chosen(s, AckDue(r, clock), clock), clock);
  }

  lemma {:induction false} SatIncBelow(n: nat)
    ensures SatInc(n) < U64_MAX ==> n < U64_MAX && SatInc(n) == n + 1
  {}

  lemma {:induction false} SettledParts(h: History, l: Log, s: Sender, wire: set<TransportInstruction>)
    requires Settled(h, l, s, wire)
    ensures Emitted(s, wire) && l.lastAcked == s.ackedByRemote && !l.dirty
    ensures h.prefixes != [] && h.prefixes[|h.prefixes| - 1] == |h.log|
  {}

  lemma {:induction false} SendSettled(h: History, l: Log, s: Sender, r: Receiver, clock: Clock, chaff: seq<byte>, sealing: Sealing, wire: set<TransportInstruction>)
    requires Settled(h, l, s, wire)
    requires Send(s, r, clock, chaff, sealing).state.send.sentNum < U64_MAX
    ensures var t := Send(s, r, clock, chaff, sealing);
            Settled(AfterTick(h, s, t.state.send), l, t.state.send, OnWire(wire, t.wire))
  {
    hide *;
    SatIncBelow(s.sentNum);
    var i := Chosen(s, AckDue(r, clock), clock);
    var t := Send(s, r, clock, chaff, sealing);
    SettledParts(h, l, s, wire);
    SentCounts(s, r, clock, chaff, sealing);
    if i >= 0 {
      PickQueuedSettled(h, l, s, i, clock, wire);
      SendFrom(h, l, s, r, clock, chaff, sealing, wire);
      AfterTickSame(h, s, t.state.send);
    } else {
      PickEmptySettled(h, l, s, clock, wire);
      SendFrom(Numbered(h, |h.log|), l, s, r, clock, chaff, sealing, wire);
      AfterTickMore(h, s, t.state.send);
    }
  }

  lemma {:induction false} AfterTickSame(h: History, before: Sender, after: Sender)
    requires after.sentNum == before.sentNum
    ensures AfterTick(h, before, after) == h
  {}

  lemma {:induction false} AfterTickMore(h: History, before: Sender, after: Sender)
    requires after.sentNum == SatInc(before.sentNum) < U64_MAX
    requires h.prefixes != [] && h.prefixes[|h.prefixes| - 1] == |h.log|
    ensures AfterTick(h, before, after) == Numbered(h, |h.log|)
  {}

  lemma {:induction false} PickCounts(s: Sender, i: int, clock: Clock)
    requires -1 <= i < |s.outbound|
    ensures Pick(s, i, clock).send.sentNum == if i >= 0 then s.sentNum else SatInc(s.sentNum)
    ensures Pick(s, i, clock).send.ackedByRemote == s.ackedByRemote
  {}

  lemma {:induction false} SealShape(s: Sender, newNum: nat, sealing: Sealing)
    ensures var s' := Seal(s, newNum, sealing);
      s'.outbound == s.outbound && s'.sentNum == s.sentNum && s'.ackedByRemote == s.ackedByRemote
  {
    hide RecordSent;
  }

  lemma {:induction false} SealedState(s: Sender, r: Receiver, clock: Clock, chaff: seq<byte>, sealing: Sealing)
    ensures var p := Pick(s, Chosen(s, AckDue(r, clock), clock), clock);
            var t := Send(s, r, clock, chaff, sealing);
      && t.state.send.outbound == p.send.outbound
      && t.state.send.sentNum == p.send.sentNum
      && t.state.send.ackedByRemote == p.send.ackedByRemote
      && (t.wire.Some? ==> t.wire.value.oldNum == p.oldNum && t.wire.value.newNum == p.newNum && t.wire.value.diff == p.diff)
  {
    var p := Pick(s, Chosen(s, AckDue(r, clock), clock), clock);
    SealShape(p.send, p.newNum, sealing);
  }

  lemma {:induction false} EmptyBetween(h: History, a: nat, b: nat)
    requires a < |h.prefixes| && b < |h.prefixes| && h.prefixes[a] == h.prefixes[b] <= |h.log|
    ensures Between(h, a, b) == []
  {
    assert h.log[h.prefixes[a]..h.prefixes[b]] == [];
  }

  lemma {:induction false} TickSettled(h: History, l: Log, d: Duplex, clock: Clock, chaff: seq<byte>, sealing: Sealing, wire: set<TransportInstruction>)
    requires Settled(h, l, d.send, wire)
    requires Tick(d, clock, chaff, sealing).state.send.sentNum < U64_MAX
    ensures var t := Tick(d, clock, chaff, sealing);
            Settled(AfterTick(h, d.send, t.state.send), l, t.state.send, OnWire(wire, t.wire))
  {
    var s := d.send.(outbound := Coalesce(d.send.outbound));
    CoalesceKeeps(d.send, wire);
    CoalesceMembers(d.send.outbound);
    SubDiffs(h, d.send.outbound, s.outbound, wire);
    if SendDue(s, AckDue(d.recv, clock), clock) {
      SendSettled(h, l, s, d.recv, clock, chaff, sealing, wire);
    }
  }
}
