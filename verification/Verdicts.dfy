/** What a host frame makes of the guesses, read off the guesses and the frame: which are retired,
    which are kept, and when one that the host contradicts takes the others with it. */
module Verdicts {
  import opened Basics
  import opened Sgr
  import opened Screen
  import opened Prediction

  // ------------------------------------------------------------------------- single guesses

  predicate OnScreen(host: Frame, g: Guess) { g.y < |host.grid| && g.x < |host.grid[g.y]| }

  /** The server has echoed the input behind the guess, or numbers no frames at all. */
  predicate Echoed(p: Predictor, g: Guess) { p.sent == 0 || g.expires <= p.late }

  /** A definite glyph. */
  predicate Definite(g: Guess) { !g.unknown && g.ch != ' ' && g.ch != '\0' }

  predicate Differs(host: Frame, g: Guess) { OnScreen(host, g) && Definite(g) && host.grid[g.y][g.x].ch != g.ch }

  /** The host's cell is still blank, and without frame numbers that may be because it is late. */
  predicate Stalls(p: Predictor, host: Frame, g: Guess) {
    p.sent == 0 && Differs(host, g) && host.grid[g.y][g.x].ch in {' ', '\0'}
  }

  /** The host contradicts the guess, or has no such cell. */
  predicate Contradicted(p: Predictor, host: Frame, g: Guess) {
    Echoed(p, g) && !Stalls(p, host, g) && (!OnScreen(host, g) || Differs(host, g))
  }

  /** The host bears the guess out, and that says something. */
  predicate Proved(p: Predictor, host: Frame, g: Guess) {
    && Echoed(p, g) && OnScreen(host, g) && Definite(g)
    && host.grid[g.y][g.x].ch == g.ch && g.ch !in g.originals
  }

  predicate Fails(p: Predictor, host: Frame, g: Guess) { !p.preference.Experimental? && Contradicted(p, host, g) }

  lemma {:induction false} JudgeIs(p: Predictor, g: Guess, host: Frame)
    ensures Judge(p, g, host) ==
      if !Echoed(p, g) then Waiting
      else if Stalls(p, host, g) then Stalled
      else if Fails(p, host, g) then (if g.epoch > p.confirmed then Killed else Refuted)
      else if Proved(p, host, g) then Credited
      else Removed
  {}

  // ----------------------------------------------------------------------------- the walk

  /** The highest epoch proved by the first `n` guesses, or the one confirmed before. */
  function ProvedTo(p: Predictor, host: Frame, n: nat): nat
    requires n <= |p.pending|
  {
    if n == 0 then p.confirmed
    else
      var c := ProvedTo(p, host, n - 1);
      if Proved(p, host, p.pending[n - 1]) && p.pending[n - 1].epoch > c then p.pending[n - 1].epoch else c
  }

  /** Guess `k` with the host's attributes at the last proved one of the first `n` that stands
      before it in its row. */
  function Worn(p: Predictor, host: Frame, k: nat, n: nat): (g: Guess)
    requires k < |p.pending| && n <= |p.pending|
    ensures g == p.pending[k].(attr := g.attr)
  {
    if n == 0 then p.pending[k]
    else
      var o := p.pending[n - 1];
      if n - 1 < k && Proved(p, host, o) && o.y == p.pending[k].y
      then p.pending[k].(attr := Some(host.grid[o.y][o.x].attr)) else Worn(p, host, k, n - 1)
  }

  /** Of the first `n` guesses those not echoed yet. */
  function Unechoed(p: Predictor, host: Frame, n: nat): seq<Guess>
    requires n <= |p.pending|
  {
    if n == 0 then []
    else Unechoed(p, host, n - 1) + if Echoed(p, p.pending[n - 1]) then [] else [Worn(p, host, n - 1, n - 1)]
  }

  /** The guesses from `n` on. */
  function Behind(p: Predictor, host: Frame, n: nat): (s: seq<Guess>)
    requires n <= |p.pending|
    ensures |s| == |p.pending| - n
  {
    seq(|p.pending| - n, i requires 0 <= i < |p.pending| - n => Worn(p, host, n + i, n))
  }

  /** How many of the first `n` have been echoed. */
  function EchoedAmong(p: Predictor, n: nat): nat
    requires n <= |p.pending|
  {
    if n == 0 then 0 else EchoedAmong(p, n - 1) + if Echoed(p, p.pending[n - 1]) then 1 else 0
  }

  /** One of the first `n` was proved within 250 ms. */
  predicate ProvedSoon(p: Predictor, host: Frame, n: nat, now: nat)
    requires n <= |p.pending|
  {
    exists j :: 0 <= j < n && Proved(p, host, p.pending[j]) && (if now > p.pending[j].at then now - p.pending[j].at else 0) < 250
  }

  /** The walk goes as far as guess `i`: the first that stalls it or fails, or past the last. */
  predicate GoesTo(p: Predictor, host: Frame, i: nat) {
    && i <= |p.pending|
    && (forall j :: 0 <= j < i ==> !Stalls(p, host, p.pending[j]) && !Fails(p, host, p.pending[j]))
    && (i < |p.pending| ==> Stalls(p, host, p.pending[i]) || Fails(p, host, p.pending[i]))
  }

  function EndingAt(p: Predictor, host: Frame, i: nat): Ending
    requires i <= |p.pending|
  {
    if i == |p.pending| || !Fails(p, host, p.pending[i]) then Finished
    else if p.pending[i].epoch > ProvedTo(p, host, i) then KilledBy(p.pending[i].epoch) else RefutedBy
  }

  function Looked(p: Predictor, host: Frame, n: nat, now: nat): Walked
    requires n <= |p.pending|
  {
    Walked(Unechoed(p, host, n), Behind(p, host, n), ProvedTo(p, host, n), ProvedSoon(p, host, n, now), EchoedAmong(p, n), Finished)
  }

  lemma {:induction false} SameVerdict(p: Predictor, host: Frame, g: Guess, h: Guess, confirmed: nat)
    requires h == g.(attr := h.attr)
    ensures var q := p.(confirmed := confirmed);
      && Echoed(q, h) == Echoed(p, g) && Stalls(q, host, h) == Stalls(p, host, g)
      && Fails(q, host, h) == Fails(p, host, g) && Proved(q, host, h) == Proved(p, host, g)
  {}

  lemma {:induction false} WornStep(p: Predictor, host: Frame, k: nat, n: nat)
    requires n < k < |p.pending|
    ensures Worn(p, host, k, n + 1) ==
      if Proved(p, host, p.pending[n]) && p.pending[n].y == p.pending[k].y
      then Worn(p, host, k, n).(attr := Some(host.grid[p.pending[n].y][p.pending[n].x].attr)) else Worn(p, host, k, n)
  {
    hide Proved;
  }

  lemma {:induction false} BehindRest(p: Predictor, host: Frame, n: nat)
    requires n < |p.pending| && !Proved(p, host, p.pending[n])
    ensures Behind(p, host, n)[0] == Worn(p, host, n, n) && Behind(p, host, n)[1..] == Behind(p, host, n + 1)
  {
    hide Worn, Proved;
    forall i | 0 <= i < |p.pending| - n - 1
      ensures Behind(p, host, n)[1..][i] == Behind(p, host, n + 1)[i]
    {
      WornStep(p, host, n + 1 + i, n);
    }
  }

  lemma {:induction false} DressedAt(s: seq<Guess>, n: nat, y: nat, attr: Attr, i: nat)
    requires i < n <= |s|
    ensures |Dressed(s, n, y, attr)| == n
    ensures Dressed(s, n, y, attr)[i] == if s[i].y == y then s[i].(attr := Some(attr)) else s[i]
  {
    DressedLength(s, n, y, attr);
    DressedLength(s, n - 1, y, attr);
    if i < n - 1 {
      DressedAt(s, n - 1, y, attr, i);
    }
  }

  lemma {:induction false} BehindDressed(p: Predictor, host: Frame, n: nat)
    requires n < |p.pending| && Proved(p, host, p.pending[n])
    ensures var more, g := Behind(p, host, n)[1..], p.pending[n];
      && Behind(p, host, n)[0] == Worn(p, host, n, n)
      && Dressed(more, |more|, g.y, host.grid[g.y][g.x].attr) == Behind(p, host, n + 1)
  {
    hide Worn;
    var more, g := Behind(p, host, n)[1..], p.pending[n];
    var attr := host.grid[g.y][g.x].attr;
    DressedLength(more, |more|, g.y, attr);
    forall i | 0 <= i < |more|
      ensures Dressed(more, |more|, g.y, attr)[i] == Behind(p, host, n + 1)[i]
    {
      DressedAt(more, |more|, g.y, attr, i);
      WornStep(p, host, n + 1 + i, n);
    }
  }

  lemma {:induction false} BehindFirst(p: Predictor, host: Frame, n: nat)
    requires n < |p.pending|
    ensures Behind(p, host, n) != [] && Behind(p, host, n)[0] == Worn(p, host, n, n)
  {}

  lemma {:induction false} AttributesAt(host: Frame, g: Guess)
    requires OnScreen(host, g)
    ensures CellAt(host, g.x, g.y) == Some(host.grid[g.y][g.x])
  {}

  lemma {:induction false} SoonStep(p: Predictor, host: Frame, n: nat, now: nat)
    requires n < |p.pending|
    ensures ProvedSoon(p, host, n + 1, now) ==
      (ProvedSoon(p, host, n, now) || (Proved(p, host, p.pending[n]) && SatSub(now, p.pending[n].at) < GLITCH_AGE))
  {
    hide Proved;
  }

  lemma {:induction false} WalkStep(p: Predictor, host: Frame, n: nat, now: nat)
    requires n < |p.pending| && !Stalls(p, host, p.pending[n]) && !Fails(p, host, p.pending[n])
    ensures Walk(p, host, Looked(p, host, n, now), now) == Walk(p, host, Looked(p, host, n + 1, now), now)
  {
    hide Proved, Stalls, Fails, Echoed, Behind, Worn, Judge, Dressed, ProvedSoon;
    var w, g := Looked(p, host, n, now), p.pending[n];
    BehindFirst(p, host, n);
    var h := w.rest[0];
    SameVerdict(p, host, g, h, w.confirmed);
    JudgeIs(p.(confirmed := w.confirmed), h, host);
    SoonStep(p, host, n, now);
    if Proved(p, host, g) {
      ProvedParts(p, host, g);
      AttributesAt(host, g);
      BehindDressed(p, host, n);
      var w', more := Looked(p, host, n + 1, now), w.rest[1..];
      assert Judge(p.(confirmed := w.confirmed), h, host) == Credited;
      assert h == g.(attr := h.attr);
      assert w' == w.(rest := Dressed(more, |more|, h.y, host.grid[g.y][g.x].attr), confirmed := Larger(w.confirmed, h.epoch),
                      quick := w.quick || SatSub(now, h.at) < GLITCH_AGE, removed := w.removed + 1);
    } else {
      BehindRest(p, host, n);
      var w' := Looked(p, host, n + 1, now);
      assert w'.confirmed == w.confirmed && w'.quick == w.quick && w'.rest == w.rest[1..];
      if Echoed(p, g) {
        assert Judge(p.(confirmed := w.confirmed), h, host) == Removed;
        assert w' == w.(rest := w.rest[1..], removed := w.removed + 1);
      } else {
        assert Judge(p.(confirmed := w.confirmed), h, host) == Waiting;
        assert w' == w.(kept := w.kept + [h], rest := w.rest[1..]);
      }
    }
  }

  lemma {:induction false} ProvedParts(p: Predictor, host: Frame, g: Guess)
    requires Proved(p, host, g)
    ensures Echoed(p, g) && OnScreen(host, g)
  {}

  lemma {:induction false} WalkStop(p: Predictor, host: Frame, i: nat, now: nat)
    requires GoesTo(p, host, i)
    ensures Walk(p, host, Looked(p, host, i, now), now) == Looked(p, host, i, now).(ending := EndingAt(p, host, i))
  {
    hide Proved, Stalls, Fails, Behind, Worn, Judge, Dressed, ProvedSoon;
    if i < |p.pending| {
      var w, g := Looked(p, host, i, now), p.pending[i];
      BehindFirst(p, host, i);
      SameVerdict(p, host, g, w.rest[0], w.confirmed);
      JudgeIs(p.(confirmed := w.confirmed), w.rest[0], host);
      FailsEchoed(p, host, g);
    }
  }

  lemma {:induction false} FailsEchoed(p: Predictor, host: Frame, g: Guess)
    ensures Fails(p, host, g) ==> Echoed(p, g) && !Stalls(p, host, g)
    ensures Stalls(p, host, g) ==> Echoed(p, g)
  {}

  lemma {:induction false} WalkFrom(p: Predictor, host: Frame, n: nat, i: nat, now: nat)
    requires GoesTo(p, host, i) && n <= i
    ensures Walk(p, host, Looked(p, host, n, now), now) == Looked(p, host, i, now).(ending := EndingAt(p, host, i))
    decreases i - n
  {
    hide Walk, Looked, Stalls, Fails;
    if n < i {
      WalkStep(p, host, n, now);
      WalkFrom(p, host, n + 1, i, now);
    } else {
      WalkStop(p, host, i, now);
    }
  }

  lemma {:induction false} LookedStart(p: Predictor, host: Frame, now: nat)
    ensures Looked(p, host, 0, now) == Walked([], p.pending, p.confirmed, false, 0, Finished)
  {
    assert Behind(p, host, 0) == p.pending;
  }

  // ------------------------------------------------------------------------ what comes out

  /** Guesses and cursors from the epoch on are gone, the host's cursor is recorded, and a new epoch
      is opened. */
  ghost predicate KilledFrom(p: Predictor, epoch: nat, host: Frame, q: Predictor) {
    && (forall g :: g in q.pending <==> g in p.pending && g.epoch < epoch)
    && |q.cursors| > 0 && q.cursors[|q.cursors| - 1] == CursorGuess(host.cursor.x, host.cursor.y, p.epoch, SatInc(p.sent))
    && (forall c :: c in q.cursors[..|q.cursors| - 1] <==> c in p.cursors && c.epoch < epoch)
    && q == p.(pending := q.pending, cursors := q.cursors, x := host.cursor.x, y := host.cursor.y, active := true,
               epoch := if p.preference.Experimental? then p.epoch else p.epoch + 1)
  }

  /** Nothing is guessed any more, and the cursor is the host's. */
  predicate ClearedAt(p: Predictor, host: Frame, q: Predictor) {
    q == p.(pending := [], cursors := [], esc := [], count := 0, active := false, x := host.cursor.x, y := host.cursor.y,
            epoch := if p.preference.Experimental? then p.epoch else p.epoch + 1)
  }

  lemma {:induction false} KillIs(p: Predictor, epoch: nat, host: Frame)
    ensures KilledFrom(p, epoch, host, KillEpoch(p, epoch, host))
  {
    RetainMembers(p.pending, GuessBefore(epoch));
    RetainMembers(p.cursors, CursorBefore(epoch));
    var kept := Retain(p.cursors, CursorBefore(epoch));
    var q := KillEpoch(p, epoch, host);
    assert q.cursors[..|q.cursors| - 1] == kept;
  }

  lemma {:induction false} ResetIs(p: Predictor, host: Frame)
    ensures ClearedAt(p, host, AtHost(Reset(p), host))
  {}

  /** The newest guess about the cursor is echoed, and the host has the cursor elsewhere. */
  predicate CursorWrong(p: Predictor, host: Frame) {
    && p.cursors != []
    && var c := p.cursors[|p.cursors| - 1];
       (p.sent == 0 || c.expires <= p.late) && (c.x != host.cursor.x || c.y != host.cursor.y)
  }

  /** What becomes of the cursors: those echoed go; a wrong one takes all guesses with it, or just
      the cursors in experimental mode or without frame numbers. */
  ghost predicate CursorsCulled(p: Predictor, host: Frame, q: Predictor) {
    if CursorWrong(p, host) then
      if p.preference.Experimental? || p.sent == 0
      then q == p.(cursors := [], active := p.pending != [], x := host.cursor.x, y := host.cursor.y)
      else ClearedAt(p, host, q)
    else
      && (forall c :: c in q.cursors <==> c in p.cursors && p.sent > 0 && p.late < c.expires)
      && (if q.cursors == [] && p.pending == []
          then q == p.(cursors := [], active := false, x := host.cursor.x, y := host.cursor.y)
          else q == p.(cursors := q.cursors, active := true))
  }

  lemma {:induction false} CullIs(p: Predictor, host: Frame)
    ensures CursorsCulled(p, host, Cull(p, host))
  {
    RetainMembers(p.cursors, CursorWaiting(p.sent, p.late));
    ResetIs(p, host);
    hide Reset, Retain, BecomeTentative;
  }

  /** A quick proof repairs one glitch, but not two within 150 ms. */
  function Repaired(p: Predictor, now: nat): Predictor {
    if p.glitch > 0 && (p.quickAt.None? || (if now > p.quickAt.value then now - p.quickAt.value else 0) >= 150)
    then p.(glitch := p.glitch - 1, quickAt := Some(now)) else p
  }

  /** The guesses that are left when none fails, before the cursors are looked at. */
  function Retired(p: Predictor, host: Frame, i: nat, now: nat): Predictor
    requires i <= |p.pending|
  {
    var q := p.(pending := Unechoed(p, host, i) + Behind(p, host, i), confirmed := ProvedTo(p, host, i),
                count := p.count + EchoedAmong(p, i));
    if ProvedSoon(p, host, i, now) then Repaired(q, now) else q
  }

  /** What a host frame makes of an active predictor: the walk goes as far as the first guess that
      fails. One of an epoch not confirmed by then takes that epoch and later ones with it, any
      other takes everything; with none failing those echoed are retired. */
  lemma {:induction false} ConfirmIs(p: Predictor, host: Frame, now: nat, i: nat)
    requires p.pending != [] && p.active && GoesTo(p, host, i)
    ensures var q := Confirm(p, host, now);
      if i < |p.pending| && Fails(p, host, p.pending[i]) then
        var r := p.(pending := Unechoed(p, host, i) + Behind(p, host, i), confirmed := ProvedTo(p, host, i));
        if p.pending[i].epoch > ProvedTo(p, host, i) then KilledFrom(r, p.pending[i].epoch, host, q)
        else ClearedAt(r, host, q)
      else CursorsCulled(Retired(p, host, i, now), host, q)
  {
    hide Walk, Fails, Stalls, Unechoed, Behind, ProvedTo, EchoedAmong, ProvedSoon, KillEpoch, Cull, KilledFrom, ClearedAt, CursorsCulled, Reset, Repair, Repaired;
    LookedStart(p, host, now);
    WalkFrom(p, host, 0, i, now);
    var r := p.(pending := Unechoed(p, host, i) + Behind(p, host, i), confirmed := ProvedTo(p, host, i));
    if i < |p.pending| && Fails(p, host, p.pending[i]) {
      KillIs(r, p.pending[i].epoch, host);
      ResetIs(r, host);
    } else {
      EchoedSoon(p, host, i, now);
      RepairIs(r.(count := r.count + EchoedAmong(p, i)), ProvedSoon(p, host, i, now), now);
      CullIs(Retired(p, host, i, now), host);
      SameCount(r, EchoedAmong(p, i));
    }
  }

  lemma {:induction false} SameCount(p: Predictor, n: nat)
    ensures n == 0 ==> p.(count := p.count + n) == p
  {}

  lemma {:induction false} RepairIs(p: Predictor, quick: bool, now: nat)
    ensures Repair(p, quick, now) == if quick then Repaired(p, now) else p
  {}

  lemma {:induction false} EchoedSoon(p: Predictor, host: Frame, n: nat, now: nat)
    requires n <= |p.pending|
    ensures ProvedSoon(p, host, n, now) ==> EchoedAmong(p, n) > 0
  {
    hide Proved;
    if ProvedSoon(p, host, n, now) {
      var j :| 0 <= j < n && Proved(p, host, p.pending[j]) && (if now > p.pending[j].at then now - p.pending[j].at else 0) < 250;
      ProvedParts(p, host, p.pending[j]);
      EchoedCounts(p, n, j);
    }
  }

  lemma {:induction false} EchoedCounts(p: Predictor, n: nat, j: nat)
    requires j < n <= |p.pending| && Echoed(p, p.pending[j])
    ensures EchoedAmong(p, n) > 0
  {
    if n - 1 > j {
      EchoedCounts(p, n - 1, j);
    }
  }

  // ------------------------------------------------------------------------------ in short

  lemma {:induction false} GoesSomewhere(p: Predictor, host: Frame, n: nat) returns (i: nat)
    requires n <= |p.pending| && forall j :: 0 <= j < n ==> !Stalls(p, host, p.pending[j]) && !Fails(p, host, p.pending[j])
    ensures GoesTo(p, host, i)
    decreases |p.pending| - n
  {
    hide Stalls, Fails;
    if n == |p.pending| || Stalls(p, host, p.pending[n]) || Fails(p, host, p.pending[n]) {
      i := n;
    } else {
      i := GoesSomewhere(p, host, n + 1);
    }
  }

  lemma {:induction false} UnechoedMembers(p: Predictor, host: Frame, n: nat)
    requires n <= |p.pending|
    ensures forall g :: g in Unechoed(p, host, n) ==> !Echoed(p, g)
  {
    if n > 0 {
      UnechoedMembers(p, host, n - 1);
    }
  }

  lemma {:induction false} ProvedAtLeast(p: Predictor, host: Frame, n: nat)
    requires n <= |p.pending|
    ensures ProvedTo(p, host, n) >= p.confirmed
  {
    hide Proved;
    if n > 0 {
      ProvedAtLeast(p, host, n - 1);
    }
  }

  lemma {:induction false} FramedNeverStalls(p: Predictor, host: Frame, g: Guess)
    ensures p.sent > 0 ==> !Stalls(p, host, g)
  {}

  lemma {:induction false} CullKeeps(p: Predictor, host: Frame, q: Predictor)
    requires CursorsCulled(p, host, q)
    ensures q.pending == p.pending || q.pending == []
  {}

  /** With frame numbers, and every epoch confirmed: a guess that has been echoed does not stay, and
      if the host contradicts one of them no guess stays at all. */
  lemma {:induction false} EchoedGoes(p: Predictor, host: Frame, now: nat)
    requires p.pending != [] && p.active && p.sent > 0 && !p.preference.Experimental?
    requires forall g :: g in p.pending ==> g.epoch <= p.confirmed
    ensures var q := Confirm(p, host, now);
      && (forall g :: g in q.pending ==> p.late < g.expires)
      && ((exists g :: g in p.pending && Contradicted(p, host, g)) ==>
            q.pending == [] && q.cursors == [] && q.x == host.cursor.x && q.y == host.cursor.y)
  {
    hide Confirm, Stalls, Contradicted, Unechoed, Behind, ProvedTo, CursorsCulled, Retired, Proved;
    var q := Confirm(p, host, now);
    var i := GoesSomewhere(p, host, 0);
    ConfirmIs(p, host, now, i);
    ProvedAtLeast(p, host, i);
    if i < |p.pending| {
      FramedNeverStalls(p, host, p.pending[i]);
      assert p.pending[i] in p.pending;
    } else {
      RetiredPending(p, host, i, now);
      UnechoedMembers(p, host, i);
      CullKeeps(Retired(p, host, i, now), host, q);
    }
  }

  lemma {:induction false} RetiredPending(p: Predictor, host: Frame, i: nat, now: nat)
    requires i == |p.pending|
    ensures Retired(p, host, i, now).pending == Unechoed(p, host, i)
  {
    hide Unechoed, ProvedTo, EchoedAmong, ProvedSoon;
    assert Behind(p, host, i) == [];
  }

  /** In experimental mode no guess fails: a wrong one is retired alone, and nothing is killed. */
  lemma {:induction false} ExperimentalRetires(p: Predictor, host: Frame, now: nat)
    requires p.pending != [] && p.active && p.sent > 0 && p.preference.Experimental?
    ensures CursorsCulled(Retired(p, host, |p.pending|, now), host, Confirm(p, host, now))
    ensures Retired(p, host, |p.pending|, now).pending == Unechoed(p, host, |p.pending|)
  {
    hide Confirm, Stalls, Contradicted, Unechoed, Behind, ProvedTo, CursorsCulled, Retired, Proved;
    forall j | 0 <= j < |p.pending|
      ensures !Stalls(p, host, p.pending[j]) && !Fails(p, host, p.pending[j])
    {
      FramedNeverStalls(p, host, p.pending[j]);
    }
    ConfirmIs(p, host, now, |p.pending|);
    RetiredPending(p, host, |p.pending|, now);
  }

  /** Without frame numbers the walk waits at a blank cell: the guess there and all behind it stay. */
  lemma {:induction false} UnframedWaits(p: Predictor, host: Frame, now: nat, i: nat)
    requires p.pending != [] && p.active && GoesTo(p, host, i) && i < |p.pending| && Stalls(p, host, p.pending[i])
    ensures CursorsCulled(Retired(p, host, i, now), host, Confirm(p, host, now))
    ensures |Retired(p, host, i, now).pending| == |p.pending| - i
  {
    hide Confirm, Contradicted, Behind, ProvedTo, CursorsCulled, Proved;
    FailsEchoed(p, host, p.pending[i]);
    ConfirmIs(p, host, now, i);
    NoneUnechoed(p, host, i);
  }

  lemma {:induction false} NoneUnechoed(p: Predictor, host: Frame, n: nat)
    requires n <= |p.pending| && p.sent == 0
    ensures Unechoed(p, host, n) == []
  {
    if n > 0 {
      NoneUnechoed(p, host, n - 1);
    }
  }

  /** With no guess only the cursors are looked at, and an idle predictor follows the host's. */
  lemma {:induction false} NothingToConfirm(p: Predictor, host: Frame, now: nat)
    ensures p.pending == [] ==> CursorsCulled(p, host, Confirm(p, host, now))
    ensures p.pending != [] && !p.active ==> Confirm(p, host, now) == p.(x := host.cursor.x, y := host.cursor.y)
  {
    hide Cull, CursorsCulled;
    CullIs(p, host);
  }
}
