/** Cutting a compressed instruction into datagram payloads and putting it together again. */
module Fragments {
  import opened Basics
  import opened Pb

  const HEADER: nat := 10
  const MAX_FRAGMENTS: nat := 0x8000
  const MAX_INSTRUCTION_BYTES: nat := 2048 * 2048

  datatype Fragment = Fragment(id: nat, num: nat, final: bool, payload: seq<byte>)

  // ------------------------------------------------------------------------ the header

  /** The `n` low bytes of `v`, most significant first. */
  function BigEndian(v: nat, n: nat): (s: seq<byte>)
    ensures |s| == n
  {
    if n == 0 then [] else BigEndian(v / 0x100, n - 1) + [(v % 0x100) as byte]
  }

  function Number(s: seq<byte>): nat {
    if s == [] then 0 else Number(s[..|s| - 1]) * 0x100 + s[|s| - 1] as nat
  }

  function Pow256(n: nat): nat { if n == 0 then 1 else 0x100 * Pow256(n - 1) }

  lemma {:induction false} BigEndianReads(v: nat, n: nat)
    requires v < Pow256(n)
    ensures Number(BigEndian(v, n)) == v
  {
    if n > 0 {
      BigEndianReads(v / 0x100, n - 1);
      assert BigEndian(v, n)[..n - 1] == BigEndian(v / 0x100, n - 1);
    }
  }

  lemma {:induction false} BigEndianWrites(s: seq<byte>)
    ensures Number(s) < Pow256(|s|) && BigEndian(Number(s), |s|) == s
  {
    if s != [] {
      BigEndianWrites(s[..|s| - 1]);
      assert s == s[..|s| - 1] + [s[|s| - 1]];
    }
  }

  function EncodeFragment(f: Fragment): seq<byte> {
    BigEndian(f.id, 8) + BigEndian(f.num % MAX_FRAGMENTS + (if f.final then MAX_FRAGMENTS else 0), 2) + f.payload
  }

  function DecodeFragment(data: seq<byte>): Result<Fragment> {
    if |data| < HEADER then Err(Protocol)
    else
      var n := Number(data[8..10]);
      Ok(Fragment(Number(data[..8]), n % MAX_FRAGMENTS, n >= MAX_FRAGMENTS, data[10..]))
  }

  lemma {:induction false} HeaderSizes()
    ensures Pow256(8) == U64_MAX + 1 && Pow256(2) == 2 * MAX_FRAGMENTS
  {
    assert Pow256(4) == U32_SIZE;
  }

  /** A datagram decodes to a fragment exactly if it is that fragment's encoding. */
  lemma {:induction false} FragmentRoundTrip(f: Fragment, data: seq<byte>)
    requires f.id <= U64_MAX && f.num < MAX_FRAGMENTS
    ensures DecodeFragment(data) == Ok(f) <==> data == EncodeFragment(f)
  {
    hide BigEndian, Number, Pow256;
    var word := f.num + if f.final then MAX_FRAGMENTS else 0;
    HeaderSizes();
    BigEndianReads(f.id, 8);
    BigEndianReads(word, 2);
    var e := EncodeFragment(f);
    assert e[..8] == BigEndian(f.id, 8) && e[8..10] == BigEndian(word, 2) && e[10..] == f.payload;
    if |data| >= HEADER {
      BigEndianWrites(data[..8]);
      BigEndianWrites(data[8..10]);
      assert data == data[..8] + data[8..10] + data[10..];
    }
  }

  // --------------------------------------------------------------------------- cutting

  function CeilDiv(a: nat, b: nat): nat
    requires b > 0
  {
    (a + b - 1) / b
  }

  function AtLeastOne(n: nat): (m: nat)
    ensures m >= 1
  {
    if n == 0 then 1 else n
  }

  /** Number of pieces of at most `max` bytes; an empty message is one piece. */
  function Count(data: seq<byte>, max: nat): (n: nat)
    ensures n > 0
    ensures (n - 1) * AtLeastOne(max) <= |data| <= n * AtLeastOne(max)
  {
    CeilBounds(AtLeastOne(|data|), AtLeastOne(max));
    CeilDiv(AtLeastOne(|data|), AtLeastOne(max))
  }

  lemma {:induction false} CeilBounds(a: nat, b: nat)
    requires a > 0 && b > 0
    ensures CeilDiv(a, b) > 0 && (CeilDiv(a, b) - 1) * b < a <= CeilDiv(a, b) * b
  {
    var q, r := (a + b - 1) / b, (a + b - 1) % b;
    assert a + b - 1 == q * b + r;
    assert (q - 1) * b == q * b - b;
  }

  function PieceEnd(data: seq<byte>, max: nat, i: nat): (e: nat)
    ensures e <= |data|
  {
    if i * AtLeastOne(max) < |data| then i * AtLeastOne(max) else |data|
  }

  lemma {:induction false} PieceEnds(data: seq<byte>, max: nat, i: nat)
    ensures PieceEnd(data, max, i) <= PieceEnd(data, max, i + 1)
    ensures i >= Count(data, max) ==> PieceEnd(data, max, i) == |data|
    ensures PieceEnd(data, max, 0) == 0
  {
    assert (i + 1) * AtLeastOne(max) == i * AtLeastOne(max) + AtLeastOne(max);
    if i >= Count(data, max) {
      MulMono(Count(data, max), i, AtLeastOne(max));
    }
  }

  lemma {:induction false} MulMono(a: nat, b: nat, m: nat)
    requires a <= b
    ensures a * m <= b * m
  {}

  function Piece(data: seq<byte>, max: nat, i: nat): seq<byte> {
    PieceEnds(data, max, i);
    data[PieceEnd(data, max, i)..PieceEnd(data, max, i + 1)]
  }

  function FragmentAt(id: nat, data: seq<byte>, max: nat, i: nat): Fragment {
    Fragment(id, i, i + 1 == Count(data, max), Piece(data, max, i))
  }

  function FirstFragments(id: nat, data: seq<byte>, max: nat, n: nat): (s: seq<Fragment>)
    ensures |s| == n && forall i :: 0 <= i < n ==> s[i] == FragmentAt(id, data, max, i)
  {
    if n == 0 then [] else FirstFragments(id, data, max, n - 1) + [FragmentAt(id, data, max, n - 1)]
  }

  /** Nothing at all if there would be more fragments than numbers. */
  function Fragmentize(id: nat, data: seq<byte>, max: nat): seq<Fragment> {
    if Count(data, max) > MAX_FRAGMENTS then [] else FirstFragments(id, data, max, Count(data, max))
  }

  method FragmentizeWithPayload(id: nat, data: seq<byte>, maxPayload: nat) returns (frags: seq<Fragment>)
    ensures frags == Fragmentize(id, data, maxPayload)
  {
    var max := AtLeastOne(maxPayload);
    var n := CeilDiv(AtLeastOne(|data|), max);
    frags := [];
    if n > MAX_FRAGMENTS {
      return;
    }
    for i := 0 to n
      invariant frags == FirstFragments(id, data, maxPayload, i)
    {
      assert max * i == i * max && (i + 1) * max == i * max + max;
      MulMono(i, n - 1, max);
      var start := if i * max < |data| then i * max else |data|;
      var end := if i * max + max < |data| then i * max + max else |data|;
      frags := frags + [Fragment(id, i, i + 1 == n, data[start..end])];
    }
  }

  function Joined(data: seq<byte>, max: nat, n: nat): seq<byte> {
    if n == 0 then [] else Joined(data, max, n - 1) + Piece(data, max, n - 1)
  }

  lemma {:induction false} JoinedIs(data: seq<byte>, max: nat, n: nat)
    ensures Joined(data, max, n) == data[..PieceEnd(data, max, n)]
  {
    if n == 0 {
      PieceEnds(data, max, 0);
    } else {
      JoinedIs(data, max, n - 1);
      PieceEnds(data, max, n - 1);
    }
  }

  /** The pieces put together are the message. */
  lemma {:induction false} PiecesJoin(data: seq<byte>, max: nat)
    ensures Joined(data, max, Count(data, max)) == data
  {
    JoinedIs(data, max, Count(data, max));
    PieceEnds(data, max, Count(data, max));
  }

  // ------------------------------------------------------------------------ assembling

  datatype Assembly = Assembly(
    currentId: nat, slots: seq<Option<seq<byte>>>, total: Option<nat>, size: nat, hasId: bool)

  const NEW_ASSEMBLY := Assembly(0, [], None, 0, false)

  function Emptied(a: Assembly): Assembly { a.(slots := [], total := None, size := 0) }

  function Widened(slots: seq<Option<seq<byte>>>, n: nat): (s: seq<Option<seq<byte>>>)
    ensures |s| >= n && |s| >= |slots| && s[..|slots|] == slots
    ensures forall i :: |slots| <= i < |s| ==> s[i] == None
    decreases n - |slots|
  {
    if |slots| >= n then slots else Widened(slots + [None], n)
  }

  predicate AllFilled(slots: seq<Option<seq<byte>>>, n: nat) {
    n <= |slots| && forall i :: 0 <= i < n ==> slots[i].Some?
  }

  function Contents(slots: seq<Option<seq<byte>>>, n: nat): seq<byte>
    requires AllFilled(slots, n)
  {
    if n == 0 then [] else Contents(slots, n - 1) + slots[n - 1].value
  }

  /** `Assembler::add`: the assembler afterwards, and the message if it is complete. */
  function Add(a0: Assembly, f: Fragment): (Assembly, Option<seq<byte>>) {
    var a := if !a0.hasId || f.id != a0.currentId then Emptied(a0).(currentId := f.id, hasId := true) else a0;
    var slots := Widened(a.slots, f.num + 1);
    var size := if slots[f.num].None? then a.size + |f.payload| else a.size;
    if slots[f.num].None? && size > MAX_INSTRUCTION_BYTES then (Emptied(a), None)
    else
      var filled := slots[f.num := Some(f.payload)];
      var total := if f.final then Some(f.num + 1) else a.total;
      if total.Some? && AllFilled(filled, total.value) then (Emptied(a), Some(Contents(filled, total.value)))
      else (a.(slots := filled, total := total, size := size), None)
  }

  class Assembler {
    var currentId: nat
    var fragments: seq<Option<seq<byte>>>
    var totalNum: Option<nat>
    var totalSize: nat
    var hasId: bool

    ghost function Value(): Assembly
      reads this
    {
      Assembly(currentId, fragments, totalNum, totalSize, hasId)
    }

    constructor ()
      ensures Value() == NEW_ASSEMBLY
    {
      currentId, fragments, totalNum, totalSize, hasId := 0, [], None, 0, false;
    }

    method Clear()
      modifies this`fragments, this`totalNum, this`totalSize
      ensures Value() == Emptied(old(Value()))
    {
      fragments, totalNum, totalSize := [], None, 0;
    }

    method Widen(n: nat)
      modifies this`fragments
      ensures fragments == Widened(old(fragments), n)
    {
      while |fragments| < n
        invariant Widened(fragments, n) == Widened(old(fragments), n)
      {
        fragments := fragments + [None];
      }
    }

    /** The first `total` slots in order, unless one is missing. */
    method Collect(total: nat) returns (msg: Option<seq<byte>>)
      ensures msg == if AllFilled(fragments, total) then Some(Contents(fragments, total)) else None
    {
      if |fragments| < total {
        return None;
      }
      for i := 0 to total
        invariant AllFilled(fragments, i)
      {
        if fragments[i].None? {
          return None;
        }
      }
      var out := [];
      for i := 0 to total
        invariant out == Contents(fragments, i)
      {
        out := out + fragments[i].value;
      }
      msg := Some(out);
    }

    method AddFragment(f: Fragment) returns (msg: Option<seq<byte>>)
      modifies this
      ensures (Value(), msg) == Add(old(Value()), f)
    {
      hide AllFilled, Contents;
      if !hasId || f.id != currentId {
        currentId, hasId := f.id, true;
        Clear();
      }
      Widen(f.num + 1);
      if fragments[f.num].None? {
        totalSize := totalSize + |f.payload|;
        if totalSize > MAX_INSTRUCTION_BYTES {
          Clear();
          return None;
        }
      }
      fragments := fragments[f.num := Some(f.payload)];
      if f.final {
        totalNum := Some(f.num + 1);
      }
      if totalNum.None? {
        return None;
      }
      msg := Collect(totalNum.value);
      if msg.Some? {
        Clear();
      }
    }
  }

  // --------------------------------------------------------------- what is put together

  /** A message and the size of its pieces. */
  datatype Message = Message(data: seq<byte>, max: nat)

  predicate Sendable(m: Message) { Count(m.data, m.max) <= MAX_FRAGMENTS }

  function FilledSize(slots: seq<Option<seq<byte>>>, n: nat): nat
    requires n <= |slots|
  {
    if n == 0 then 0
    else FilledSize(slots, n - 1) + if slots[n - 1].Some? then |slots[n - 1].value| else 0
  }

  /** The slots hold pieces of the message, each in its place, and the total is right. */
  predicate Holds(a: Assembly, m: Message) {
    var n := Count(m.data, m.max);
    && |a.slots| <= n
    && (forall i :: 0 <= i < |a.slots| && a.slots[i].Some? ==> a.slots[i].value == Piece(m.data, m.max, i))
    && (a.total.Some? <==> |a.slots| == n && a.slots[n - 1].Some?)
    && (a.total.Some? ==> a.total.value == n)
    && a.size == FilledSize(a.slots, |a.slots|)
  }

  /** Piece `i` is there. */
  predicate Has(a: Assembly, i: nat) { i < |a.slots| && a.slots[i].Some? }

  /** Piece `k` is the last one missing, or is there already with all others. */
  predicate CompletedBy(a: Assembly, m: Message, k: nat) {
    forall i :: 0 <= i < Count(m.data, m.max) ==> i == k || Has(a, i)
  }

  lemma {:induction false} FilledBound(slots: seq<Option<seq<byte>>>, m: Message, n: nat)
    requires n <= |slots|
    requires forall i :: 0 <= i < n && slots[i].Some? ==> slots[i].value == Piece(m.data, m.max, i)
    ensures FilledSize(slots, n) <= |Joined(m.data, m.max, n)|
    ensures AllFilled(slots, n) ==>
      Contents(slots, n) == Joined(m.data, m.max, n) && FilledSize(slots, n) == |Joined(m.data, m.max, n)|
  {
    if n > 0 {
      FilledBound(slots, m, n - 1);
    }
  }

  lemma {:induction false} FilledSame(s: seq<Option<seq<byte>>>, t: seq<Option<seq<byte>>>, n: nat)
    requires n <= |s| && n <= |t| && s[..n] == t[..n]
    ensures FilledSize(s, n) == FilledSize(t, n)
  {
    if n > 0 {
      assert s[..n - 1] == s[..n][..n - 1] && t[..n - 1] == t[..n][..n - 1];
      assert s[n - 1] == s[..n][n - 1] && t[n - 1] == t[..n][n - 1];
      FilledSame(s, t, n - 1);
    }
  }

  lemma {:induction false} FilledBlank(s: seq<Option<seq<byte>>>, k: nat, n: nat)
    requires k <= n <= |s| && forall i :: k <= i < n ==> s[i] == None
    ensures FilledSize(s, n) == FilledSize(s, k)
  {
    if k < n {
      FilledBlank(s, k, n - 1);
    }
  }

  lemma {:induction false} FilledSet(s: seq<Option<seq<byte>>>, i: nat, v: seq<byte>, n: nat)
    requires i < |s| && n <= |s|
    ensures FilledSize(s[i := Some(v)], n) ==
      FilledSize(s, n) + if i >= n then 0 else if s[i].None? then |v| else |v| - |s[i].value|
  {
    if n > 0 {
      FilledSet(s, i, v, n - 1);
    }
  }

  lemma {:induction false} PiecesBound(m: Message, n: nat)
    requires n <= Count(m.data, m.max)
    ensures |Joined(m.data, m.max, n)| <= |m.data|
  {
    JoinedIs(m.data, m.max, n);
  }

  /** The slots with piece `k` filled in. */
  function Filled(a: Assembly, m: Message, k: nat): seq<Option<seq<byte>>> {
    Widened(a.slots, k + 1)[k := Some(Piece(m.data, m.max, k))]
  }

  function FilledTo(a: Assembly, m: Message, k: nat): nat {
    if Has(a, k) then a.size else a.size + |Piece(m.data, m.max, k)|
  }

  lemma {:induction false} WidenedLength(slots: seq<Option<seq<byte>>>, n: nat)
    ensures |Widened(slots, n)| == if |slots| < n then n else |slots|
    decreases n - |slots|
  {
    if |slots| < n {
      WidenedLength(slots + [None], n);
    }
  }

  /** Filling in a piece keeps every slot in its place and the size right. */
  lemma {:induction false} FillKeeps(a: Assembly, m: Message, k: nat)
    requires Holds(a, m) && k < Count(m.data, m.max)
    ensures var s := Filled(a, m, k);
      && |a.slots| <= |s| <= Count(m.data, m.max) && k < |s|
      && (forall i :: 0 <= i < |s| ==> (s[i].Some? <==> i == k || Has(a, i)))
      && (forall i :: 0 <= i < |s| && s[i].Some? ==> s[i].value == Piece(m.data, m.max, i))
      && FilledSize(s, |s|) == FilledTo(a, m, k) <= |m.data|
  {
    hide Count, Piece;
    var w := Widened(a.slots, k + 1);
    var s := Filled(a, m, k);
    WidenedLength(a.slots, k + 1);
    assert forall i :: 0 <= i < |a.slots| ==> w[i] == w[..|a.slots|][i];
    FilledBlank(w, |a.slots|, |w|);
    FilledSame(w, a.slots, |a.slots|);
    FilledSet(w, k, Piece(m.data, m.max, k), |w|);
    FilledBound(s, m, |s|);
    PiecesBound(m, |s|);
  }

  /** What one more piece of the message under way does. */
  lemma {:induction false} AddShape(a: Assembly, id: nat, m: Message, k: nat)
    requires a.hasId && a.currentId == id
    ensures var f := FragmentAt(id, m.data, m.max, k);
            var s, size := Filled(a, m, k), if Widened(a.slots, k + 1)[k].None? then a.size + |f.payload| else a.size;
            var total := if f.final then Some(k + 1) else a.total;
      Add(a, f) == if Widened(a.slots, k + 1)[k].None? && size > MAX_INSTRUCTION_BYTES then (Emptied(a), None)
                   else if total.Some? && AllFilled(s, total.value) then (Emptied(a), Some(Contents(s, total.value)))
                   else (a.(slots := s, total := total, size := size), None)
  {
    hide AllFilled, Contents, Widened, Count, Piece;
  }

  lemma {:induction false} WidenedHas(a: Assembly, k: nat)
    ensures Widened(a.slots, k + 1)[k].Some? <==> Has(a, k)
  {
    var w := Widened(a.slots, k + 1);
    assert forall i :: 0 <= i < |a.slots| ==> w[i] == w[..|a.slots|][i];
  }

  /** A message of at most 4 MiB is complete exactly when its last missing piece arrives. */
  lemma {:induction false} AddCompletes(a: Assembly, id: nat, m: Message, k: nat)
    requires Holds(a, m) && a.hasId && a.currentId == id && k < Count(m.data, m.max)
    requires |m.data| <= 4_194_304
    ensures var r := Add(a, FragmentAt(id, m.data, m.max, k));
      if CompletedBy(a, m, k) then r == (Emptied(a), Some(m.data))
      else r.1 == None && Holds(r.0, m) && r.0.hasId && r.0.currentId == id
           && forall i: nat :: Has(r.0, i) <==> i == k || Has(a, i)
  {
    hide Contents, Widened, Count, Piece, Filled, Add;
    var n := Count(m.data, m.max);
    var s := Filled(a, m, k);
    AddShape(a, id, m, k);
    WidenedHas(a, k);
    FillKeeps(a, m, k);
    FilledBound(s, m, |s|);
    if CompletedBy(a, m, k) {
      assert Has(a, n - 1) || k == n - 1;
      assert |s| == n && AllFilled(s, n);
      PiecesJoin(m.data, m.max);
    }
  }

  /** A longer one never is. */
  lemma {:induction false} TooLongNever(a: Assembly, id: nat, m: Message, k: nat)
    requires Holds(a, m) && a.hasId && a.currentId == id && k < Count(m.data, m.max)
    requires |m.data| > 4_194_304 >= a.size
    ensures var r := Add(a, FragmentAt(id, m.data, m.max, k));
      r.1 == None && Holds(r.0, m) && r.0.hasId && r.0.currentId == id && r.0.size <= MAX_INSTRUCTION_BYTES
  {
    hide Contents, Widened, Count, Piece, Filled, Add;
    var n := Count(m.data, m.max);
    var s := Filled(a, m, k);
    AddShape(a, id, m, k);
    WidenedHas(a, k);
    FillKeeps(a, m, k);
    FilledBound(s, m, |s|);
    PiecesJoin(m.data, m.max);
  }

  // ----------------------------------------------------------------------- whole runs

  /** A fragment that arrives: piece `piece` of the message with number `id`. */
  datatype Arrival = Arrival(id: nat, piece: nat)

  predicate Genuine(sent: map<nat, Message>, d: Arrival) {
    d.id in sent && d.piece < Count(sent[d.id].data, sent[d.id].max)
  }

  predicate AllGenuine(sent: map<nat, Message>, ds: seq<Arrival>) {
    forall i :: 0 <= i < |ds| ==> Genuine(sent, ds[i])
  }

  datatype Assembled = Assembled(a: Assembly, out: seq<seq<byte>>)

  function Take(r: Assembled, f: Fragment): Assembled {
    var s := Add(r.a, f);
    Assembled(s.0, if s.1.Some? then r.out + [s.1.value] else r.out)
  }

  /** Everything the assembler outputs for a run of arrivals. */
  function Assemble(sent: map<nat, Message>, ds: seq<Arrival>): Assembled
    requires AllGenuine(sent, ds)
  {
    if ds == [] then Assembled(NEW_ASSEMBLY, [])
    else
      var d := ds[|ds| - 1];
      Take(Assemble(sent, ds[..|ds| - 1]), FragmentAt(d.id, sent[d.id].data, sent[d.id].max, d.piece))
  }

  predicate InMessage(sent: map<nat, Message>, a: Assembly) {
    a.hasId ==> a.currentId in sent && Holds(a, sent[a.currentId]) && a.size <= MAX_INSTRUCTION_BYTES
  }

  lemma {:induction false} EmptiedHolds(a: Assembly, m: Message)
    ensures Holds(Emptied(a), m)
  {}

  /** A fragment of another message starts that message afresh. */
  function Switched(a: Assembly, id: nat): Assembly {
    if !a.hasId || id != a.currentId then Emptied(a).(currentId := id, hasId := true) else a
  }

  lemma {:induction false} AddSwitches(a: Assembly, f: Fragment)
    ensures Add(a, f) == Add(Switched(a, f.id), f)
  {
    hide Widened, AllFilled, Contents;
  }

  lemma {:induction false} TakeKeeps(sent: map<nat, Message>, a: Assembly, d: Arrival)
    requires InMessage(sent, a) && Genuine(sent, d)
    ensures var m := sent[d.id];
            var r := Add(a, FragmentAt(d.id, m.data, m.max, d.piece));
      InMessage(sent, r.0) && (r.1.Some? ==> r.1.value == m.data && |m.data| <= MAX_INSTRUCTION_BYTES)
  {
    hide Add, Holds, Count, Piece, CompletedBy;
    var m := sent[d.id];
    var b := Switched(a, d.id);
    AddSwitches(a, FragmentAt(d.id, m.data, m.max, d.piece));
    EmptiedHolds(b, m);
    EmptiedHolds(a.(currentId := d.id, hasId := true), m);
    if |m.data| <= MAX_INSTRUCTION_BYTES {
      AddCompletes(b, d.id, m, d.piece);
      HoldsSize(Add(b, FragmentAt(d.id, m.data, m.max, d.piece)).0, m);
    } else {
      TooLongNever(b, d.id, m, d.piece);
    }
  }

  lemma {:induction false} HoldsSize(a: Assembly, m: Message)
    ensures Holds(a, m) ==> a.size <= |m.data|
  {
    if Holds(a, m) {
      FilledBound(a.slots, m, |a.slots|);
      PiecesBound(m, |a.slots|);
    }
  }

  /** Fragments of any messages, in any order, repeated or lost: all that comes out are whole
      messages that were sent, and none of more than 4 MiB. */
  lemma {:induction false} OnlyWholeMessages(sent: map<nat, Message>, ds: seq<Arrival>)
    requires AllGenuine(sent, ds)
    ensures InMessage(sent, Assemble(sent, ds).a)
    ensures forall i :: 0 <= i < |Assemble(sent, ds).out| ==>
      && |Assemble(sent, ds).out[i]| <= MAX_INSTRUCTION_BYTES
      && exists id :: id in sent && Assemble(sent, ds).out[i] == sent[id].data
    decreases |ds|
  {
    hide Add, InMessage, FragmentAt, Count;
    if ds == [] {
      NewInMessage(sent);
    } else {
      assert Genuine(sent, ds[|ds| - 1]);
      OnlyWholeMessages(sent, ds[..|ds| - 1]);
      TakeKeeps(sent, Assemble(sent, ds[..|ds| - 1]).a, ds[|ds| - 1]);
    }
  }

  lemma {:induction false} NewInMessage(sent: map<nat, Message>)
    ensures InMessage(sent, NEW_ASSEMBLY)
  {}

  /** However its fragments arrive, and how often, a message of more than 4 MiB never comes
      out. */
  lemma {:induction false} TooLongNeverOut(id: nat, m: Message, ds: seq<Arrival>)
    requires |m.data| > MAX_INSTRUCTION_BYTES && AllGenuine(map[id := m], ds)
    ensures Assemble(map[id := m], ds).out == []
  {
    hide Assemble, InMessage, AllGenuine;
    var out := Assemble(map[id := m], ds).out;
    var first := if out == [] then m.data else out[0];
    OnlyWholeMessages(map[id := m], ds);
    assert first == m.data;
  }

  /** Every piece is among the first arrivals. */
  predicate Covered(m: Message, ks: seq<nat>) {
    forall i :: 0 <= i < Count(m.data, m.max) ==> i in ks
  }

  function Arrivals(id: nat, ks: seq<nat>): (ds: seq<Arrival>)
    ensures |ds| == |ks|
  {
    seq(|ks|, i requires 0 <= i < |ks| => Arrival(id, ks[i]))
  }

  lemma {:induction false} ArrivalsSnoc(id: nat, m: Message, ks: seq<nat>)
    requires ks != [] && forall i :: 0 <= i < |ks| ==> ks[i] < Count(m.data, m.max)
    ensures AllGenuine(map[id := m], Arrivals(id, ks)) && AllGenuine(map[id := m], Arrivals(id, ks[..|ks| - 1]))
    ensures Assemble(map[id := m], Arrivals(id, ks))
         == Take(Assemble(map[id := m], Arrivals(id, ks[..|ks| - 1])), FragmentAt(id, m.data, m.max, ks[|ks| - 1]))
  {
    hide Take, FragmentAt, Count;
    var ds := Arrivals(id, ks);
    assert ds[..|ds| - 1] == Arrivals(id, ks[..|ks| - 1]);
  }

  lemma {:induction false} Uncovered(id: nat, m: Message, ks: seq<nat>)
    requires |m.data| <= MAX_INSTRUCTION_BYTES && !Covered(m, ks)
    requires forall i :: 0 <= i < |ks| ==> ks[i] < Count(m.data, m.max)
    ensures AllGenuine(map[id := m], Arrivals(id, ks))
    ensures var r := Assemble(map[id := m], Arrivals(id, ks));
      && r.out == []
      && (ks == [] || (r.a.hasId && r.a.currentId == id))
      && Holds(Switched(r.a, id), m) && forall i: nat :: Has(Switched(r.a, id), i) <==> i in ks
    decreases |ks|
  {
    hide Add, Holds, Count, Piece;
    if ks == [] {
      EmptiedHolds(NEW_ASSEMBLY.(currentId := id, hasId := true), m);
    } else {
      var init, k := ks[..|ks| - 1], ks[|ks| - 1];
      assert ks == init + [k];
      ArrivalsSnoc(id, m, ks);
      Uncovered(id, m, init);
      var a := Assemble(map[id := m], Arrivals(id, init)).a;
      AddSwitches(a, FragmentAt(id, m.data, m.max, k));
      AddCompletes(Switched(a, id), id, m, k);
      var i :| 0 <= i < Count(m.data, m.max) && i !in ks;
      assert i != k && !Has(Switched(a, id), i);
    }
  }

  /** In any order and with any repetitions, the message comes out, once, when the last
      missing piece arrives, and not before. */
  lemma {:induction false} CompletesOnLast(id: nat, m: Message, ks: seq<nat>, k: nat)
    requires |m.data| <= MAX_INSTRUCTION_BYTES && !Covered(m, ks) && Covered(m, ks + [k])
    requires k < Count(m.data, m.max) && forall i :: 0 <= i < |ks| ==> ks[i] < Count(m.data, m.max)
    ensures AllGenuine(map[id := m], Arrivals(id, ks)) && AllGenuine(map[id := m], Arrivals(id, ks + [k]))
    ensures Assemble(map[id := m], Arrivals(id, ks)).out == []
    ensures Assemble(map[id := m], Arrivals(id, ks + [k])).out == [m.data]
  {
    hide Add, Holds, Count, Piece;
    Uncovered(id, m, ks);
    assert (ks + [k])[..|ks + [k]| - 1] == ks;
    ArrivalsSnoc(id, m, ks + [k]);
    var a := Assemble(map[id := m], Arrivals(id, ks)).a;
    AddSwitches(a, FragmentAt(id, m.data, m.max, k));
    forall i | 0 <= i < Count(m.data, m.max) && i != k
      ensures Has(Switched(a, id), i)
    {
      assert i in ks + [k];
    }
    AddCompletes(Switched(a, id), id, m, k);
  }

  // ------------------------------------------------------------------- the wire as a whole

  /** The compressor and its inverse; what is expanded to more than 4 MiB is refused. */
  datatype Codec = Codec(deflate: seq<byte> -> seq<byte>, inflate: seq<byte> -> Option<seq<byte>>)

  ghost predicate Inverse(z: Codec) {
    forall s: seq<byte> :: |s| <= MAX_INSTRUCTION_BYTES ==> z.inflate(z.deflate(s)) == Some(s)
  }

  function Received(z: Codec, out: seq<byte>): Result<TransportInstruction> {
    var s := z.inflate(out);
    if s.None? then Err(Protobuf) else Decode(s.value)
  }

  /** An instruction survives encoding, compression, cutting up, loss of order, repetition,
      reassembly, expansion and decoding. */
  lemma {:induction false} WireRoundTrip(z: Codec, ti: TransportInstruction, id: nat, max: nat, ks: seq<nat>, k: nat)
    requires Inverse(z) && InRange(ti) && |Encode(ti)| <= MAX_INSTRUCTION_BYTES
    requires var m := Message(z.deflate(Encode(ti)), max);
      && |m.data| <= MAX_INSTRUCTION_BYTES && Sendable(m)
      && !Covered(m, ks) && Covered(m, ks + [k]) && k < Count(m.data, m.max)
      && forall i :: 0 <= i < |ks| ==> ks[i] < Count(m.data, m.max)
    ensures var m := Message(z.deflate(Encode(ti)), max);
      && AllGenuine(map[id := m], Arrivals(id, ks + [k]))
      && var out := Assemble(map[id := m], Arrivals(id, ks + [k])).out;
         |out| == 1 && Received(z, out[0]) == Ok(ti)
  {
    hide Encode, Decode, Count, Assemble, AllGenuine, InRange;
    var m := Message(z.deflate(Encode(ti)), max);
    CompletesOnLast(id, m, ks, k);
    InstructionRoundTrip(ti);
  }
}
