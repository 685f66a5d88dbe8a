/** Types and sequence operations shared by every module of the model. */
module Basics {

  newtype byte = x: int | 0 <= x < 256

  const U32_SIZE: nat := 0x1_0000_0000
  const U64_MAX: nat := 0xFFFF_FFFF_FFFF_FFFF
  /** No Rust buffer holds more than `isize::MAX` bytes. */
  const MAX_BUFFER: nat := 0x7FFF_FFFF_FFFF_FFFF

  datatype Option<+T> = None | Some(value: T)

  datatype Error = InvalidKey | Protocol | Protobuf

  datatype Result<+T> = Ok(value: T) | Err(error: Error) {
    predicate IsFailure() { Err? }
    function PropagateFailure<U>(): Result<U>
      requires Err?
    {
      Err(error)
    }
    function Extract(): T
      requires Ok?
    {
      value
    }
  }

  /** `u64::saturating_add(n, 1)`. */
  function SatInc(n: nat): nat {
    if n < U64_MAX then n + 1 else n
  }

  function SatSub(a: nat, b: nat): nat {
    if a < b then 0 else a - b
  }

  function Min(a: int, b: int): int {
    if a <= b then a else b
  }

  function Max(a: int, b: int): int {
    if a <= b then b else a
  }

  /** The first `n` elements of `s` that satisfy `keep`, in order. */
  function RetainUpTo<T(!new)>(s: seq<T>, n: nat, keep: T -> bool): seq<T>
    requires n <= |s|
  {
    if n == 0 then []
    else
      var r := RetainUpTo(s, n - 1, keep);
      if keep(s[n - 1]) then r + [s[n - 1]] else r
  }

  /** Rust's `retain`. */
  function Retain<T(!new)>(s: seq<T>, keep: T -> bool): seq<T> {
    RetainUpTo(s, |s|, keep)
  }

  lemma {:induction false} RetainUpToMembers<T(!new)>(s: seq<T>, n: nat, keep: T -> bool)
    requires n <= |s|
    ensures |RetainUpTo(s, n, keep)| <= n
    ensures forall x :: x in RetainUpTo(s, n, keep) <==> x in s[..n] && keep(x)
  {
    if n > 0 {
      RetainUpToMembers(s, n - 1, keep);
      assert s[..n] == s[..n - 1] + [s[n - 1]];
    }
  }

  lemma {:induction false} RetainMembers<T(!new)>(s: seq<T>, keep: T -> bool)
    ensures |Retain(s, keep)| <= |s|
    ensures forall x :: x in Retain(s, keep) <==> x in s && keep(x)
  {
    RetainUpToMembers(s, |s|, keep);
    assert s[..|s|] == s;
  }
}
