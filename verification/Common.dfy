/** Types shared by several parts of the model. */
module Common {

  datatype Option<+T> = None | Some(value: T)

  // How an upstream server is reached.
  datatype Transport = Stdio | Http | Sse | OpenApi

  // Nanoseconds in a second.
  const SECOND: nat := 1_000_000_000

  // An unsigned 64-bit quantity is a natural number below this bound.
  const U64_MODULUS: nat := 0x1_0000_0000_0000_0000

  const U64_MAX: nat := 0xFFFF_FFFF_FFFF_FFFF

  function Min(a: nat, b: nat): nat {
    if a <= b then a else b
  }

  // Subtraction that stops at zero, as Rust's `saturating_sub`.
  function SaturatingSub(a: nat, b: nat): nat {
    if a >= b then a - b else 0
  }

  // 64-bit multiplication that stops at the largest value.
  function SaturatingMul(a: nat, b: nat): nat {
    Min(a * b, U64_MAX)
  }

  function Pow2(n: nat): (p: nat)
    ensures p >= 1
  {
    if n == 0 then 1 else 2 * Pow2(n - 1)
  }

  lemma {:induction false} Pow2Monotone(m: nat, n: nat)
    requires m <= n
    ensures Pow2(m) <= Pow2(n)
    decreases n - m
  {
    if m < n {
      Pow2Monotone(m, n - 1);
    }
  }

  predicate NoDuplicates<T(==)>(s: seq<T>) {
    forall i, j :: 0 <= i < j < |s| ==> s[i] != s[j]
  }

  predicate Contains(s: string, part: string) {
    exists i | 0 <= i <= |s| :: part <= s[i..]
  }

  function Flatten<T>(parts: seq<seq<T>>): seq<T> {
    if parts == [] then [] else Flatten(parts[..|parts| - 1]) + parts[|parts| - 1]
  }

  // A list of positions below n that only goes up.
  predicate Climbs(at: seq<nat>, n: nat) {
    (forall k :: 0 <= k < |at| ==> at[k] < n) && forall k, l :: 0 <= k < l < |at| ==> at[k] < at[l]
  }

  lemma ClimbsOn(at: seq<nat>, n: nat)
    requires Climbs(at, n)
    ensures Climbs(at, n + 1) && Climbs(at + [n], n + 1)
  {
  }

  function ItemsAt<T>(items: seq<T>, at: seq<nat>): seq<T>
    requires forall k :: 0 <= k < |at| ==> at[k] < |items|
  {
    seq(|at|, k requires 0 <= k < |at| => items[at[k]])
  }

  lemma OneMoreItem<T>(items: seq<T>, at: seq<nat>, i: nat)
    requires i < |items| && forall k :: 0 <= k < |at| ==> at[k] < |items|
    ensures ItemsAt(items, at + [i]) == ItemsAt(items, at) + [items[i]]
  {
  }
}
