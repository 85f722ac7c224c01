/** Small datatypes shared by the other modules. */
module Prelude {

  datatype Option<+T> = None | Some(value: T)

  /** The element `x` put at position `j` of a list, as relinking `next` pointers does. */
  function InsertAt<T(!new)>(s: seq<T>, j: nat, x: T): (r: seq<T>)
    requires j <= |s|
    ensures |r| == |s| + 1
    ensures forall k :: 0 <= k < j ==> r[k] == s[k]
    ensures r[j] == x
    ensures forall k :: j < k < |r| ==> r[k] == s[k - 1]
    ensures forall y :: y in r <==> y in s || y == x
  {
    assert s == s[..j] + s[j..];
    s[..j] + [x] + s[j..]
  }

  /** The list without its element at position `j`. */
  function RemoveAt<T(!new)>(s: seq<T>, j: nat): (r: seq<T>)
    requires j < |s|
    ensures |r| == |s| - 1
    ensures forall k :: 0 <= k < j ==> r[k] == s[k]
    ensures forall k :: j <= k < |r| ==> r[k] == s[k + 1]
    ensures forall y :: y in r ==> y in s
    ensures forall y :: y in s ==> y == s[j] || y in r
  {
    var r := s[..j] + s[j + 1..];
    assert forall y :: y in s ==> y == s[j] || y in r by {
      assert s == s[..j] + [s[j]] + s[j + 1..];
    }
    r
  }

  ghost predicate NoDuplicates<T(!new)>(s: seq<T>) {
    forall i, j :: 0 <= i < j < |s| ==> s[i] != s[j]
  }

  function Pow2(k: nat): (n: nat)
    ensures n > 0
  {
    if k == 0 then 1 else 2 * Pow2(k - 1)
  }

  lemma Pow2Grows(a: nat, b: nat)
    requires a < b
    ensures Pow2(a) < Pow2(b)
  {
  }

  /** A count returned as a signed 32-bit number. */
  function ToInt(n: nat): int {
    var m := n % 0x1_0000_0000;
    if m >= 0x8000_0000 then m - 0x1_0000_0000 else m
  }

  /** `r` is the number congruent to `n` modulo 2^32 that fits 32 bits with sign; below 2^31 it is `n`. */
  predicate WrapsTo(n: nat, r: int) {
    && -0x8000_0000 <= r < 0x8000_0000 && (n - r) % 0x1_0000_0000 == 0
    && (n < 0x8000_0000 ==> r == n)
  }

  lemma ToIntWraps(n: nat)
    ensures WrapsTo(n, ToInt(n))
    ensures n < 0x8000_0000 ==> ToInt(n) == n
    ensures -0x8000_0000 <= ToInt(n) < 0x8000_0000
    ensures exists k: int :: n == ToInt(n) + 0x1_0000_0000 * k
  {
    var k := (n - ToInt(n)) / 0x1_0000_0000;
    assert n == ToInt(n) + 0x1_0000_0000 * k;
  }

  /** f(0) + ... + f(n - 1). */
  ghost function Sum(n: nat, f: nat -> nat): nat {
    if n == 0 then 0 else Sum(n - 1, f) + f(n - 1)
  }

  lemma {:induction false} SumPositive(n: nat, f: nat -> nat)
    ensures Sum(n, f) > 0 <==> exists k: nat :: k < n && f(k) > 0
  {
    if n > 0 {
      SumPositive(n - 1, f);
      if k: nat :| k < n && f(k) > 0 { assert k < n - 1 || k == n - 1; }
    }
  }
}
