/**
 * Sequence arithmetic the engine's loops compute: repeated elements,
 * sums of coin values, flattening of per-slot lists, and the frequency
 * count of java.util.Collections.frequency.
 */
module Tally {

  /** n copies of x, as a loop that adds x n times builds them. */
  function Repeat<T>(x: T, n: nat): (r: seq<T>)
    ensures |r| == n
    ensures forall i :: 0 <= i < n ==> r[i] == x
  {
    if n == 0 then [] else Repeat(x, n - 1) + [x]
  }

  /** The sum of a list of coin values, accumulated from the front. */
  function Sum(s: seq<int>): int
  {
    if s == [] then 0 else Sum(s[..|s| - 1]) + s[|s| - 1]
  }

  /** The total value of all coins in a list of coin slots. */
  function SlotsValue(slots: seq<seq<int>>): int
  {
    if slots == [] then 0 else SlotsValue(slots[..|slots| - 1]) + Sum(slots[|slots| - 1])
  }

  /** All elements of all slots, slot by slot, each slot in order. */
  function Flatten<T>(slots: seq<seq<T>>): seq<T>
  {
    if slots == [] then [] else Flatten(slots[..|slots| - 1]) + slots[|slots| - 1]
  }

  /** How many times x occurs in s (Collections.frequency). */
  function Count<T(==)>(s: seq<T>, x: T): (r: nat)
    ensures r == multiset(s)[x]
  {
    if s == [] then 0
    else
      assert s == s[..|s| - 1] + [s[|s| - 1]];
      Count(s[..|s| - 1], x) + (if s[|s| - 1] == x then 1 else 0)
  }

  /** Every entry is positive. */
  predicate Positive(s: seq<int>)
  {
    forall j :: 0 <= j < |s| ==> s[j] > 0
  }

  /** No value occurs twice. */
  predicate Distinct<T(==)>(s: seq<T>)
  {
    forall i, j :: 0 <= i < j < |s| ==> s[i] != s[j]
  }

  lemma {:induction false} SumAppend(a: seq<int>, b: seq<int>)
    ensures Sum(a + b) == Sum(a) + Sum(b)
    decreases |b|
  {
    if b != [] {
      assert (a + b)[..|a + b| - 1] == a + b[..|b| - 1];
      SumAppend(a, b[..|b| - 1]);
    } else {
      assert a + b == a;
    }
  }

  lemma {:induction false} SumRepeat(v: int, k: nat)
    ensures Sum(Repeat(v, k)) == k * v
  {
    if k > 0 {
      assert Repeat(v, k)[..k - 1] == Repeat(v, k - 1);
      SumRepeat(v, k - 1);
    }
  }

  /** Emptying every slot leaves nothing of value. */
  lemma {:induction false} EmptySlots<T>(n: nat)
    ensures SlotsValue(Repeat<seq<int>>([], n)) == 0
    ensures Flatten(Repeat<seq<T>>([], n)) == []
  {
    if n > 0 {
      assert Repeat<seq<int>>([], n)[..n - 1] == Repeat([], n - 1);
      assert Repeat<seq<T>>([], n)[..n - 1] == Repeat([], n - 1);
      EmptySlots<T>(n - 1);
    }
  }

  /** Two equal entries at different positions make a frequency of at least two. */
  lemma {:induction false} CountTwice<T>(s: seq<T>, i: nat, j: nat)
    requires i < j < |s| && s[i] == s[j]
    ensures Count(s, s[i]) >= 2
  {
    var x := s[i];
    assert s == s[..i] + [x] + s[i + 1..j] + [x] + s[j + 1..];
    assert multiset(s)[x] == multiset(s[..i])[x] + 1 + multiset(s[i + 1..j])[x] + 1 + multiset(s[j + 1..])[x];
  }

  /** In a list without repetitions every member occurs exactly once. */
  lemma {:induction false} CountDistinct<T>(s: seq<T>, i: nat)
    requires Distinct(s) && i < |s|
    ensures Count(s, s[i]) == 1
  {
    var x := s[i];
    assert s == s[..i] + [x] + s[i + 1..];
    assert x !in s[..i] by {
      forall k | 0 <= k < i ensures s[k] != x { }
    }
    assert x !in s[i + 1..] by {
      forall k | i < k < |s| ensures s[k] != x { }
    }
  }
}
