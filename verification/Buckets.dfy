/**
 * Stable counting sort of the positions of a sequence by value. The Huffman
 * decode table `perm` and the inverse Burrows-Wheeler vector are both this order.
 */
module Buckets {

  /** How many positions below i hold v. */
  function Count(s: seq<nat>, v: nat, i: nat): (c: nat)
    requires i <= |s|
    ensures c <= i
  {
    if i == 0 then 0 else Count(s, v, i - 1) + (if s[i - 1] == v then 1 else 0)
  }

  /** Where the bucket of value v begins: how many entries of s are below v. */
  function Start(s: seq<nat>, v: nat): nat {
    if v == 0 then 0 else Start(s, v - 1) + Count(s, v - 1, |s|)
  }

  /** Where position i lands in the stable order. */
  function Slot(s: seq<nat>, i: nat): nat
    requires i < |s|
  {
    Start(s, s[i]) + Count(s, s[i], i)
  }

  /** The m-th position holding v, among those below i. */
  function Nth(s: seq<nat>, v: nat, i: nat, m: nat): (p: nat)
    requires i <= |s| && m < Count(s, v, i)
    ensures p < i && s[p] == v && Count(s, v, p) == m
  {
    if m < Count(s, v, i - 1) then Nth(s, v, i - 1, m) else i - 1
  }

  /** The position in slot k of the stable order of the values below n. */
  function At(s: seq<nat>, n: nat, k: nat): (p: nat)
    requires k < Start(s, n)
    ensures p < |s| && s[p] < n && Slot(s, p) == k
  {
    if k < Start(s, n - 1) then At(s, n - 1, k) else Nth(s, n - 1, |s|, k - Start(s, n - 1))
  }

  lemma {:induction false} CountMonotone(s: seq<nat>, v: nat, i: nat, j: nat)
    requires i <= j <= |s|
    ensures Count(s, v, i) <= Count(s, v, j)
    ensures i < j && s[i] == v ==> Count(s, v, i) < Count(s, v, j)
  {
    if i < j {
      CountMonotone(s, v, i, j - 1);
    }
  }

  lemma {:induction false} CountNone(s: seq<nat>, v: nat, i: nat)
    requires i <= |s| && forall k :: 0 <= k < i ==> s[k] != v
    ensures Count(s, v, i) == 0
  {
    if i > 0 {
      CountNone(s, v, i - 1);
    }
  }

  lemma {:induction false} StartMonotone(s: seq<nat>, v: nat, w: nat)
    requires v <= w
    ensures Start(s, v) <= Start(s, w)
    ensures v < w ==> Start(s, v) + Count(s, v, |s|) <= Start(s, w)
  {
    if v < w {
      StartMonotone(s, v, w - 1);
    }
  }

  /** Slots are ordered by value, then by position. */
  lemma {:induction false} SlotOrder(s: seq<nat>, p: nat, q: nat)
    requires p < |s| && q < |s|
    requires s[p] < s[q] || (s[p] == s[q] && p < q)
    ensures Slot(s, p) < Slot(s, q)
  {
    if s[p] < s[q] {
      CountMonotone(s, s[p], p, |s|);
      StartMonotone(s, s[p], s[q]);
    } else {
      CountMonotone(s, s[p], p, q);
    }
  }

  /** Conversely, the stable order sorts by value and breaks ties by position. */
  lemma {:induction false} AtSorted(s: seq<nat>, n: nat, j: nat, k: nat)
    requires j < k < Start(s, n)
    ensures var p, q := At(s, n, j), At(s, n, k);
            s[p] < s[q] || (s[p] == s[q] && p < q)
  {
    var p, q := At(s, n, j), At(s, n, k);
    if s[q] < s[p] || (s[q] == s[p] && q < p) {
      SlotOrder(s, q, p);
    }
  }

  /** Slot and At undo each other, so the order is a bijection. */
  lemma {:induction false} AtSlot(s: seq<nat>, n: nat, i: nat)
    requires i < |s| && s[i] < n
    ensures Slot(s, i) < Start(s, n) && At(s, n, Slot(s, i)) == i
  {
    CountMonotone(s, s[i], i, |s|);
    StartMonotone(s, s[i], n);
    var p := At(s, n, Slot(s, i));
    if s[p] < s[i] || (s[p] == s[i] && p < i) {
      SlotOrder(s, p, i);
    } else if s[i] < s[p] || (s[i] == s[p] && i < p) {
      SlotOrder(s, i, p);
    }
  }

  /** Counts below i depend on the values below i only. */
  lemma {:induction false} CountOfPrefix(s: seq<nat>, t: seq<nat>, v: nat, i: nat)
    requires i <= |s| && i <= |t| && forall k :: 0 <= k < i ==> s[k] == t[k]
    ensures Count(s, v, i) == Count(t, v, i)
  {
    if i > 0 {
      CountOfPrefix(s, t, v, i - 1);
    }
  }

  lemma {:induction false} StartSnoc(s: seq<nat>, x: nat, n: nat)
    ensures Start(s + [x], n) == Start(s, n) + (if x < n then 1 else 0)
  {
    if n > 0 {
      StartSnoc(s, x, n - 1);
      CountOfPrefix(s, s + [x], n - 1, |s|);
    }
  }

  lemma {:induction false} StartEmpty(n: nat)
    ensures Start([], n) == 0
  {
    if n > 0 {
      StartEmpty(n - 1);
    }
  }

  /** Every position has a place when every value is below n. */
  lemma {:induction false} StartTotal(s: seq<nat>, n: nat)
    requires forall i :: 0 <= i < |s| ==> s[i] < n
    ensures Start(s, n) == |s|
  {
    if s == [] {
      StartEmpty(n);
    } else {
      var t := s[..|s| - 1];
      StartTotal(t, n);
      StartSnoc(t, s[|t|], n);
      assert s == t + [s[|t|]];
    }
  }
}
