/**
 * Why the decoder's pointer walk recovers the block: for any order that sorts the
 * rotations, however it breaks ties between equal ones.
 */
module BwtInverse {
  import opened Prelude
  import opened Buckets
  import opened Rotations
  import opened MtfEncoder

  predicate Distinct(s: seq<nat>) {
    forall i, j {:trigger s[i], s[j]} :: 0 <= i < j < |s| ==> s[i] != s[j]
  }

  predicate IsPermutation(order: seq<nat>, n: nat) {
    && Rows(order, n)
    && Distinct(order)
  }

  /** The rows are a permutation that puts the rotations in non-descending order. */
  predicate SortsRotations(b: Block, order: seq<nat>) {
    && IsPermutation(order, |b|)
    && forall i, j {:trigger order[i], order[j]} :: 0 <= i < j < |order| ==>
         Key(b, order[i], |b|) <= Key(b, order[j], |b|)
  }

  // ----- pigeonholes

  function Numbers(n: nat): (s: set<nat>)
    ensures |s| == n && forall x: nat :: x in s <==> x < n
  {
    if n == 0 then {}
    else
      var m: nat := n - 1;
      Numbers(m) + {m}
  }

  function ToSet(s: seq<nat>): set<nat> { set x | x in s }

  lemma {:induction false} DistinctSet(s: seq<nat>)
    requires Distinct(s)
    ensures |ToSet(s)| == |s|
  {
    if s != [] {
      var t, x := s[..|s| - 1], s[|s| - 1];
      DistinctSet(t);
      assert ToSet(s) == ToSet(t) + {x};
      assert x !in ToSet(t);
    }
  }

  /** Distinct numbers below m are at most m many. */
  lemma {:induction false} Pigeonhole(s: seq<nat>, m: nat)
    requires Distinct(s) && forall i {:trigger s[i]} :: 0 <= i < |s| ==> s[i] < m
    ensures |s| <= m
  {
    DistinctSet(s);
    SubsetSize(ToSet(s), Numbers(m));
  }

  lemma {:induction false} SubsetSize(a: set<nat>, b: set<nat>)
    requires a <= b
    ensures |a| <= |b|
    ensures |a| == |b| ==> a == b
  {
    assert |b| == |a| + |b - a| by {
      assert b == a + (b - a);
    }
  }

  /** A permutation hits every number. */
  lemma {:induction false} PermutationHits(order: seq<nat>, n: nat, r: nat) returns (i: nat)
    requires IsPermutation(order, n) && r < n
    ensures i < n && order[i] == r
  {
    DistinctSet(order);
    SubsetSize(ToSet(order), Numbers(n));
    assert r in ToSet(order);
    i :| i < n && order[i] == r;
  }

  /**
   * A non-descending sequence of keys, rearranged injectively into one that is also
   * non-descending, is unchanged.
   */
  lemma {:induction false} SortedRearrangement(a: seq<nat>, b: seq<nat>, sigma: seq<nat>, j: nat)
    requires |a| == |b| && IsPermutation(sigma, |a|) && j < |a|
    requires forall i {:trigger b[i]} {:trigger sigma[i]} :: 0 <= i < |a| ==> b[i] == a[sigma[i]]
    requires forall i, k {:trigger a[i], a[k]} :: 0 <= i <= k < |a| ==> a[i] <= a[k]
    requires forall i, k {:trigger b[i], b[k]} :: 0 <= i <= k < |b| ==> b[i] <= b[k]
    ensures a[j] == b[j]
  {
    var n := |a|;
    if a[j] < b[j] {
      // the images of j.. all lie past j
      var s := seq(n - j, i requires 0 <= i < n - j => if sigma[j + i] > j then sigma[j + i] - j - 1 else 0);
      forall k {:trigger sigma[k]} | j <= k < n
        ensures sigma[k] > j
      {
        assert b[k] == a[sigma[k]] && b[j] <= b[k];
      }
      Pigeonhole(s, n - j - 1);
    } else if b[j] < a[j] {
      // the images of ..j all lie before j
      var s := sigma[..j + 1];
      forall i {:trigger s[i]} | 0 <= i < |s|
        ensures s[i] < j
      {
        assert b[i] == a[sigma[i]] && b[i] <= b[j];
      }
      Pigeonhole(s, j);
    }
  }

  // ----- the last column and the stable order of it

  lemma {:induction false} ColumnStart(l: seq<byte>)
    ensures Start(l, 256) == |l|
  {
    StartTotal(l, 256);
  }

  /** T^(-1): the position, in the last column, of the j-th byte of the first column. */
  function Back(l: seq<byte>, j: nat): (p: nat)
    requires j < |l|
    ensures p < |l|
  {
    ColumnStart(l);
    At(l, 256, j)
  }

  lemma {:induction false} BackDistinct(l: seq<byte>, j: nat, k: nat)
    requires j < k < |l|
    ensures Back(l, j) != Back(l, k)
    ensures l[Back(l, j)] < l[Back(l, k)] || (l[Back(l, j)] == l[Back(l, k)] && Back(l, j) < Back(l, k))
  {
    ColumnStart(l);
    AtSorted(l, 256, j, k);
  }

  /** The rotation one byte before row i: its first byte is the last column's. */
  function Before(b: Block, order: seq<nat>, i: nat): nat
    requires IsPermutation(order, |b|) && i < |b|
  {
    Prev(|b|, order[i])
  }

  lemma {:induction false} BeforeSorted(b: Block, order: seq<nat>, j: nat, k: nat)
    requires SortsRotations(b, order) && j < k < |b|
    ensures var l, n := LastColumn(b, order), |b|;
            Key(b, Before(b, order, Back(l, j)), n) <= Key(b, Before(b, order, Back(l, k)), n)
  {
    hide Adv, At, Back;
    var l, n := LastColumn(b, order), |b|;
    var p, q := Back(l, j), Back(l, k);
    BackDistinct(l, j, k);
    BeforeKey(b, order, p);
    BeforeKey(b, order, q);
    KeyCompare(b, Before(b, order, p), Before(b, order, q), 1, n - 1);
    if l[p] == l[q] {
      assert Key(b, order[p], n) <= Key(b, order[q], n);
      KeyCompare(b, order[p], order[q], n - 1, 1);
    }
  }

  lemma {:induction false} BeforeKey(b: Block, order: seq<nat>, p: nat)
    requires IsPermutation(order, |b|) && p < |b|
    ensures Key(b, Before(b, order, p), 1) == LastColumn(b, order)[p]
    ensures Adv(|b|, Before(b, order, p), 1) == order[p]
  {
    KeyByte(b, Before(b, order, p));
    assert Adv(|b|, Before(b, order, p), 0) == Before(b, order, p);
  }

  /** The row of the rotation one byte before row Back(j). */
  lemma {:induction false} RowBefore(b: Block, order: seq<nat>, j: nat) returns (i: nat)
    requires IsPermutation(order, |b|) && j < |b|
    ensures i < |b| && order[i] == Before(b, order, Back(LastColumn(b, order), j))
  {
    i := PermutationHits(order, |b|, Before(b, order, Back(LastColumn(b, order), j)));
  }

  lemma {:induction false} RowsBefore(b: Block, order: seq<nat>, m: nat) returns (sigma: seq<nat>)
    requires IsPermutation(order, |b|) && m <= |b|
    ensures |sigma| == m
    ensures forall j {:trigger sigma[j]} :: 0 <= j < m ==>
              sigma[j] < |b| && order[sigma[j]] == Before(b, order, Back(LastColumn(b, order), j))
  {
    sigma := [];
    if m > 0 {
      sigma := RowsBefore(b, order, m - 1);
      var i := RowBefore(b, order, m - 1);
      sigma := sigma + [i];
    }
  }

  /** Row j is the rotation one byte before row Back(j): the two columns match up. */
  lemma {:induction false} RowsMatch(b: Block, order: seq<nat>, j: nat)
    requires SortsRotations(b, order) && j < |b|
    ensures Key(b, order[j], |b|) == Key(b, Before(b, order, Back(LastColumn(b, order), j)), |b|)
  {
    hide Adv, At, Back;
    var n, l := |b|, LastColumn(b, order);
    var sigma := RowsBefore(b, order, n);
    var rows := seq(n, i requires 0 <= i < n => Key(b, order[i], n));
    var before := seq(n, i requires 0 <= i < n => Key(b, Before(b, order, Back(l, i)), n));
    forall i, k {:trigger sigma[i], sigma[k]} | 0 <= i < k < n
      ensures sigma[i] != sigma[k]
    {
      BackDistinct(l, i, k);
      PrevInjective(n, order[Back(l, i)], order[Back(l, k)]);
    }
    forall i, k {:trigger before[i], before[k]} | 0 <= i <= k < n
      ensures before[i] <= before[k]
    {
      if i < k {
        BeforeSorted(b, order, i, k);
      }
    }
    SortedRearrangement(rows, before, sigma, j);
  }

  lemma {:induction false} PrevInjective(n: nat, i: nat, j: nat)
    requires i < n && j < n && i != j
    ensures Prev(n, i) != Prev(n, j)
  {
  }

  lemma {:induction false} BackRotates(b: Block, order: seq<nat>, j: nat)
    requires SortsRotations(b, order) && j < |b|
    ensures Key(b, Next(|b|, order[j]), |b|) == Key(b, order[Back(LastColumn(b, order), j)], |b|)
  {
    RowsMatch(b, order, j);
    RotateBoth(b, order[j], Before(b, order, Back(LastColumn(b, order), j)));
  }

  // ----- the walk

  /** tPos after k fetches. */
  function WalkPos(l: seq<byte>, origPtr: nat, k: nat): (p: nat)
    requires origPtr < |l|
    ensures p < |l|
  {
    if k == 0 then Back(l, origPtr) else Back(l, WalkPos(l, origPtr, k - 1))
  }

  /** The k-th byte fetched. */
  function Fetch(l: seq<byte>, origPtr: nat, k: nat): byte
    requires origPtr < |l|
  {
    l[WalkPos(l, origPtr, k)]
  }

  lemma {:induction false} WalkFollowsRotations(b: Block, order: seq<nat>, origPtr: nat, k: nat)
    requires SortsRotations(b, order) && origPtr < |b| && order[origPtr] == 0
    ensures var p := WalkPos(LastColumn(b, order), origPtr, k);
            Key(b, order[p], |b|) == Key(b, Adv(|b|, 0, k + 1), |b|)
  {
    var n, l := |b|, LastColumn(b, order);
    if k == 0 {
      BackRotates(b, order, origPtr);
      assert Adv(n, 0, 0) == 0 && Adv(n, 0, 1) == Next(n, 0);
    } else {
      WalkFollowsRotations(b, order, origPtr, k - 1);
      var p := WalkPos(l, origPtr, k - 1);
      BackRotates(b, order, p);
      RotateBoth(b, order[p], Adv(n, 0, k));
    }
  }

  /**
   * The walk from origPtr fetches the block, byte for byte, and goes on around it:
   * for every order that sorts the rotations, periodic blocks included.
   */
  lemma {:induction false} WalkRecoversBlock(b: Block, order: seq<nat>, origPtr: nat, k: nat)
    requires SortsRotations(b, order) && origPtr < |b| && order[origPtr] == 0
    ensures Fetch(LastColumn(b, order), origPtr, k) == b[Adv(|b|, 0, k)]
    ensures k < |b| ==> Fetch(LastColumn(b, order), origPtr, k) == b[k]
  {
    hide Back, Key;
    var n := |b|;
    var p := WalkPos(LastColumn(b, order), origPtr, k);
    WalkFollowsRotations(b, order, origPtr, k);
    KeyEqual(b, order[p], Adv(n, 0, k + 1), n, n - 1);
    FullTurn(n, Prev(n, order[p]));
    FullTurn(n, Adv(n, 0, k));
    if k < n {
      AdvSmall(n, 0, k);
    }
  }
}
