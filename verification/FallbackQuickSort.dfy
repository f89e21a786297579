/**
 * fallbackSimpleSort and fallbackQSort3: a range of fmap sorted by eclass, with a small
 * sort below a threshold and three-way partitioning above it, on an explicit stack.
 */
module FallbackQuickSort {
  import opened Prelude
  import opened Buckets

  /** Entries lo..hi of f name entries of e. */
  predicate Named(f: seq<nat>, e: seq<nat>, lo: int, hi: int) {
    0 <= lo && hi < |f| && forall i {:trigger f[i]} :: lo <= i <= hi ==> f[i] < |e|
  }

  /** Entry i of f comes no later than entry j. */
  predicate Le(f: seq<nat>, e: seq<nat>, i: int, j: int) {
    0 <= i < |f| && 0 <= j < |f| && f[i] < |e| && f[j] < |e| && e[f[i]] <= e[f[j]]
  }

  ghost predicate Sorted(f: seq<nat>, e: seq<nat>, lo: int, hi: int) {
    forall i, j {:trigger Le(f, e, i, j)} :: lo <= i < j <= hi ==> Le(f, e, i, j)
  }

  /** f and g hold every value equally often. */
  ghost predicate SameBag(f: seq<nat>, g: seq<nat>) {
    |f| == |g| && forall v: nat {:trigger Count(f, v, |f|)} {:trigger Count(g, v, |g|)} ::
      Count(f, v, |f|) == Count(g, v, |g|)
  }

  /** g rearranges entries lo..hi of f and leaves the others alone. */
  ghost predicate Permuted(f: seq<nat>, g: seq<nat>, lo: int, hi: int) {
    && SameBag(f, g)
    && forall k {:trigger g[k]} :: 0 <= k < |f| && !(lo <= k <= hi) ==> g[k] == f[k]
  }

  function Swap(f: seq<nat>, i: int, j: int): (g: seq<nat>)
    requires 0 <= i < |f| && 0 <= j < |f|
    ensures |g| == |f|
  {
    f[i := f[j]][j := f[i]]
  }

  lemma {:induction false} PermutedSelf(f: seq<nat>, lo: int, hi: int)
    ensures Permuted(f, f, lo, hi)
  {
  }

  lemma {:induction false} PermutedTrans(f: seq<nat>, g: seq<nat>, h: seq<nat>, lo: int, hi: int)
    requires Permuted(f, g, lo, hi) && Permuted(g, h, lo, hi)
    ensures Permuted(f, h, lo, hi)
  {
    forall k {:trigger h[k]} | 0 <= k < |f| && !(lo <= k <= hi)
      ensures h[k] == f[k]
    {
      assert h[k] == g[k];
    }
    forall v: nat {:trigger Count(f, v, |f|)} {:trigger Count(h, v, |h|)}
      ensures Count(f, v, |f|) == Count(h, v, |h|)
    {
      assert Count(f, v, |f|) == Count(g, v, |g|);
    }
  }

  lemma {:induction false} PermutedWider(f: seq<nat>, g: seq<nat>, lo: int, hi: int, lo': int, hi': int)
    requires Permuted(f, g, lo, hi) && lo' <= lo && hi <= hi'
    ensures Permuted(f, g, lo', hi')
  {
  }

  lemma {:induction false} UpdateCount(f: seq<nat>, i: nat, x: nat, v: nat, m: nat)
    requires i < |f| && m <= |f|
    ensures Count(f[i := x], v, m)
         == Count(f, v, m) + (if i < m then (if x == v then 1 else 0) - (if f[i] == v then 1 else 0) else 0)
  {
    if m > 0 {
      UpdateCount(f, i, x, v, m - 1);
    }
  }

  lemma {:induction false} SwapPermutes(f: seq<nat>, i: int, j: int, lo: int, hi: int)
    requires 0 <= lo <= i <= hi < |f| && lo <= j <= hi
    ensures Permuted(f, Swap(f, i, j), lo, hi)
  {
    var g := Swap(f, i, j);
    forall v: nat {:trigger Count(f, v, |f|)} {:trigger Count(g, v, |g|)}
      ensures Count(f, v, |f|) == Count(g, v, |g|)
    {
      UpdateCount(f, i, f[j], v, |f|);
      UpdateCount(f[i := f[j]], j, f[i], v, |f|);
    }
  }

  lemma {:induction false} SameTail(f: seq<nat>, g: seq<nat>, v: nat, m: nat, n: nat)
    requires m <= n <= |f| == |g| && forall k {:trigger g[k]} :: m <= k < n ==> g[k] == f[k]
    ensures Count(f, v, n) - Count(f, v, m) == Count(g, v, n) - Count(g, v, m)
  {
    if m < n {
      SameTail(f, g, v, m, n - 1);
      assert g[n - 1] == f[n - 1];
    }
  }

  lemma {:induction false} FindBetween(f: seq<nat>, v: nat, m: nat, n: nat) returns (k: nat)
    requires m <= n <= |f| && Count(f, v, m) < Count(f, v, n)
    ensures m <= k < n && f[k] == v
  {
    if f[n - 1] == v {
      k := n - 1;
    } else {
      k := FindBetween(f, v, m, n - 1);
    }
  }

  /** An entry of the rearranged range was an entry of the range before. */
  lemma {:induction false} PermutedFrom(f: seq<nat>, g: seq<nat>, lo: int, hi: int, i: int) returns (k: int)
    requires Permuted(f, g, lo, hi) && 0 <= lo <= i <= hi < |f|
    ensures lo <= k <= hi && f[k] == g[i]
  {
    var v := g[i];
    CountMonotone(g, v, i, hi + 1);
    CountMonotone(g, v, lo, i);
    SameTail(f, g, v, 0, lo);
    SameTail(f, g, v, hi + 1, |f|);
    k := FindBetween(f, v, lo, hi + 1);
  }

  lemma {:induction false} PermutedNamed(f: seq<nat>, g: seq<nat>, e: seq<nat>, lo: int, hi: int)
    requires Permuted(f, g, lo, hi) && Named(f, e, lo, hi)
    ensures Named(g, e, lo, hi)
  {
    forall i {:trigger g[i]} | lo <= i <= hi
      ensures g[i] < |e|
    {
      var k := PermutedFrom(f, g, lo, hi, i);
      assert f[k] < |e|;
    }
  }

  // ----- insertion

  /** Entries i..hi are sorted but for the one at p, which is larger than those before it. */
  ghost predicate SortedBut(f: seq<nat>, e: seq<nat>, i: int, hi: int, p: int) {
    && (forall k, m {:trigger Le(f, e, k, m)} :: i <= k < m <= hi && k != p && m != p ==> Le(f, e, k, m))
    && (forall k {:trigger Le(f, e, k, p)} :: i <= k < p ==> Le(f, e, k, p))
  }

  lemma {:induction false} InsertStep(f: seq<nat>, e: seq<nat>, i: int, hi: int, p: int)
    requires 0 <= i <= p < hi < |f| && Named(f, e, i, hi) && SortedBut(f, e, i, hi, p)
    requires e[f[p]] > e[f[p + 1]]
    ensures SortedBut(Swap(f, p, p + 1), e, i, hi, p + 1)
  {
    var g := Swap(f, p, p + 1);
    forall k, m {:trigger Le(g, e, k, m)} | i <= k < m <= hi && k != p + 1 && m != p + 1
      ensures Le(g, e, k, m)
    {
      var k', m' := if k == p then p + 1 else k, if m == p then p + 1 else m;
      assert Le(f, e, k', m');
    }
    forall k {:trigger Le(g, e, k, p + 1)} | i <= k < p + 1
      ensures Le(g, e, k, p + 1)
    {
      if k < p {
        assert Le(f, e, k, p);
      }
    }
  }

  lemma {:induction false} InsertDone(f: seq<nat>, e: seq<nat>, i: int, hi: int, p: int)
    requires 0 <= i <= p <= hi < |f| && Named(f, e, i, hi) && SortedBut(f, e, i, hi, p)
    requires p == hi || e[f[p]] <= e[f[p + 1]]
    ensures Sorted(f, e, i, hi)
  {
    forall k, m {:trigger Le(f, e, k, m)} | i <= k < m <= hi
      ensures Le(f, e, k, m)
    {
      if k == p && m > p + 1 {
        assert Le(f, e, p + 1, m);
      } else if m == p {
        assert Le(f, e, k, p);
      }
    }
  }

  lemma {:induction false} InsertStart(f: seq<nat>, e: seq<nat>, i: int, hi: int)
    requires Sorted(f, e, i + 1, hi)
    ensures SortedBut(f, e, i, hi, i)
  {
  }

  /** Moving entry q into the hole at p moves the hole to q. */
  lemma {:induction false} MoveHole(a: seq<nat>, f: seq<nat>, p: int, q: int, tmp: nat)
    requires 0 <= p < |a| && 0 <= q < |a| && p != q && f == a[p := tmp]
    ensures Swap(f, p, q) == a[p := a[q]][q := tmp]
    ensures forall k {:trigger Swap(f, p, q)[k]} :: 0 <= k < |a| && k != p && k != q ==> Swap(f, p, q)[k] == a[k]
  {
  }

  lemma {:induction false} InsertIter(f0: seq<nat>, f: seq<nat>, e: seq<nat>, i: int, lo: int, hi: int, h: nat, j: int)
    requires (h == 4 || h == 1) && 0 <= lo <= i && i + h <= j <= hi < |f|
    requires Permuted(f0, f, lo, hi) && Named(f0, e, lo, hi) && Named(f, e, lo, hi)
    requires h == 1 ==> SortedBut(f, e, i, hi, j - h)
    requires f[j - h] < |e| && e[f[j - h]] > e[f[j]]
    ensures var g := Swap(f, j - h, j);
            && Permuted(f0, g, lo, hi) && Named(g, e, lo, hi)
            && (h == 1 ==> SortedBut(g, e, i, hi, j))
  {
    var g := Swap(f, j - h, j);
    if h == 1 {
      InsertStep(f, e, i, hi, j - 1);
    }
    SwapPermutes(f, j - h, j, lo, hi);
    PermutedTrans(f0, f, g, lo, hi);
    PermutedNamed(f0, g, e, lo, hi);
  }

  /** Insert entry i among those h apart to its right. */
  method Insert(fmap: array<nat>, eclass: array<nat>, i: int, lo: int, hi: int, h: nat, ghost f0: seq<nat>,
      ghost e: seq<nat>)
    returns (ghost f: seq<nat>)
    requires fmap != eclass && (h == 4 || h == 1) && 0 <= lo <= i <= hi - h && hi < fmap.Length
    requires fmap[..] == f0 && eclass[..] == e && Named(f0, e, lo, hi)
    requires h == 1 ==> Sorted(f0, e, i + 1, hi)
    modifies fmap
    ensures fmap[..] == f && Permuted(f0, f, lo, hi) && Named(f, e, lo, hi)
    ensures h == 1 ==> Sorted(f, e, i, hi)
  {
    hide Le, SortedBut, Swap;
    f := f0;
    var tmp := fmap[i];
    assert f[i] < |e|;
    var ec_tmp := eclass[tmp];
    var j: int := i + h;
    if h == 1 {
      InsertStart(f, e, i, hi);
    }
    while j <= hi && ec_tmp > eclass[fmap[j]]
      invariant i + h <= j <= hi + h && |f| == fmap.Length
      invariant f == fmap[..][j - h := tmp] && (j <= hi ==> fmap[j] == f[j])
      invariant eclass[..] == e && tmp < |e| && ec_tmp == e[tmp]
      invariant Permuted(f0, f, lo, hi) && Named(f, e, lo, hi)
      invariant h == 1 ==> SortedBut(f, e, i, hi, j - h)
      decreases hi - j
    {
      ghost var a := fmap[..];
      MoveHole(a, f, j - h, j, tmp);
      InsertIter(f0, f, e, i, lo, hi, h, j);
      f := Swap(f, j - h, j);
      fmap[j - h] := fmap[j];
      assert fmap[..] == a[j - h := a[j]];
      j := j + h;
    }
    if h == 1 {
      InsertDone(f, e, i, hi, j - 1);
    }
    fmap[j - h] := tmp;
    assert fmap[..] == f;
  }

  /** Pass h = 4 or 1 of the small sort, right to left. */
  method InsertionPass(fmap: array<nat>, eclass: array<nat>, lo: int, hi: int, h: nat, ghost f0: seq<nat>,
      ghost e: seq<nat>)
    returns (ghost f: seq<nat>)
    requires fmap != eclass && (h == 4 || h == 1) && 0 <= lo <= hi + 1 <= fmap.Length
    requires fmap[..] == f0 && eclass[..] == e && Named(f0, e, lo, hi)
    modifies fmap
    ensures fmap[..] == f && Permuted(f0, f, lo, hi) && Named(f, e, lo, hi)
    ensures h == 1 ==> Sorted(f, e, lo, hi)
  {
    f := f0;
    var i: int := hi - h;
    while i >= lo
      invariant lo - 1 <= i <= hi - h || i == hi - h
      invariant fmap[..] == f && eclass[..] == e && Permuted(f0, f, lo, hi) && Named(f, e, lo, hi)
      invariant h == 1 ==> Sorted(f, e, i + 1, hi)
      decreases i - lo
    {
      ghost var g := f;
      f := Insert(fmap, eclass, i, lo, hi, h, f, e);
      PermutedTrans(f0, g, f, lo, hi);
      i := i - 1;
    }
  }

  method SimpleSort(fmap: array<nat>, eclass: array<nat>, lo: int, hi: int, ghost f0: seq<nat>, ghost e: seq<nat>)
    returns (ghost f: seq<nat>)
    requires fmap != eclass && 0 <= lo <= hi + 1 <= fmap.Length
    requires fmap[..] == f0 && eclass[..] == e && Named(f0, e, lo, hi)
    modifies fmap
    ensures fmap[..] == f && Permuted(f0, f, lo, hi) && Sorted(f, e, lo, hi)
  {
    f := f0;
    if lo == hi {
      return;
    }
    if hi - lo > 3 {
      f := InsertionPass(fmap, eclass, lo, hi, 4, f, e);
    }
    ghost var g := f;
    f := InsertionPass(fmap, eclass, lo, hi, 1, f, e);
    PermutedTrans(f0, g, f, lo, hi);
  }

  // ----- three-way partitioning

  predicate Before(f: seq<nat>, e: seq<nat>, med: nat, i: int) { 0 <= i < |f| && f[i] < |e| && e[f[i]] < med }
  predicate With(f: seq<nat>, e: seq<nat>, med: nat, i: int) { 0 <= i < |f| && f[i] < |e| && e[f[i]] == med }
  predicate After(f: seq<nat>, e: seq<nat>, med: nat, i: int) { 0 <= i < |f| && f[i] < |e| && e[f[i]] > med }

  /** Part-way through: with the pivot, before it, unseen, after it, with it. */
  ghost predicate Partitioning(f: seq<nat>, e: seq<nat>, med: nat, lo: int, ltLo: int, unLo: int, unHi: int, gtHi: int,
      hi: int) {
    && 0 <= lo <= ltLo <= unLo <= unHi + 1 <= gtHi + 1 <= hi + 1 <= |f|
    && Named(f, e, lo, hi)
    && (forall k {:trigger f[k]} :: lo <= k < ltLo ==> f[k] < |e| && e[f[k]] == med)
    && (forall k {:trigger f[k]} :: ltLo <= k < unLo ==> f[k] < |e| && e[f[k]] < med)
    && (forall k {:trigger f[k]} :: unHi < k <= gtHi ==> f[k] < |e| && e[f[k]] > med)
    && (forall k {:trigger f[k]} :: gtHi < k <= hi ==> f[k] < |e| && e[f[k]] == med)
  }

  lemma {:induction false} PartitionLeft(f: seq<nat>, e: seq<nat>, med: nat, lo: int, ltLo: int, unLo: int, unHi: int,
      gtHi: int, hi: int)
    requires Partitioning(f, e, med, lo, ltLo, unLo, unHi, gtHi, hi) && unLo <= unHi && With(f, e, med, unLo)
    ensures Partitioning(Swap(f, unLo, ltLo), e, med, lo, ltLo + 1, unLo + 1, unHi, gtHi, hi)
  {
    var g := Swap(f, unLo, ltLo);
    assert f[ltLo] < |e|;
    forall k {:trigger g[k]} | ltLo + 1 <= k < unLo + 1
      ensures g[k] < |e| && e[g[k]] < med
    {
      assert f[if k == unLo then ltLo else k] < |e|;
    }
  }

  lemma {:induction false} PartitionRight(f: seq<nat>, e: seq<nat>, med: nat, lo: int, ltLo: int, unLo: int, unHi: int,
      gtHi: int, hi: int)
    requires Partitioning(f, e, med, lo, ltLo, unLo, unHi, gtHi, hi) && unLo <= unHi && With(f, e, med, unHi)
    ensures Partitioning(Swap(f, unHi, gtHi), e, med, lo, ltLo, unLo, unHi - 1, gtHi - 1, hi)
  {
    var g := Swap(f, unHi, gtHi);
    assert f[gtHi] < |e|;
    forall k {:trigger g[k]} | unHi - 1 < k <= gtHi - 1
      ensures g[k] < |e| && e[g[k]] > med
    {
      assert f[if k == unHi then gtHi else k] < |e|;
    }
  }

  lemma {:induction false} PartitionCross(f: seq<nat>, e: seq<nat>, med: nat, lo: int, ltLo: int, unLo: int, unHi: int,
      gtHi: int, hi: int)
    requires Partitioning(f, e, med, lo, ltLo, unLo, unHi, gtHi, hi) && unLo < unHi
    requires After(f, e, med, unLo) && Before(f, e, med, unHi)
    ensures Partitioning(Swap(f, unLo, unHi), e, med, lo, ltLo, unLo + 1, unHi - 1, gtHi, hi)
  {
  }

  /** The partitioning loop. */
  method Partition(fmap: array<nat>, eclass: array<nat>, lo: int, hi: int, med: nat, ghost f0: seq<nat>,
      ghost e: seq<nat>)
    returns (ltLo: int, unLo: int, gtHi: int, ghost f: seq<nat>)
    requires fmap != eclass && 0 <= lo <= hi < fmap.Length
    requires fmap[..] == f0 && eclass[..] == e && Named(f0, e, lo, hi)
    modifies fmap
    ensures fmap[..] == f && Permuted(f0, f, lo, hi)
    ensures Partitioning(f, e, med, lo, ltLo, unLo, unLo - 1, gtHi, hi)
  {
    f := f0;
    var unHi := hi;
    ltLo, unLo, gtHi := lo, lo, hi;
    PermutedSelf(f, lo, hi);
    while true
      invariant fmap[..] == f && eclass[..] == e && Permuted(f0, f, lo, hi)
      invariant Partitioning(f, e, med, lo, ltLo, unLo, unHi, gtHi, hi)
      decreases unHi - unLo
    {
      ltLo, unLo, f := ScanLeft(fmap, eclass, lo, hi, med, ltLo, unLo, unHi, gtHi, f0, f, e);
      unHi, gtHi, f := ScanRight(fmap, eclass, lo, hi, med, ltLo, unLo, unHi, gtHi, f0, f, e);
      if unLo > unHi {
        break;
      }
      PartitionCross(f, e, med, lo, ltLo, unLo, unHi, gtHi, hi);
      SwapPermutes(f, unLo, unHi, lo, hi);
      PermutedTrans(f0, f, Swap(f, unLo, unHi), lo, hi);
      f := Swap(f, unLo, unHi);
      fmap[unLo], fmap[unHi] := fmap[unHi], fmap[unLo];
      unLo, unHi := unLo + 1, unHi - 1;
    }
  }

  method ScanLeft(fmap: array<nat>, eclass: array<nat>, lo: int, hi: int, med: nat, lt: int, un: int, unHi: int,
                  gtHi: int, ghost f0: seq<nat>, ghost f1: seq<nat>, ghost e: seq<nat>)
    returns (ltLo: int, unLo: int, ghost f: seq<nat>)
    requires fmap != eclass && fmap[..] == f1 && eclass[..] == e && Permuted(f0, f1, lo, hi)
    requires Partitioning(f1, e, med, lo, lt, un, unHi, gtHi, hi)
    modifies fmap
    ensures fmap[..] == f && Permuted(f0, f, lo, hi) && unLo >= un
    ensures Partitioning(f, e, med, lo, ltLo, unLo, unHi, gtHi, hi)
    ensures unLo > unHi || After(f, e, med, unLo)
  {
    f, ltLo, unLo := f1, lt, un;
    while true
      invariant fmap[..] == f && eclass[..] == e && Permuted(f0, f, lo, hi) && unLo >= un
      invariant Partitioning(f, e, med, lo, ltLo, unLo, unHi, gtHi, hi)
      decreases unHi - unLo
    {
      if unLo > unHi {
        break;
      }
      assert f[unLo] < |e| && fmap[unLo] == f[unLo];
      var n := eclass[fmap[unLo]] - med;
      if n == 0 {
        PartitionLeft(f, e, med, lo, ltLo, unLo, unHi, gtHi, hi);
        SwapPermutes(f, unLo, ltLo, lo, hi);
        PermutedTrans(f0, f, Swap(f, unLo, ltLo), lo, hi);
        f := Swap(f, unLo, ltLo);
        fmap[unLo], fmap[ltLo] := fmap[ltLo], fmap[unLo];
        ltLo, unLo := ltLo + 1, unLo + 1;
        continue;
      }
      if n > 0 {
        break;
      }
      unLo := unLo + 1;
    }
  }

  method ScanRight(fmap: array<nat>, eclass: array<nat>, lo: int, hi: int, med: nat, ltLo: int, unLo: int, un: int,
                   gt: int, ghost f0: seq<nat>, ghost f1: seq<nat>, ghost e: seq<nat>)
    returns (unHi: int, gtHi: int, ghost f: seq<nat>)
    requires fmap != eclass && fmap[..] == f1 && eclass[..] == e && Permuted(f0, f1, lo, hi)
    requires Partitioning(f1, e, med, lo, ltLo, unLo, un, gt, hi)
    requires unLo > un || After(f1, e, med, unLo)
    modifies fmap
    ensures fmap[..] == f && Permuted(f0, f, lo, hi) && unHi <= un
    ensures Partitioning(f, e, med, lo, ltLo, unLo, unHi, gtHi, hi)
    ensures unLo > unHi || (After(f, e, med, unLo) && Before(f, e, med, unHi) && unLo < unHi)
  {
    hide Permuted, SameBag, With;
    f, unHi, gtHi := f1, un, gt;
    while true
      invariant fmap[..] == f && eclass[..] == e && Permuted(f0, f, lo, hi) && unHi <= un
      invariant Partitioning(f, e, med, lo, ltLo, unLo, unHi, gtHi, hi)
      invariant unLo > unHi || After(f, e, med, unLo)
      decreases unHi - unLo
    {
      if unLo > unHi {
        break;
      }
      assert f[unHi] < |e| && fmap[unHi] == f[unHi];
      var n := eclass[fmap[unHi]] - med;
      if n == 0 {
        PartitionRight(f, e, med, lo, ltLo, unLo, unHi, gtHi, hi);
        SwapPermutes(f, unHi, gtHi, lo, hi);
        PermutedTrans(f0, f, Swap(f, unHi, gtHi), lo, hi);
        f := Swap(f, unHi, gtHi);
        fmap[unHi], fmap[gtHi] := fmap[gtHi], fmap[unHi];
        unHi, gtHi := unHi - 1, gtHi - 1;
        continue;
      }
      if n < 0 {
        break;
      }
      unHi := unHi - 1;
    }
  }

  // ----- moving the entries equal to the pivot to the middle

  /** g is f with the n entries from p1 and the n from p2 exchanged. */
  predicate VSwapped(f: seq<nat>, g: seq<nat>, p1: int, p2: int, n: int) {
    && |g| == |f| && 0 <= p1 && 0 <= n && p1 + n <= p2 && p2 + n <= |f|
    && forall k {:trigger g[k]} :: 0 <= k < |f| ==>
         g[k] == if p1 <= k < p1 + n then f[k - p1 + p2] else if p2 <= k < p2 + n then f[k - p2 + p1] else f[k]
  }

  method VSwap(fmap: array<nat>, p1: int, p2: int, n: int, lo: int, hi: int, ghost f0: seq<nat>, ghost f1: seq<nat>)
    returns (ghost f: seq<nat>)
    requires fmap[..] == f1 && Permuted(f0, f1, lo, hi)
    requires 0 <= lo <= p1 && 0 <= n && p1 + n <= p2 && p2 + n <= hi + 1 <= fmap.Length
    modifies fmap
    ensures fmap[..] == f && Permuted(f0, f, lo, hi) && VSwapped(f1, f, p1, p2, n)
  {
    f := f1;
    var i := 0;
    while i < n
      invariant 0 <= i <= n && fmap[..] == f && Permuted(f0, f, lo, hi) && VSwapped(f1, f, p1, p2, i)
    {
      SwapPermutes(f, p1 + i, p2 + i, lo, hi);
      PermutedTrans(f0, f, Swap(f, p1 + i, p2 + i), lo, hi);
      f := Swap(f, p1 + i, p2 + i);
      fmap[p1 + i], fmap[p2 + i] := fmap[p2 + i], fmap[p1 + i];
      i := i + 1;
    }
  }

  /** Parted around the pivot: before it up to n, with it up to m, after it from m on. */
  ghost predicate Parted(f: seq<nat>, e: seq<nat>, med: nat, lo: int, n: int, m: int, hi: int) {
    && 0 <= lo <= n + 1 <= m <= hi + 1 <= |f|
    && (forall k {:trigger f[k]} :: lo <= k <= n ==> f[k] < |e| && e[f[k]] < med)
    && (forall k {:trigger f[k]} :: n < k < m ==> f[k] < |e| && e[f[k]] == med)
    && (forall k {:trigger f[k]} :: m <= k <= hi ==> f[k] < |e| && e[f[k]] > med)
  }

  function Min(a: int, b: int): int { if a < b then a else b }

  lemma {:induction false} MiddleMoved(f: seq<nat>, g: seq<nat>, h: seq<nat>, e: seq<nat>, med: nat, lo: int, ltLo: int,
                                       unLo: int, gtHi: int, hi: int, q: int, q': int)
    requires Partitioning(f, e, med, lo, ltLo, unLo, unLo - 1, gtHi, hi)
    requires q == Min(ltLo - lo, unLo - ltLo) && q' == Min(hi - gtHi, gtHi - (unLo - 1))
    requires VSwapped(f, g, lo, unLo - q, q) && VSwapped(g, h, unLo, hi - q' + 1, q')
    ensures Parted(h, e, med, lo, lo + unLo - ltLo - 1, hi - (gtHi - (unLo - 1)) + 1, hi)
  {
    var n, m := lo + unLo - ltLo - 1, hi - (gtHi - (unLo - 1)) + 1;
    LeftMoved(f, g, e, med, lo, ltLo, unLo, gtHi, hi, q);
    forall k {:trigger h[k]} | unLo <= k <= hi
      ensures k < m ==> h[k] < |e| && e[h[k]] == med
      ensures m <= k ==> h[k] < |e| && e[h[k]] > med
    {
      var s := if k < unLo + q' then k - unLo + (hi - q' + 1) else if k >= hi - q' + 1 then k - (hi - q' + 1) + unLo
        else k;
      assert g[s] == f[s];
    }
    forall k {:trigger h[k]} | lo <= k < unLo
      ensures h[k] == g[k]
    {
    }
  }

  lemma {:induction false} LeftMoved(f: seq<nat>, g: seq<nat>, e: seq<nat>, med: nat, lo: int, ltLo: int, unLo: int,
                                     gtHi: int, hi: int, q: int)
    requires Partitioning(f, e, med, lo, ltLo, unLo, unLo - 1, gtHi, hi)
    requires q == Min(ltLo - lo, unLo - ltLo) && VSwapped(f, g, lo, unLo - q, q)
    ensures var n := lo + unLo - ltLo - 1;
            && (forall k {:trigger g[k]} :: lo <= k <= n ==> g[k] < |e| && e[g[k]] < med)
            && (forall k {:trigger g[k]} :: n < k < unLo ==> g[k] < |e| && e[g[k]] == med)
            && (forall k {:trigger g[k]} :: unLo <= k <= hi ==> g[k] == f[k])
  {
    var n := lo + unLo - ltLo - 1;
    forall k {:trigger g[k]} | lo <= k < unLo
      ensures k <= n ==> g[k] < |e| && e[g[k]] < med
      ensures n < k ==> g[k] < |e| && e[g[k]] == med
    {
      var s := if k < lo + q then k - lo + (unLo - q) else if k >= unLo - q then k - (unLo - q) + lo else k;
      assert f[s] < |e|;
    }
  }

  // ----- the stack of ranges still to sort

  const STACK_SIZE := 100
  const SMALL_THRESH := 10

  datatype Range = Range(lo: int, hi: int)

  function Size(r: Range): int { r.hi - r.lo + 1 }

  predicate Inside(r: Range, i: int) { r.lo <= i <= r.hi }

  /** Some range on the stack holds both entries. */
  ghost predicate Together(stack: seq<Range>, i: int, j: int) {
    exists k {:trigger stack[k]} :: 0 <= k < |stack| && Inside(stack[k], i) && Inside(stack[k], j)
  }

  /** The ranges lie within lo..hi and share no entry. */
  ghost predicate Tiled(stack: seq<Range>, lo: int, hi: int) {
    && (forall k {:trigger stack[k]} :: 0 <= k < |stack| ==>
      lo <= stack[k].lo && stack[k].lo <= stack[k].hi + 1 && stack[k].hi <= hi)
    && (forall k, m {:trigger stack[k], stack[m]} :: 0 <= k < m < |stack| ==>
          stack[k].hi < stack[m].lo || stack[m].hi < stack[k].lo || Size(stack[k]) == 0 || Size(stack[m]) == 0)
  }

  /** Entries that are not together on the stack are in order. */
  ghost predicate SortedUpTo(f: seq<nat>, e: seq<nat>, stack: seq<Range>, lo: int, hi: int) {
    forall i, j {:trigger Le(f, e, i, j)} :: lo <= i < j <= hi && !Together(stack, i, j) ==> Le(f, e, i, j)
  }

  /** The k-th range from the bottom is at most a 2^-k part of the whole. */
  ghost predicate Halving(stack: seq<Range>, whole: nat) {
    forall k {:trigger stack[k]} :: 0 <= k < |stack| ==> Size(stack[k]) >= 0 && Shl(Size(stack[k]), k) <= whole
  }

  function Work(stack: seq<Range>): nat {
    if stack == [] then 0
    else Work(stack[..|stack| - 1]) + (var s := Size(stack[|stack| - 1]); if s > 0 then 2 * s + 1 else 1)
  }

  lemma {:induction false} WorkPush(stack: seq<Range>, r: Range)
    ensures Work(stack + [r]) == Work(stack) + (if Size(r) > 0 then 2 * Size(r) + 1 else 1)
  {
    assert (stack + [r])[..|stack|] == stack;
  }

  lemma {:induction false} TogetherPush(stack: seq<Range>, news: seq<Range>, i: int, j: int)
    ensures Together(stack + news, i, j) <==> Together(stack, i, j) || Together(news, i, j)
  {
    var all := stack + news;
    if Together(all, i, j) {
      var k :| 0 <= k < |all| && Inside(all[k], i) && Inside(all[k], j);
      if k < |stack| {
        assert Inside(stack[k], i);
      } else {
        assert Inside(news[k - |stack|], i);
      }
    }
    if Together(stack, i, j) {
      var k :| 0 <= k < |stack| && Inside(stack[k], i) && Inside(stack[k], j);
      assert all[k] == stack[k];
    }
    if Together(news, i, j) {
      var k :| 0 <= k < |news| && Inside(news[k], i) && Inside(news[k], j);
      assert all[|stack| + k] == news[k];
    }
  }

  /** An entry of the top range shares a range only with entries of the top range. */
  lemma {:induction false} OnlyTogetherInTop(stack: seq<Range>, r: Range, lo: int, hi: int, i: int, j: int)
    requires Tiled(stack + [r], lo, hi) && Inside(r, i) && !Inside(r, j)
    ensures !Together(stack + [r], i, j) && !Together(stack + [r], j, i)
  {
    var all := stack + [r];
    assert all[|stack|] == r;
    forall k {:trigger all[k]} | 0 <= k < |all|
      ensures !(Inside(all[k], i) && Inside(all[k], j))
    {
      assert k < |stack| ==> Size(all[k]) == 0 || all[k].hi < r.lo || r.hi < all[k].lo;
    }
  }

  /** Rearranging the top range and replacing it by ranges that cover what is unsorted in it. */
  lemma {:induction false} ReplaceTop(f: seq<nat>, g: seq<nat>, e: seq<nat>, stack: seq<Range>, r: Range,
      news: seq<Range>, lo: int, hi: int)
    requires SortedUpTo(f, e, stack + [r], lo, hi) && Tiled(stack + [r], lo, hi)
    requires 0 <= lo && hi < |f| && Permuted(f, g, r.lo, r.hi) && Named(f, e, lo, hi)
    requires forall i, j {:trigger Le(g, e, i, j)} :: r.lo <= i < j <= r.hi && !Together(news, i, j) ==> Le(g, e, i, j)
    ensures SortedUpTo(g, e, stack + news, lo, hi)
  {
    var all := stack + [r];
    assert all[|stack|] == r;
    forall i, j {:trigger Le(g, e, i, j)} | lo <= i < j <= hi && !Together(stack + news, i, j)
      ensures Le(g, e, i, j)
    {
      TogetherPush(stack, news, i, j);
      TogetherPush(stack, [r], i, j);
      if Inside(r, i) && Inside(r, j) {
        assert Le(g, e, i, j);
      } else if Inside(r, i) {
        var k := PermutedFrom(f, g, r.lo, r.hi, i);
        OnlyTogetherInTop(stack, r, lo, hi, k, j);
        assert Le(f, e, k, j);
        assert g[j] == f[j];
      } else if Inside(r, j) {
        var k := PermutedFrom(f, g, r.lo, r.hi, j);
        OnlyTogetherInTop(stack, r, lo, hi, k, i);
        assert Le(f, e, i, k);
        assert g[i] == f[i];
      } else {
        assert !Together([r], i, j);
        assert Le(f, e, i, j);
        assert g[i] == f[i] && g[j] == f[j];
      }
    }
  }

  /** What one round leaves to do of the top range: nothing, or a larger and a smaller part of it. */
  ghost predicate Split(news: seq<Range>, r: Range) {
    news == []
    || (|news| == 2 && Size(r) > SMALL_THRESH
        && 0 <= Size(news[1]) <= Size(news[0]) && Size(news[0]) + Size(news[1]) < Size(r)
        && r.lo <= news[0].lo && news[0].hi <= r.hi && r.lo <= news[1].lo && news[1].hi <= r.hi
        && (news[0].hi < news[1].lo || news[1].hi < news[0].lo))
  }

  ghost predicate RoundDone(f: seq<nat>, g: seq<nat>, e: seq<nat>, r: Range, news: seq<Range>) {
    && Permuted(f, g, r.lo, r.hi) && Split(news, r)
    && forall i, j {:trigger Le(g, e, i, j)} :: r.lo <= i < j <= r.hi && !Together(news, i, j) ==> Le(g, e, i, j)
  }

  /** Some entry equals the pivot after partitioning, as one did before. */
  lemma {:induction false} PivotSurvives(f: seq<nat>, g: seq<nat>, e: seq<nat>, med: nat, lo: int, hi: int, x: int,
                                         ltLo: int, unLo: int, gtHi: int)
    requires Permuted(f, g, lo, hi) && 0 <= lo <= x <= hi < |f| && f[x] < |e| && e[f[x]] == med
    requires Partitioning(g, e, med, lo, ltLo, unLo, unLo - 1, gtHi, hi)
    ensures lo < ltLo || gtHi < hi
  {
    forall k {:trigger f[k]} | 0 <= k < |f| && !(lo <= k <= hi)
      ensures f[k] == g[k]
    {
      assert g[k] == f[k];
    }
    var k := PermutedFrom(g, f, lo, hi, x);
    assert g[k] < |e|;
  }

  lemma {:induction false} AllEqual(g: seq<nat>, e: seq<nat>, med: nat, r: Range, ltLo: int, unLo: int, gtHi: int)
    requires Partitioning(g, e, med, r.lo, ltLo, unLo, unLo - 1, gtHi, r.hi) && gtHi < ltLo
    ensures forall i, j {:trigger Le(g, e, i, j)} :: r.lo <= i < j <= r.hi ==> Le(g, e, i, j)
  {
    forall i, j {:trigger Le(g, e, i, j)} | r.lo <= i < j <= r.hi
      ensures Le(g, e, i, j)
    {
      assert g[i] < |e| && g[j] < |e|;
    }
  }

  lemma {:induction false} PartsCover(g: seq<nat>, e: seq<nat>, med: nat, r: Range, n: int, m: int, news: seq<Range>)
    requires Parted(g, e, med, r.lo, n, m, r.hi)
    requires news == [Range(r.lo, n), Range(m, r.hi)] || news == [Range(m, r.hi), Range(r.lo, n)]
    ensures forall i, j {:trigger Le(g, e, i, j)} :: r.lo <= i < j <= r.hi && !Together(news, i, j) ==> Le(g, e, i, j)
  {
    forall i, j {:trigger Le(g, e, i, j)} | r.lo <= i < j <= r.hi && !Together(news, i, j)
      ensures Le(g, e, i, j)
    {
      assert g[i] < |e| && g[j] < |e|;
      assert Range(r.lo, n) in news && Range(m, r.hi) in news;
      assert news[0] in news && news[1] in news;
    }
  }

  /** Bring the entries equal to the pivot from the two ends to the middle. */
  method Regroup(fmap: array<nat>, r: Range, med: nat, ltLo: int, unLo: int, gtHi: int, ghost f0: seq<nat>,
      ghost g: seq<nat>, ghost e: seq<nat>)
    returns (n: int, m: int, ghost f: seq<nat>)
    requires fmap[..] == g && Permuted(f0, g, r.lo, r.hi)
    requires Partitioning(g, e, med, r.lo, ltLo, unLo, unLo - 1, gtHi, r.hi)
    modifies fmap
    ensures fmap[..] == f && Permuted(f0, f, r.lo, r.hi) && Parted(f, e, med, r.lo, n, m, r.hi)
    ensures n - r.lo + 1 == unLo - ltLo && r.hi - m + 1 == gtHi - (unLo - 1)
  {
    hide Named, Parted, Permuted, SameBag, VSwapped;
    var lo, hi, unHi := r.lo, r.hi, unLo - 1;
    n := Min(ltLo - lo, unLo - ltLo);
    ghost var h := VSwap(fmap, lo, unLo - n, n, lo, hi, f0, g);
    m := Min(hi - gtHi, gtHi - unHi);
    f := VSwap(fmap, unLo, hi - m + 1, m, lo, hi, f0, h);
    MiddleMoved(g, h, f, e, med, lo, ltLo, unLo, gtHi, hi, n, m);
    n := lo + unLo - ltLo - 1;
    m := hi - (gtHi - unHi) + 1;
  }

  /** One round on the range r: sort it if small, else partition it around a pivot. */
  method Round(fmap: array<nat>, eclass: array<nat>, r: Range, seed: nat, ghost f0: seq<nat>, ghost e: seq<nat>)
    returns (news: seq<Range>, seed': nat, ghost f: seq<nat>)
    requires fmap != eclass && 0 <= r.lo <= r.hi + 1 <= fmap.Length
    requires fmap[..] == f0 && eclass[..] == e && Named(f0, e, r.lo, r.hi)
    modifies fmap
    ensures fmap[..] == f && RoundDone(f0, f, e, r, news)
  {
    var lo, hi := r.lo, r.hi;
    news, seed' := [], seed;
    if hi - lo < SMALL_THRESH {
      f := SimpleSort(fmap, eclass, lo, hi, f0, e);
      return;
    }
    seed' := (seed * 7621 + 1) % 32768;
    var r3 := seed' % 3;
    var x := if r3 == 0 then lo else if r3 == 1 then (lo + hi) / 2 else hi;
    assert f0[x] < |e| && fmap[x] == f0[x];
    news, f := PartitionRound(fmap, eclass, r, x, f0, e);
  }

  method PartitionRound(fmap: array<nat>, eclass: array<nat>, r: Range, x: int, ghost f0: seq<nat>, ghost e: seq<nat>)
    returns (news: seq<Range>, ghost f: seq<nat>)
    requires fmap != eclass && 0 <= r.lo <= r.hi < fmap.Length && Size(r) > SMALL_THRESH && r.lo <= x <= r.hi
    requires fmap[..] == f0 && eclass[..] == e && Named(f0, e, r.lo, r.hi) && f0[x] < |e|
    modifies fmap
    ensures fmap[..] == f && RoundDone(f0, f, e, r, news)
  {
    var lo, hi := r.lo, r.hi;
    assert fmap[x] == f0[x];
    var med := eclass[fmap[x]];
    var ltLo, unLo, gtHi, n, m;
    ghost var g;
    ltLo, unLo, gtHi, g := Partition(fmap, eclass, lo, hi, med, f0, e);
    PivotSurvives(f0, g, e, med, lo, hi, x, ltLo, unLo, gtHi);
    if gtHi < ltLo {
      AllEqual(g, e, med, r, ltLo, unLo, gtHi);
      news, f := [], g;
      return;
    }
    n, m, f := Regroup(fmap, r, med, ltLo, unLo, gtHi, f0, g, e);
    if n - lo > hi - m {
      news := [Range(lo, n), Range(m, hi)];
    } else {
      news := [Range(m, hi), Range(lo, n)];
    }
    PartsCover(f, e, med, r, n, m, news);
  }

  /** Everything the stack loop keeps. */
  ghost predicate StackOk(f0: seq<nat>, f: seq<nat>, e: seq<nat>, stack: seq<Range>, lo: int, hi: int) {
    && 0 <= lo <= hi < |f| && Permuted(f0, f, lo, hi) && Named(f, e, lo, hi)
    && Tiled(stack, lo, hi) && SortedUpTo(f, e, stack, lo, hi)
    && Halving(stack, hi - lo + 1)
  }

  lemma {:induction false} RoundKeeps(f0: seq<nat>, f: seq<nat>, g: seq<nat>, e: seq<nat>, stack: seq<Range>, r: Range,
                                      news: seq<Range>, lo: int, hi: int)
    requires StackOk(f0, f, e, stack + [r], lo, hi) && RoundDone(f, g, e, r, news)
    ensures StackOk(f0, g, e, stack + news, lo, hi)
    ensures Work(stack + news) < Work(stack + [r])
  {
    var all := stack + [r];
    assert all[|stack|] == r;
    ReplaceTop(f, g, e, stack, r, news, lo, hi);
    PermutedWider(f, g, r.lo, r.hi, lo, hi);
    PermutedTrans(f0, f, g, lo, hi);
    PermutedNamed(f, g, e, lo, hi);
    NewTiles(stack, r, news, lo, hi);
    NewHalves(stack, r, news, hi - lo + 1);
    WorkPush(stack, r);
    if |news| == 2 {
      WorkPush(stack, news[0]);
      WorkPush(stack + [news[0]], news[1]);
      assert stack + news == stack + [news[0]] + [news[1]];
    } else {
      assert stack + news == stack;
    }
  }

  lemma {:induction false} TopNamed(f0: seq<nat>, f: seq<nat>, e: seq<nat>, stack: seq<Range>, r: Range, lo: int,
      hi: int)
    requires StackOk(f0, f, e, stack + [r], lo, hi)
    ensures Named(f, e, r.lo, r.hi) && r.lo <= r.hi + 1 <= |f|
  {
    var all := stack + [r];
    assert all[|stack|] == r;
  }

  lemma {:induction false} NewTiles(stack: seq<Range>, r: Range, news: seq<Range>, lo: int, hi: int)
    requires Tiled(stack + [r], lo, hi) && Tiled(news, r.lo, r.hi)
    ensures Tiled(stack + news, lo, hi)
  {
    var all, all' := stack + [r], stack + news;
    assert all[|stack|] == r;
    forall k {:trigger all'[k]} | 0 <= k < |all'|
      ensures lo <= all'[k].lo <= all'[k].hi + 1 && all'[k].hi <= hi
    {
      if k < |stack| {
        assert all[k] == all'[k];
      }
    }
    forall k, m {:trigger all'[k], all'[m]} | 0 <= k < m < |all'|
      ensures all'[k].hi < all'[m].lo || all'[m].hi < all'[k].lo || Size(all'[k]) == 0 || Size(all'[m]) == 0
    {
      if k < |stack| {
        assert all[k] == all'[k];
        if m < |stack| {
          assert all[m] == all'[m];
        } else {
          assert all[k].hi < all[|stack|].lo || all[|stack|].hi < all[k].lo || Size(all[k]) == 0
            || Size(all[|stack|]) == 0;
        }
      }
    }
  }

  lemma {:induction false} NewHalves(stack: seq<Range>, r: Range, news: seq<Range>, whole: nat)
    requires Halving(stack + [r], whole) && Split(news, r)
    ensures Halving(stack + news, whole)
  {
    var all, all', d := stack + [r], stack + news, |stack|;
    assert all[d] == r;
    if |news| == 2 {
      ShlMonotone(Size(news[0]), Size(r), d);
      ShlTwice(Size(news[1]), d);
      ShlMonotone(2 * Size(news[1]), Size(r), d);
    }
    forall k {:trigger all'[k]} | 0 <= k < |all'|
      ensures Size(all'[k]) >= 0 && Shl(Size(all'[k]), k) <= whole
    {
      if k < d {
        assert all[k] == all'[k];
      }
    }
  }

  /** Twenty pushes deep, the top range is down to nothing worth partitioning. */
  lemma {:induction false} StackShallow(stack: seq<Range>, r: Range, whole: nat)
    requires Halving(stack + [r], whole) && whole <= 900_000 && Size(r) > SMALL_THRESH
    ensures |stack| < 20
  {
    var all, d := stack + [r], |stack|;
    assert all[d] == r;
    ShlMonotone(1, Size(r), d);
    ShlOne(d);
    if d >= 20 {
      Pow2Monotone(20, d);
      Pow2Twenty();
    }
  }

  /**
   * Sorts the range, and the 100-entry stack of the source never overflows: the larger
   * part is pushed first, so depth grows only as size halves.
   */
  method QSort3(fmap: array<nat>, eclass: array<nat>, loSt: int, hiSt: int, ghost f0: seq<nat>, ghost e: seq<nat>)
    returns (ghost f: seq<nat>)
    requires fmap != eclass && 0 <= loSt <= hiSt < fmap.Length && hiSt - loSt + 1 <= 900_000
    requires fmap[..] == f0 && eclass[..] == e && Named(f0, e, loSt, hiSt)
    modifies fmap
    ensures fmap[..] == f && Permuted(f0, f, loSt, hiSt) && Sorted(f, e, loSt, hiSt)
  {
    f := f0;
    var seed := 0;
    var stack := [Range(loSt, hiSt)];
    StackStart(f, e, loSt, hiSt);
    while |stack| > 0
      invariant fmap[..] == f && eclass[..] == e && |stack| <= 21
      invariant StackOk(f0, f, e, stack, loSt, hiSt)
      decreases Work(stack)
    {
      assert |stack| < STACK_SIZE - 1;
      var sp := |stack| - 1;
      var r := stack[sp];
      ghost var rest := stack[..sp];
      assert stack == rest + [r];
      TopNamed(f0, f, e, rest, r, loSt, hiSt);
      var news;
      ghost var g := f;
      news, seed, f := Round(fmap, eclass, r, seed, g, e);
      if |news| == 2 {
        StackShallow(rest, r, hiSt - loSt + 1);
      }
      RoundKeeps(f0, g, f, e, rest, r, news, loSt, hiSt);
      stack := stack[..sp] + news;
    }
    forall i, j {:trigger Le(f, e, i, j)} | loSt <= i < j <= hiSt
      ensures Le(f, e, i, j)
    {
      assert !Together(stack, i, j);
    }
  }

  lemma {:induction false} StackStart(f: seq<nat>, e: seq<nat>, lo: int, hi: int)
    requires 0 <= lo <= hi < |f| && Named(f, e, lo, hi)
    ensures StackOk(f, f, e, [Range(lo, hi)], lo, hi)
  {
    var stack := [Range(lo, hi)];
    PermutedSelf(f, lo, hi);
    forall i, j {:trigger Le(f, e, i, j)} | lo <= i < j <= hi
      ensures Together(stack, i, j)
    {
      assert Inside(stack[0], i) && Inside(stack[0], j);
    }
  }
}
