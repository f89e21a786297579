/**
 * fallbackSort: all cyclic rotations of a block, sorted by prefix doubling. After the
 * pass for H the rotations are in order of their first 2H bytes, and header bits mark
 * where that prefix changes.
 */
module BlockSort {
  import opened Prelude
  import opened Buckets
  import opened Rotations
  import opened MtfEncoder
  import opened BwtInverse
  import QS = FallbackQuickSort
  import MainSort
  import MainCompare
  import MainRadix

  // ----- orders by prefix

  predicate InOrder(b: Block, f: seq<nat>, h: nat, i: int, j: int) {
    0 <= i < |f| && 0 <= j < |f| && f[i] < |b| && f[j] < |b| && Key(b, f[i], h) <= Key(b, f[j], h)
  }

  /** Rows from 0 up to m are in non-descending order of their first h bytes. */
  ghost predicate OrderedBy(b: Block, f: seq<nat>, h: nat, m: nat)
    requires Rows(f, |b|) && m <= |b|
  {
    forall i, j {:trigger InOrder(b, f, h, i, j)} :: 0 <= i < j < m ==> InOrder(b, f, h, i, j)
  }

  /** Row i begins a class of rows with equal first h bytes. */
  predicate NewClass(b: Block, f: seq<nat>, h: nat, i: nat)
    requires Rows(f, |b|) && i < |b|
  {
    i == 0 || Key(b, f[i - 1], h) != Key(b, f[i], h)
  }

  /** Where the bucket of value v ends. */
  function End(b: Block, v: nat): nat { Start(b, v + 1) }

  lemma {:induction false} EndBeforeStart(b: Block, u: nat, v: nat)
    requires u < v
    ensures End(b, u) <= Start(b, v)
  {
    StartMonotone(b, u + 1, v);
  }

  lemma {:induction false} EndInBlock(b: Block, v: nat)
    requires v < 256
    ensures End(b, v) <= |b|
  {
    StartMonotone(b, v + 1, 256);
    StartTotal(b, 256);
  }

  /** The first byte of every row is that of the bucket it lies in. */
  ghost predicate Bucketed(b: Block, f: seq<nat>)
    requires Rows(f, |b|)
  {
    forall i {:trigger f[i]} :: 0 <= i < |b| ==> Start(b, b[f[i]]) <= i < End(b, b[f[i]])
  }

  /** Header bits of the rows from x up to y mark the classes by the first h bytes. */
  ghost predicate Marks(b: Block, f: seq<nat>, bh: seq<bool>, h: nat, x: nat, y: nat)
    requires Rows(f, |b|) && y <= |b| <= |bh|
  {
    forall i {:trigger bh[i]} :: x <= i < y ==> (bh[i] <==> NewClass(b, f, h, i))
  }

  /** The alternating bits past the end that stop every scan. */
  ghost predicate Sentinels(bh: seq<bool>, n: nat) {
    n + 64 <= |bh| && forall k {:trigger bh[k]} :: n <= k < n + 64 ==> bh[k] == ((k - n) % 2 == 0)
  }

  // ----- bucket sort by the first byte

  /** Where the bucket sort, filling each bucket from its end, puts position i. */
  function FillSlot(b: Block, i: nat): int
    requires i < |b|
  {
    End(b, b[i]) - 1 - Count(b, b[i], i)
  }

  lemma {:induction false} FillSlotInBucket(b: Block, i: nat)
    requires i < |b|
    ensures Start(b, b[i]) <= FillSlot(b, i) < End(b, b[i]) <= |b|
  {
    CountMonotone(b, b[i], i, |b|);
    EndInBlock(b, b[i]);
  }

  lemma {:induction false} FillSlotsDiffer(b: Block, i: nat, j: nat)
    requires i < |b| && j < |b| && i != j
    ensures FillSlot(b, i) != FillSlot(b, j)
  {
    FillSlotInBucket(b, i);
    FillSlotInBucket(b, j);
    if b[i] < b[j] {
      EndBeforeStart(b, b[i], b[j]);
    } else if b[j] < b[i] {
      EndBeforeStart(b, b[j], b[i]);
    } else if i < j {
      CountMonotone(b, b[i], i, j);
    } else {
      CountMonotone(b, b[i], j, i);
    }
  }

  /** Every slot is filled. */
  lemma {:induction false} FillSlotHits(b: Block, k: nat) returns (i: nat)
    requires k < |b|
    ensures i < |b| && FillSlot(b, i) == k
  {
    StartTotal(b, 256);
    var v: nat := b[At(b, 256, k)];
    CountMonotone(b, v, At(b, 256, k), |b|);
    i := Nth(b, v, |b|, End(b, v) - 1 - k);
  }

  ghost predicate Filled(b: Block, f: seq<nat>, m: nat) {
    |f| == |b| && forall i {:trigger FillSlot(b, i)} :: 0 <= i < m && i < |b| ==>
      0 <= FillSlot(b, i) < |b| && f[FillSlot(b, i)] == i
  }

  lemma {:induction false} FilledSorts(b: Block, f: seq<nat>)
    requires Filled(b, f, |b|)
    ensures IsPermutation(f, |b|) && Bucketed(b, f) && OrderedBy(b, f, 1, |b|)
  {
    forall k {:trigger f[k]} | 0 <= k < |b|
      ensures f[k] < |b| && Start(b, b[f[k]]) <= k < End(b, b[f[k]])
    {
      var i := FillSlotHits(b, k);
      FillSlotInBucket(b, i);
    }
    forall k, m {:trigger f[k], f[m]} {:trigger InOrder(b, f, 1, k, m)} | 0 <= k < m < |b|
      ensures f[k] != f[m] && InOrder(b, f, 1, k, m)
    {
      KeyByte(b, f[k]);
      KeyByte(b, f[m]);
      if b[f[m]] < b[f[k]] {
        EndBeforeStart(b, b[f[m]], b[f[k]]);
      }
      var i := FillSlotHits(b, k);
      var j := FillSlotHits(b, m);
    }
  }

  /** Header bits at the bucket starts mark the classes by first byte. */
  lemma {:induction false} StartsMark(b: Block, f: seq<nat>, bh: seq<bool>)
    requires IsPermutation(f, |b|) && Bucketed(b, f) && |b| <= |bh|
    requires forall i {:trigger bh[i]} :: 0 <= i < |b| ==>
      (bh[i] <==> exists c: nat {:trigger Start(b, c)} :: c < 256 && Start(b, c) == i)
    ensures Marks(b, f, bh, 1, 0, |b|)
  {
    forall i {:trigger bh[i]} | 0 <= i < |b|
      ensures bh[i] <==> NewClass(b, f, 1, i)
    {
      var v: nat := b[f[i]];
      KeyByte(b, f[i]);
      if i > 0 {
        var u: nat := b[f[i - 1]];
        KeyByte(b, f[i - 1]);
        if bh[i] {
          var c: nat :| c < 256 && Start(b, c) == i;
          if u >= c {
            StartMonotone(b, c, u);
          } else if v < c {
            EndBeforeStart(b, v, c);
          }
        } else if u != v {
          if u < v {
            EndBeforeStart(b, u, v);
          } else {
            EndBeforeStart(b, v, u);
          }
        }
      }
      if !bh[i] {
        assert Start(b, v) != i;
      }
    }
  }

  // ----- classes of the following h bytes

  /** The last class start at or before row i. */
  function Head(bh: seq<bool>, i: nat): (j: nat)
    requires i < |bh|
    ensures j <= i
  {
    if bh[i] || i == 0 then i else Head(bh, i - 1)
  }

  lemma {:induction false} HeadKey(b: Block, f: seq<nat>, bh: seq<bool>, h: nat, i: nat)
    requires Rows(f, |b|) && |b| <= |bh| && Marks(b, f, bh, h, 0, |b|) && i < |b|
    ensures Key(b, f[Head(bh, i)], h) == Key(b, f[i], h)
  {
    if !bh[i] && i > 0 {
      HeadKey(b, f, bh, h, i - 1);
    }
  }

  lemma {:induction false} HeadMonotone(bh: seq<bool>, i: nat, j: nat)
    requires i <= j < |bh|
    ensures Head(bh, i) <= Head(bh, j)
    ensures Head(bh, i) < Head(bh, j) ==> i < Head(bh, j)
    ensures Head(bh, j) > 0 ==> bh[Head(bh, j)]
  {
    if i < j {
      HeadMonotone(bh, i, j - 1);
    } else if !bh[j] && j > 0 {
      HeadMonotone(bh, j - 1, j - 1);
    }
  }

  /** Heads compare as the first h bytes of their rows do. */
  lemma {:induction false} HeadOrder(b: Block, f: seq<nat>, bh: seq<bool>, h: nat, i: nat, j: nat)
    requires Rows(f, |b|) && |b| <= |bh| && Marks(b, f, bh, h, 0, |b|) && OrderedBy(b, f, h, |b|)
    requires i < j < |b|
    ensures Head(bh, i) <= Head(bh, j)
    ensures Head(bh, i) == Head(bh, j) <==> Key(b, f[i], h) == Key(b, f[j], h)
  {
    HeadKey(b, f, bh, h, i);
    HeadKey(b, f, bh, h, j);
    HeadMonotone(bh, i, j);
    var k := Head(bh, j);
    if Head(bh, i) < k {
      assert NewClass(b, f, h, k);
      assert i < k - 1 ==> InOrder(b, f, h, i, k - 1);
      assert InOrder(b, f, h, k - 1, k);
    }
  }

  /** eclass orders positions by the h bytes that follow the first h. */
  ghost predicate ClassOrder(b: Block, e: seq<nat>, h: nat) {
    && |e| == |b|
    && forall k, m {:trigger e[k], e[m]} :: 0 <= k < |b| && 0 <= m < |b| ==>
         && (e[k] < e[m] <==> Key(b, Adv(|b|, k, h), h) < Key(b, Adv(|b|, m, h), h))
         && (e[k] == e[m] <==> Key(b, Adv(|b|, k, h), h) == Key(b, Adv(|b|, m, h), h))
  }

  /** h places back, for h up to n. */
  function Retreat(n: nat, i: nat, h: nat): (k: nat)
    requires i < n && h <= n
    ensures k < n && Adv(n, k, h) == i
  {
    var k := if i < h then i + n - h else i - h;
    AdvSmall(n, k, h);
    k
  }

  /** Every position h before a row has the head of that row. */
  ghost predicate Heads(n: nat, f: seq<nat>, bh: seq<bool>, e: seq<nat>, h: nat, m: nat)
    requires Rows(f, n) && h <= n <= |bh| && m <= n
  {
    |e| == n && forall i {:trigger f[i]} :: 0 <= i < m ==> e[Retreat(n, f[i], h)] == Head(bh, i)
  }

  lemma {:induction false} RowOf(n: nat, f: seq<nat>, bh: seq<bool>, e: seq<nat>, h: nat, k: nat) returns (i: nat)
    requires IsPermutation(f, n) && h <= n <= |bh| && Heads(n, f, bh, e, h, n) && k < n
    ensures i < n && f[i] == Adv(n, k, h) && e[k] == Head(bh, i)
  {
    i := PermutationHits(f, n, Adv(n, k, h));
    RetreatOfAdv(n, k, h);
  }

  lemma {:induction false} ClassesOrder(b: Block, f: seq<nat>, bh: seq<bool>, e: seq<nat>, h: nat)
    requires IsPermutation(f, |b|) && h <= |b| <= |bh| && Marks(b, f, bh, h, 0, |b|) && OrderedBy(b, f, h, |b|)
    requires Heads(|b|, f, bh, e, h, |b|)
    ensures ClassOrder(b, e, h)
  {
    var n := |b|;
    forall k, m {:trigger e[k], e[m]} | 0 <= k < n && 0 <= m < n
      ensures e[k] < e[m] <==> Key(b, Adv(n, k, h), h) < Key(b, Adv(n, m, h), h)
      ensures e[k] == e[m] <==> Key(b, Adv(n, k, h), h) == Key(b, Adv(n, m, h), h)
    {
      var i := RowOf(n, f, bh, e, h, k);
      var j := RowOf(n, f, bh, e, h, m);
      HeadsCompare(b, f, bh, h, i, j);
    }
  }

  lemma {:induction false} HeadsCompare(b: Block, f: seq<nat>, bh: seq<bool>, h: nat, i: nat, j: nat)
    requires Rows(f, |b|) && |b| <= |bh| && Marks(b, f, bh, h, 0, |b|) && OrderedBy(b, f, h, |b|)
    requires i < |b| && j < |b|
    ensures Head(bh, i) < Head(bh, j) <==> Key(b, f[i], h) < Key(b, f[j], h)
    ensures Head(bh, i) == Head(bh, j) <==> Key(b, f[i], h) == Key(b, f[j], h)
  {
    if i < j {
      HeadOrder(b, f, bh, h, i, j);
      assert InOrder(b, f, h, i, j);
    } else if j < i {
      HeadOrder(b, f, bh, h, j, i);
      assert InOrder(b, f, h, j, i);
    }
  }

  lemma {:induction false} RetreatOfAdv(n: nat, k: nat, h: nat)
    requires k < n && h <= n
    ensures Retreat(n, Adv(n, k, h), h) == k
  {
    AdvSmall(n, k, h);
  }

  // ----- one pass of the doubling loop

  /**
   * The pass for h has dealt with the rows before m: those are in order of their first
   * 2h bytes and marked so; the others still are in order of, and marked by, the first h.
   */
  ghost predicate Pass(b: Block, f: seq<nat>, bh: seq<bool>, h: nat, m: nat) {
    && IsPermutation(f, |b|) && Bucketed(b, f) && m <= |b| && 1 <= h && Sentinels(bh, |b|)
    && OrderedBy(b, f, h, |b|) && OrderedBy(b, f, 2 * h, m)
    && Marks(b, f, bh, 2 * h, 0, m) && Marks(b, f, bh, h, m, |b|)
  }

  lemma {:induction false} SentinelRoom(bh: seq<bool>, n: nat)
    requires Sentinels(bh, n)
    ensures n + 64 <= |bh| && bh[n] && !bh[n + 1]
  {
  }

  /** A class start separates every earlier row from it. */
  lemma {:induction false} Separated(b: Block, f: seq<nat>, h: nat, i: nat, j: nat)
    requires Rows(f, |b|) && OrderedBy(b, f, h, |b|) && i < j < |b| && NewClass(b, f, h, j)
    ensures Key(b, f[i], h) < Key(b, f[j], h) && Key(b, f[i], 2 * h) < Key(b, f[j], 2 * h)
  {
    assert InOrder(b, f, h, j - 1, j);
    assert i < j - 1 ==> InOrder(b, f, h, i, j - 1);
    KeyCompare(b, f[i], f[j], h, h);
  }

  /** Rows that are classes of their own need no sorting. */
  lemma {:induction false} PassSingles(b: Block, f: seq<nat>, bh: seq<bool>, h: nat, m: nat, l: nat)
    requires Pass(b, f, bh, h, m) && m <= l <= |b|
    requires forall i {:trigger bh[i]} :: m <= i < l ==> bh[i]
    ensures Pass(b, f, bh, h, l)
  {
    SentinelRoom(bh, |b|);
    forall i, j {:trigger InOrder(b, f, 2 * h, i, j)} | 0 <= i < j < l
      ensures InOrder(b, f, 2 * h, i, j)
    {
      if j >= m {
        assert bh[j] && NewClass(b, f, h, j);
        Separated(b, f, h, i, j);
      }
    }
    forall i {:trigger bh[i]} | m <= i < l
      ensures bh[i] && NewClass(b, f, 2 * h, i)
    {
      assert bh[i];
      if i > 0 {
        Separated(b, f, h, i - 1, i);
      }
    }
  }

  /** Rows l..r are one class of the order by h bytes, and the sort by eclass has rearranged it. */
  ghost predicate ClassSorted(b: Block, f: seq<nat>, g: seq<nat>, bh: seq<bool>, e: seq<nat>, h: nat, l: nat, r: nat) {
    && Pass(b, f, bh, h, l) && ClassOrder(b, e, h) && l <= r < |b|
    && NewClass(b, f, h, l) && (forall i {:trigger bh[i]} :: l < i <= r ==> !bh[i])
    && QS.Permuted(f, g, l, r) && QS.Sorted(g, e, l, r)
  }

  lemma {:induction false} OneClass(b: Block, f: seq<nat>, bh: seq<bool>, h: nat, l: nat, r: nat, i: nat)
    requires Pass(b, f, bh, h, l) && l <= i <= r < |b|
    requires forall k {:trigger bh[k]} :: l < k <= r ==> !bh[k]
    ensures Key(b, f[i], h) == Key(b, f[l], h) && b[f[i]] == b[f[l]]
  {
    SentinelRoom(bh, |b|);
    if i > l {
      OneClass(b, f, bh, h, l, r, i - 1);
      assert !bh[i];
      KeyEqual(b, f[i - 1], f[i], h, 0);
      assert Adv(|b|, f[i - 1], 0) == f[i - 1] && Adv(|b|, f[i], 0) == f[i];
    }
  }

  /** The rearrangement leaves every row's first h bytes and bucket as they were. */
  lemma {:induction false} SameKeys(b: Block, f: seq<nat>, g: seq<nat>, bh: seq<bool>, e: seq<nat>, h: nat, l: nat,
      r: nat, i: nat)
    requires ClassSorted(b, f, g, bh, e, h, l, r) && i < |b|
    ensures g[i] < |b| && Key(b, g[i], h) == Key(b, f[i], h) && b[g[i]] == b[f[i]]
  {
    if l <= i <= r {
      var k := QS.PermutedFrom(f, g, l, r, i);
      OneClass(b, f, bh, h, l, r, i);
      OneClass(b, f, bh, h, l, r, k);
    } else {
      assert g[i] == f[i];
    }
  }

  lemma {:induction false} StillPermutation(f: seq<nat>, g: seq<nat>, n: nat, lo: int, hi: int)
    requires IsPermutation(f, n) && QS.Permuted(f, g, lo, hi) && 0 <= lo && hi < n
    ensures IsPermutation(g, n)
  {
    forall i {:trigger g[i]} | 0 <= i < n
      ensures g[i] < n
    {
      if lo <= i <= hi {
        var k := QS.PermutedFrom(f, g, lo, hi, i);
      } else {
        assert g[i] == f[i];
      }
    }
    forall i, j {:trigger g[i], g[j]} | 0 <= i < j < n
      ensures g[i] != g[j]
    {
      if g[i] == g[j] {
        var v := g[i];
        CountMonotone(g, v, 0, i);
        CountMonotone(g, v, i, j);
        CountMonotone(g, v, j, n);
        CountOnce(f, v, n);
      }
    }
  }

  lemma {:induction false} CountOnce(f: seq<nat>, v: nat, m: nat)
    requires Distinct(f) && m <= |f|
    ensures Count(f, v, m) <= 1
  {
    if m > 0 {
      if f[m - 1] == v {
        CountNone(f, v, m - 1);
      } else {
        CountOnce(f, v, m - 1);
      }
    }
  }

  /** Within the class, the order by eclass is the order by 2h bytes. */
  lemma {:induction false} WithinClass(b: Block, f: seq<nat>, g: seq<nat>, bh: seq<bool>, e: seq<nat>, h: nat, l: nat,
      r: nat, i: nat, j: nat)
    requires ClassSorted(b, f, g, bh, e, h, l, r) && l <= i < j <= r
    ensures g[i] < |b| && g[j] < |b| && Key(b, g[i], 2 * h) <= Key(b, g[j], 2 * h)
    ensures e[g[i]] == e[g[j]] <==> Key(b, g[i], 2 * h) == Key(b, g[j], 2 * h)
  {
    SameKeys(b, f, g, bh, e, h, l, r, i);
    SameKeys(b, f, g, bh, e, h, l, r, j);
    OneClass(b, f, bh, h, l, r, i);
    OneClass(b, f, bh, h, l, r, j);
    assert QS.Le(g, e, i, j);
    assert e[g[i]] <= e[g[j]];
    KeyCompare(b, g[i], g[j], h, h);
  }

  /** Header bits set where eclass changes within rows l..r. */
  ghost predicate NewHeads(bh: seq<bool>, bh': seq<bool>, g: seq<nat>, e: seq<nat>, l: nat, r: nat) {
    && |bh'| == |bh| && r < |bh| && r < |g|
    && (forall i {:trigger g[i]} :: l <= i <= r ==> g[i] < |e|)
    && (forall i {:trigger bh'[i]} :: 0 <= i < |bh| ==>
          (bh'[i] <==> bh[i] || (l <= i <= r && (i == l || e[g[i - 1]] != e[g[i]]))))
  }

  lemma {:induction false} PassClass(b: Block, f: seq<nat>, g: seq<nat>, bh: seq<bool>, bh': seq<bool>, e: seq<nat>,
      h: nat, l: nat, r: nat)
    requires ClassSorted(b, f, g, bh, e, h, l, r) && NewHeads(bh, bh', g, e, l, r)
    ensures Pass(b, g, bh', h, r + 1)
  {
    SentinelRoom(bh, |b|);
    StillPermutation(f, g, |b|, l, r);
    forall i {:trigger g[i]} | 0 <= i < |b|
      ensures Key(b, g[i], h) == Key(b, f[i], h) && Start(b, b[g[i]]) <= i < End(b, b[g[i]])
    {
      SameKeys(b, f, g, bh, e, h, l, r, i);
      assert f[i] < |b|;
    }
    ClassOrders(b, f, g, bh, e, h, l, r);
    ClassMarks(b, f, g, bh, bh', e, h, l, r);
  }

  lemma {:induction false} ClassOrders(b: Block, f: seq<nat>, g: seq<nat>, bh: seq<bool>, e: seq<nat>, h: nat, l: nat,
      r: nat)
    requires ClassSorted(b, f, g, bh, e, h, l, r) && Rows(g, |b|)
    ensures OrderedBy(b, g, h, |b|) && OrderedBy(b, g, 2 * h, r + 1)
  {
    forall i, j {:trigger InOrder(b, g, h, i, j)} | 0 <= i < j < |b|
      ensures InOrder(b, g, h, i, j)
    {
      SameKeys(b, f, g, bh, e, h, l, r, i);
      SameKeys(b, f, g, bh, e, h, l, r, j);
      assert InOrder(b, f, h, i, j);
    }
    forall i, j {:trigger InOrder(b, g, 2 * h, i, j)} | 0 <= i < j < r + 1
      ensures InOrder(b, g, 2 * h, i, j)
    {
      if l <= i {
        WithinClass(b, f, g, bh, e, h, l, r, i, j);
      } else if j < l {
        assert InOrder(b, f, 2 * h, i, j);
        assert g[i] == f[i] && g[j] == f[j];
      } else {
        AcrossClass(b, f, g, bh, e, h, l, r, i, j);
      }
    }
  }

  lemma {:induction false} AcrossClass(b: Block, f: seq<nat>, g: seq<nat>, bh: seq<bool>, e: seq<nat>, h: nat, l: nat,
      r: nat, i: nat, j: nat)
    requires ClassSorted(b, f, g, bh, e, h, l, r) && Rows(g, |b|) && i < l <= j <= r
    ensures Key(b, g[i], h) < Key(b, g[j], h) && Key(b, g[i], 2 * h) < Key(b, g[j], 2 * h)
  {
    SameKeys(b, f, g, bh, e, h, l, r, i);
    SameKeys(b, f, g, bh, e, h, l, r, j);
    Separated(b, f, h, i, l);
    OneClass(b, f, bh, h, l, r, j);
    KeyCompare(b, g[i], g[j], h, h);
  }

  lemma {:induction false} ClassMarks(b: Block, f: seq<nat>, g: seq<nat>, bh: seq<bool>, bh': seq<bool>, e: seq<nat>,
      h: nat, l: nat, r: nat)
    requires ClassSorted(b, f, g, bh, e, h, l, r) && NewHeads(bh, bh', g, e, l, r) && Rows(g, |b|) && |b| <= |bh|
    ensures Marks(b, g, bh', 2 * h, 0, r + 1) && Marks(b, g, bh', h, r + 1, |b|)
  {
    forall i {:trigger bh'[i]} | 0 <= i < r + 1
      ensures bh'[i] <==> NewClass(b, g, 2 * h, i)
    {
      if i < l {
        assert g[i] == f[i] && (i > 0 ==> g[i - 1] == f[i - 1]);
        assert bh[i] <==> NewClass(b, f, 2 * h, i);
      } else if i == l {
        if i > 0 {
          AcrossClass(b, f, g, bh, e, h, l, r, i - 1, i);
        }
      } else {
        assert !bh[i];
        WithinClass(b, f, g, bh, e, h, l, r, i - 1, i);
      }
    }
    forall i {:trigger bh'[i]} | r + 1 <= i < |b|
      ensures bh'[i] <==> NewClass(b, g, h, i)
    {
      SameKeys(b, f, g, bh, e, h, l, r, i);
      SameKeys(b, f, g, bh, e, h, l, r, i - 1);
      assert bh[i] <==> NewClass(b, f, h, i);
    }
  }

  // ----- after the last pass

  /** No class of the order by h bytes has two rows. */
  ghost predicate AllSingle(b: Block, f: seq<nat>, h: nat, m: nat)
    requires Rows(f, |b|) && m <= |b|
  {
    forall i {:trigger NewClass(b, f, h, i)} :: 0 <= i < m ==> NewClass(b, f, h, i)
  }

  lemma {:induction false} PassSorts(b: Block, f: seq<nat>, bh: seq<bool>, h: nat)
    requires Pass(b, f, bh, h, |b|) && h <= |b|
    requires 2 * h > |b| || AllSingle(b, f, h, |b|)
    ensures SortsRotations(b, f)
  {
    var n := |b|;
    forall i, j {:trigger f[i], f[j]} | 0 <= i < j < n
      ensures Key(b, f[i], n) <= Key(b, f[j], n)
    {
      PairSorted(b, f, bh, h, i, j);
    }
  }

  lemma {:induction false} PairSorted(b: Block, f: seq<nat>, bh: seq<bool>, h: nat, i: nat, j: nat)
    requires Pass(b, f, bh, h, |b|) && h <= |b| && i < j < |b|
    requires 2 * h > |b| || AllSingle(b, f, h, |b|)
    ensures Key(b, f[i], |b|) <= Key(b, f[j], |b|)
  {
    assert f[i] < |b| && f[j] < |b|;
    if 2 * h > |b| {
      assert InOrder(b, f, 2 * h, i, j);
      ShorterOrdered(b, f[i], f[j], |b|, 2 * h);
    } else {
      assert NewClass(b, f, h, j);
      Separated(b, f, h, i, j);
      LongerOrdered(b, f[i], f[j], h, |b|);
    }
  }

  lemma {:induction false} ShorterOrdered(b: Block, x: nat, y: nat, n: nat, m: nat)
    requires x < |b| && y < |b| && n <= m && Key(b, x, m) <= Key(b, y, m)
    ensures Key(b, x, n) <= Key(b, y, n)
  {
    var g := m - n;
    assert m == n + g;
    KeyCompare(b, x, y, n, g);
    KeyCompare(b, y, x, n, g);
  }

  lemma {:induction false} LongerOrdered(b: Block, x: nat, y: nat, h: nat, n: nat)
    requires x < |b| && y < |b| && h <= n && Key(b, x, h) < Key(b, y, h)
    ensures Key(b, x, n) < Key(b, y, n)
  {
    var g := n - h;
    assert n == h + g;
    KeyCompare(b, x, y, h, g);
  }

  // ----- the initial bucket sort

  method CountBytes(eclass8: array<byte>, nblock: nat, ftab: array<nat>, ghost b: Block)
    requires nblock == |b| <= eclass8.Length && eclass8[..nblock] == b && ftab.Length == 257
    modifies ftab
    ensures forall v: nat {:trigger Count(b, v, |b|)} :: v < 257 ==> ftab[v] == Count(b, v, |b|)
  {
    for v := 0 to 257
      invariant forall u {:trigger ftab[u]} :: 0 <= u < v ==> ftab[u] == 0
    {
      ftab[v] := 0;
    }
    for i := 0 to nblock
      invariant forall v: nat {:trigger ftab[v]} {:trigger Count(b, v, i)} :: v < 257 ==> ftab[v] == Count(b, v, i)
    {
      assert eclass8[i] == b[i];
      var c: nat := eclass8[i];
      ftab[c] := ftab[c] + 1;
    }
  }

  method SumCounts(ftab: array<nat>, ghost b: Block)
    requires ftab.Length == 257
    requires forall v: nat {:trigger Count(b, v, |b|)} :: v < 257 ==> ftab[v] == Count(b, v, |b|)
    modifies ftab
    ensures forall v: nat {:trigger ftab[v]} :: v < 256 ==> ftab[v] == End(b, v)
  {
    assert ftab[0] == Count(b, 0, |b|) && End(b, 0) == Start(b, 0) + Count(b, 0, |b|) && Start(b, 0) == 0;
    for i: nat := 1 to 257
      invariant forall v: nat {:trigger ftab[v]} :: v < i ==> ftab[v] == End(b, v)
      invariant forall v: nat {:trigger Count(b, v, |b|)} :: i <= v < 257 ==> ftab[v] == Count(b, v, |b|)
    {
      assert ftab[i] == Count(b, i, |b|) && End(b, i) == End(b, i - 1) + Count(b, i, |b|);
      ftab[i] := ftab[i] + ftab[i - 1];
    }
  }

  lemma {:induction false} FillOne(b: Block, f: seq<nat>, i: nat)
    requires Filled(b, f, i) && i < |b|
    ensures 0 <= FillSlot(b, i) < |b| && Filled(b, f[FillSlot(b, i) := i], i + 1)
  {
    FillSlotInBucket(b, i);
    var g := f[FillSlot(b, i) := i];
    forall k {:trigger FillSlot(b, k)} | 0 <= k < i + 1
      ensures 0 <= FillSlot(b, k) < |b| && g[FillSlot(b, k)] == k
    {
      if k < i {
        FillSlotsDiffer(b, k, i);
      }
    }
  }

  method FillBuckets(fmap: array<nat>, eclass8: array<byte>, nblock: nat, ftab: array<nat>, ghost b: Block)
    returns (ghost f: seq<nat>)
    requires nblock == |b| == fmap.Length && nblock <= eclass8.Length && eclass8[..nblock] == b
    requires ftab.Length == 257 && ftab != fmap
    requires forall v: nat {:trigger ftab[v]} :: v < 256 ==> ftab[v] == End(b, v)
    modifies fmap, ftab
    ensures fmap[..] == f && IsPermutation(f, |b|) && Bucketed(b, f) && OrderedBy(b, f, 1, |b|)
    ensures forall v: nat {:trigger ftab[v]} {:trigger Start(b, v)} :: v < 256 ==> ftab[v] == Start(b, v)
  {
    f := fmap[..];
    for i := 0 to nblock
      invariant fmap[..] == f && Filled(b, f, i)
      invariant forall v: nat {:trigger ftab[v]} :: v < 256 ==> ftab[v] == End(b, v) - Count(b, v, i)
    {
      assert eclass8[i] == b[i];
      FillOne(b, f, i);
      var j: nat := eclass8[i];
      assert ftab[j] == FillSlot(b, i) + 1;
      var k := ftab[j] - 1;
      ftab[j] := k;
      f := f[k := i];
      fmap[k] := i;
    }
    FilledSorts(b, f);
    forall v: nat {:trigger Start(b, v)} | v < 256
      ensures ftab[v] == Start(b, v)
    {
      assert ftab[v] == End(b, v) - Count(b, v, nblock);
    }
  }

  method MarkStarts(bhtab: array<bool>, nblock: nat, ftab: array<nat>, ghost b: Block) returns (ghost bh: seq<bool>)
    requires nblock == |b| && bhtab.Length == 32 * (nblock / 32 + 3) && ftab.Length == 257
    requires forall v: nat {:trigger ftab[v]} {:trigger Start(b, v)} :: v < 256 ==> ftab[v] == Start(b, v)
    modifies bhtab
    ensures bhtab[..] == bh && Sentinels(bh, nblock)
    ensures forall i {:trigger bh[i]} :: 0 <= i < |b| ==>
      (bh[i] <==> exists c: nat {:trigger Start(b, c)} :: c < 256 && Start(b, c) == i)
  {
    var nBhtab := 2 + nblock / 32;
    for i := 0 to 32 * nBhtab
      invariant forall k {:trigger bhtab[k]} :: 0 <= k < i ==> !bhtab[k]
    {
      bhtab[i] := false;
    }
    for v: nat := 0 to 256
      invariant forall i {:trigger bhtab[i]} :: 0 <= i < nblock ==>
        (bhtab[i] <==> exists c: nat {:trigger Start(b, c)} :: c < v && Start(b, c) == i)
    {
      assert ftab[v] == Start(b, v);
      StartMonotone(b, v, 256);
      StartTotal(b, 256);
      ghost var was := bhtab[..];
      bhtab[ftab[v]] := true;
      forall i {:trigger bhtab[i]} | 0 <= i < nblock
        ensures bhtab[i] <==> exists c: nat {:trigger Start(b, c)} :: c < v + 1 && Start(b, c) == i
      {
        assert was[i] <==> exists c: nat {:trigger Start(b, c)} :: c < v && Start(b, c) == i;
      }
    }
    for i := 0 to 32
      invariant forall k {:trigger bhtab[k]} :: nblock <= k < nblock + 2 * i ==> bhtab[k] == ((k - nblock) % 2 == 0)
      invariant forall i {:trigger bhtab[i]} :: 0 <= i < nblock ==>
        (bhtab[i] <==> exists c: nat {:trigger Start(b, c)} :: c < 256 && Start(b, c) == i)
    {
      bhtab[nblock + 2 * i] := true;
      bhtab[nblock + 2 * i + 1] := false;
    }
    bh := bhtab[..];
    forall i {:trigger bh[i]} | 0 <= i < |b|
      ensures bh[i] == bhtab[i]
    {
    }
  }

  // ----- one pass

  lemma {:induction false} HeadsStep(n: nat, f: seq<nat>, bh: seq<bool>, e: seq<nat>, h: nat, i: nat)
    requires IsPermutation(f, n) && h <= n <= |bh| && i < n && Heads(n, f, bh, e, h, i)
    ensures Heads(n, f, bh, e[Retreat(n, f[i], h) := Head(bh, i)], h, i + 1)
  {
    var k := Retreat(n, f[i], h);
    var e' := e[k := Head(bh, i)];
    forall i' {:trigger f[i']} | 0 <= i' < i + 1
      ensures e'[Retreat(n, f[i'], h)] == Head(bh, i')
    {
      if i' < i {
        assert f[i'] != f[i];
        assert Adv(n, Retreat(n, f[i'], h), h) == f[i'] && Adv(n, k, h) == f[i];
      }
    }
  }

  function LowByte(j: nat): byte { j % 256 }

  /** Store a class number; the block's bytes lie in the same memory and are lost. */
  method SetClass(eclass: array<nat>, eclass8: array<byte>, k: nat, j: nat)
    requires k < eclass.Length && eclass8.Length == 4 * eclass.Length
    modifies eclass, eclass8
    ensures eclass[..] == old(eclass[..])[k := j]
  {
    eclass[k] := j;
    eclass8[4 * k], eclass8[4 * k + 1] := LowByte(j), LowByte(j / 0x100);
    eclass8[4 * k + 2], eclass8[4 * k + 3] := LowByte(j / 0x1_0000), LowByte(j / 0x100_0000);
  }

  /** Give every position the class of the row H places further on. */
  method AssignClasses(fmap: array<nat>, eclass: array<nat>, eclass8: array<byte>, bhtab: array<bool>, nblock: nat,
                       h: nat, ghost f: seq<nat>, ghost bh: seq<bool>)
    returns (ghost e: seq<nat>)
    requires fmap != eclass && nblock == fmap.Length == eclass.Length && eclass8.Length == 4 * nblock
    requires fmap[..] == f && bhtab[..] == bh && h <= nblock <= |bh| && IsPermutation(f, nblock)
    modifies eclass, eclass8
    ensures eclass[..] == e && Heads(nblock, f, bh, e, h, nblock)
  {
    e := eclass[..];
    var j := 0;
    for i := 0 to nblock
      invariant fmap[..] == f && bhtab[..] == bh && eclass[..] == e
      invariant if i > 0 then j == Head(bh, i - 1) else j == 0
      invariant Heads(nblock, f, bh, e, h, i)
    {
      assert bhtab[i] == bh[i] && fmap[i] == f[i];
      if bhtab[i] {
        j := i;
      }
      assert j == Head(bh, i);
      HeadsStep(nblock, f, bh, e, h, i);
      assert f[i] < nblock;
      var k: int := fmap[i] - h;
      if k < 0 {
        k := k + nblock;
      }
      assert k == Retreat(nblock, f[i], h);
      e := e[k := j];
      SetClass(eclass, eclass8, k, j);
    }
  }

  /** All the header bits of the 32-bit word that position k lies in equal v. */
  predicate WordIs(bh: seq<bool>, k: nat, v: bool)
    requires 32 * (k / 32) + 32 <= |bh|
  {
    forall i {:trigger bh[i]} :: 32 * (k / 32) <= i < 32 * (k / 32) + 32 ==> bh[i] == v
  }

  /** The first position from start on whose header bit is not v, a whole word at a time where possible. */
  method SkipBits(bhtab: array<bool>, start: nat, v: bool, ghost stop: nat) returns (k: nat)
    requires start <= stop < bhtab.Length && bhtab.Length % 32 == 0 && bhtab[stop] != v
    ensures start <= k <= stop && bhtab[k] != v
    ensures forall i {:trigger bhtab[i]} :: start <= i < k ==> bhtab[i] == v
  {
    k := start;
    while bhtab[k] == v && k % 32 != 0
      invariant start <= k <= stop
      invariant forall i {:trigger bhtab[i]} :: start <= i < k ==> bhtab[i] == v
      decreases stop - k
    {
      k := k + 1;
    }
    if bhtab[k] == v {
      while WordIs(bhtab[..], k, v)
        invariant start <= k <= stop && k % 32 == 0
        invariant forall i {:trigger bhtab[i]} :: start <= i < k ==> bhtab[i] == v
        decreases stop - k
      {
        assert bhtab[..][stop] != v;
        assert stop >= k + 32;
        forall i {:trigger bhtab[i]} | k <= i < k + 32
          ensures bhtab[i] == v
        {
          assert bhtab[..][i] == v;
        }
        k := k + 32;
      }
      while bhtab[k] == v
        invariant start <= k <= stop
        invariant forall i {:trigger bhtab[i]} :: start <= i < k ==> bhtab[i] == v
        decreases stop - k
      {
        k := k + 1;
      }
    }
  }

  /** Set a header bit wherever eclass changes within l..r. */
  method SetHeads(fmap: array<nat>, eclass: array<nat>, bhtab: array<bool>, l: nat, r: nat, ghost g: seq<nat>,
      ghost e: seq<nat>, ghost bh: seq<bool>)
    returns (ghost bh': seq<bool>)
    requires fmap != eclass && fmap[..] == g && eclass[..] == e && bhtab[..] == bh && l <= r < |g| && r < |bh|
    requires forall i {:trigger g[i]} :: l <= i <= r ==> g[i] < |e|
    modifies bhtab
    ensures bhtab[..] == bh' && NewHeads(bh, bh', g, e, l, r)
  {
    bh' := bh;
    var cc: int := -1;
    for i: nat := l to r + 1
      invariant bhtab[..] == bh' && |bh'| == |bh|
      invariant if i > l then g[i - 1] < |e| && cc == e[g[i - 1]] else cc == -1
      invariant forall k {:trigger bh'[k]} :: 0 <= k < |bh| ==>
                  (bh'[k] <==> bh[k] || (l <= k < i && (k == l || e[g[k - 1]] != e[g[k]])))
    {
      assert g[i] < |e| && fmap[i] == g[i];
      var cc1 := eclass[fmap[i]];
      if cc != cc1 {
        bhtab[i] := true;
        bh' := bh'[i := true];
        cc := cc1;
      }
    }
  }

  /** The next class of more than one row from row r+1 on, or none. */
  method NextClass(bhtab: array<bool>, nblock: nat, m: nat, ghost bh: seq<bool>) returns (found: bool, l: nat, r: nat)
    requires bhtab[..] == bh && bhtab.Length % 32 == 0 && Sentinels(bh, nblock) && m <= nblock && bh[m]
    ensures found ==> m <= l < r < nblock && bh[r + 1] && forall i {:trigger bh[i]} :: l < i <= r ==> !bh[i]
    ensures found ==> forall i {:trigger bh[i]} :: m <= i <= l ==> bh[i]
    ensures !found ==> forall i {:trigger bh[i]} :: m <= i < nblock ==> bh[i]
  {
    SentinelRoom(bh, nblock);
    assert forall i {:trigger bh[i]} :: 0 <= i < |bh| ==> bh[i] == bhtab[i];
    found, l, r := false, 0, 0;
    var k := SkipBits(bhtab, m, true, nblock + 1);
    assert k > m;
    l := k - 1;
    if l >= nblock {
      return;
    }
    k := SkipBits(bhtab, k, false, nblock);
    found, r := true, k - 1;
  }

  /** Sort the class l..r by eclass and mark the classes it splits into. */
  method RefineClass(fmap: array<nat>, eclass: array<nat>, bhtab: array<bool>, l: nat, r: nat, h: nat,
                     ghost b: Block, ghost f0: seq<nat>, ghost bh0: seq<bool>, ghost e: seq<nat>)
    returns (ghost f: seq<nat>, ghost bh: seq<bool>)
    requires fmap != eclass && fmap[..] == f0 && eclass[..] == e && bhtab[..] == bh0
    requires Pass(b, f0, bh0, h, l) && ClassOrder(b, e, h) && l < r < |b| <= 900_000 && bh0[l] && bh0[r + 1]
    requires forall i {:trigger bh0[i]} :: l < i <= r ==> !bh0[i]
    modifies fmap, bhtab
    ensures fmap[..] == f && bhtab[..] == bh && Pass(b, f, bh, h, r + 1) && bh[r + 1]
  {
    SentinelRoom(bh0, |b|);
    f := QS.QSort3(fmap, eclass, l, r, f0, e);
    assert ClassSorted(b, f0, f, bh0, e, h, l, r);
    StillPermutation(f0, f, |b|, l, r);
    bh := SetHeads(fmap, eclass, bhtab, l, r, f, e, bh0);
    PassClass(b, f0, f, bh0, bh, e, h, l, r);
  }

  lemma {:induction false} SinglesUpTo(b: Block, f: seq<nat>, bh: seq<bool>, h: nat, m: nat, l: nat)
    requires Pass(b, f, bh, h, m) && m <= l <= |b|
    requires forall i {:trigger bh[i]} :: m <= i < l ==> bh[i]
    ensures Pass(b, f, bh, h, l) && (AllSingle(b, f, h, m) ==> AllSingle(b, f, h, l))
  {
    SentinelRoom(bh, |b|);
    PassSingles(b, f, bh, h, m, l);
    forall i {:trigger NewClass(b, f, h, i)} | m <= i < l
      ensures NewClass(b, f, h, i)
    {
      assert bh[i];
    }
  }

  /** The pass for h: every class of two or more rows is sorted by the h bytes that follow. */
  method SortPass(fmap: array<nat>, eclass: array<nat>, eclass8: array<byte>, bhtab: array<bool>, nblock: nat, h: nat,
                  ghost b: Block, ghost f0: seq<nat>, ghost bh0: seq<bool>)
    returns (nNotDone: nat, ghost f: seq<nat>, ghost bh: seq<bool>)
    requires fmap != eclass && nblock == |b| == fmap.Length == eclass.Length && eclass8.Length == 4 * nblock
      && nblock <= 900_000
    requires fmap[..] == f0 && bhtab[..] == bh0 && bhtab.Length % 32 == 0 && h <= nblock && Pass(b, f0, bh0, h, 0)
      && bh0[0]
    modifies fmap, eclass, eclass8, bhtab
    ensures fmap[..] == f && bhtab[..] == bh && Pass(b, f, bh, h, nblock) && bh[0]
    ensures nNotDone == 0 ==> AllSingle(b, f, h, nblock)
  {
    f, bh := f0, bh0;
    SentinelRoom(bh, nblock);
    ghost var e := AssignClasses(fmap, eclass, eclass8, bhtab, nblock, h, f, bh);
    ClassesOrder(b, f, bh, e, h);
    nNotDone := 0;
    var m: nat := 0; // r + 1 in the source
    var more := true;
    while more
      invariant fmap[..] == f && bhtab[..] == bh && eclass[..] == e && m <= nblock
      invariant Pass(b, f, bh, h, m) && ClassOrder(b, e, h) && bh[m] && bh[0]
      invariant nNotDone == 0 ==> AllSingle(b, f, h, m)
      invariant !more ==> m == nblock
      decreases more, nblock - m
    {
      var rows;
      more, m, rows, f, bh := NextRefine(fmap, eclass, bhtab, nblock, m, h, b, f, bh, e);
      nNotDone := nNotDone + rows;
    }
  }

  /** One round of the pass: skip the single rows from row m on, and refine the class after them, if any. */
  method NextRefine(fmap: array<nat>, eclass: array<nat>, bhtab: array<bool>, nblock: nat, m: nat, h: nat,
                    ghost b: Block, ghost f0: seq<nat>, ghost bh0: seq<bool>, ghost e: seq<nat>)
    returns (more: bool, m': nat, rows: nat, ghost f: seq<nat>, ghost bh: seq<bool>)
    requires fmap != eclass && nblock == |b| <= 900_000 && m <= nblock && bhtab.Length % 32 == 0
    requires fmap[..] == f0 && bhtab[..] == bh0 && eclass[..] == e
    requires Pass(b, f0, bh0, h, m) && ClassOrder(b, e, h) && m < |bh0| && bh0[m] && nblock > 0
    modifies fmap, bhtab
    ensures fmap[..] == f && bhtab[..] == bh && m' <= nblock && (if more then m < m' else m' == nblock)
    ensures Pass(b, f, bh, h, m') && m' < |bh| && bh[m'] && bh[0]
    ensures rows == 0 && AllSingle(b, f0, h, m) ==> AllSingle(b, f, h, m')
  {
    hide Adv, AllSingle, Bucketed, ClassOrder, IsPermutation, Key;
    var l, r;
    more, l, r := NextClass(bhtab, nblock, m, bh0);
    SentinelRoom(bh0, nblock);
    f, bh := f0, bh0;
    SinglesUpTo(b, f, bh, h, m, if more then l else nblock);
    if more {
      f, bh := RefineClass(fmap, eclass, bhtab, l, r, h, b, f, bh, e);
      m', rows := r + 1, r - l + 1;
    } else {
      m', rows := nblock, 0;
    }
    FirstHead(b, f, bh, h, m');
  }

  lemma {:induction false} FirstHead(b: Block, f: seq<nat>, bh: seq<bool>, h: nat, m: nat)
    requires Pass(b, f, bh, h, m) && |b| > 0
    ensures |bh| > 0 && bh[0]
  {
    SentinelRoom(bh, |b|);
    assert bh[0] <==> true;
  }

  lemma {:induction false} NextPass(b: Block, f: seq<nat>, bh: seq<bool>, h: nat)
    requires Pass(b, f, bh, h, |b|)
    ensures Pass(b, f, bh, 2 * h, 0)
  {
  }

  // ----- the block restored

  /** What is left of the count of v when i rows have been used up. */
  function Left(b: Block, v: nat, i: nat): int {
    if i <= Start(b, v) then Count(b, v, |b|) else if i >= End(b, v) then 0 else End(b, v) - i
  }

  lemma {:induction false} LeftStep(b: Block, f: seq<nat>, i: nat, v: nat)
    requires Rows(f, |b|) && Bucketed(b, f) && i < |b|
    ensures Left(b, v, i + 1) == Left(b, v, i) - (if v == b[f[i]] then 1 else 0)
    ensures v == b[f[i]] ==> Left(b, v, i) > 0
    ensures v < b[f[i]] ==> Left(b, v, i) == 0
  {
    assert f[i] < |b|;
    var u: nat := b[f[i]];
    assert End(b, v) == Start(b, v) + Count(b, v, |b|);
    if v < u {
      EndBeforeStart(b, v, u);
    } else if u < v {
      EndBeforeStart(b, u, v);
    }
  }

  lemma {:induction false} BytesAscend(b: Block, f: seq<nat>, i: nat)
    requires Rows(f, |b|) && Bucketed(b, f) && i + 1 < |b|
    ensures b[f[i]] <= b[f[i + 1]]
  {
    assert f[i] < |b| && f[i + 1] < |b|;
    if b[f[i + 1]] < b[f[i]] {
      EndBeforeStart(b, b[f[i + 1]], b[f[i]]);
    }
  }

  /** Put the block back into eclass8, from the counts of its bytes and the order of its rows. */
  method RestoreBlock(fmap: array<nat>, eclass8: array<byte>, nblock: nat, ftabCopy: array<nat>, ghost b: Block,
      ghost f: seq<nat>)
    requires nblock == |b| == fmap.Length && eclass8.Length == 4 * nblock && ftabCopy != fmap && ftabCopy.Length == 256
    requires fmap[..] == f && IsPermutation(f, nblock) && Bucketed(b, f)
    requires forall v: nat {:trigger ftabCopy[v]} :: v < 256 ==> ftabCopy[v] == Count(b, v, |b|)
    modifies eclass8, ftabCopy
    ensures eclass8[..nblock] == b
  {
    var j: nat := 0;
    for i := 0 to nblock
      invariant fmap[..] == f && (i < nblock ==> j <= b[f[i]])
      invariant forall v: nat {:trigger ftabCopy[v]} :: v < 256 ==> ftabCopy[v] == Left(b, v, i)
      invariant forall k {:trigger f[k]} :: 0 <= k < i ==> eclass8[f[k]] == b[f[k]]
    {
      assert f[i] < |b| && fmap[i] == f[i];
      LeftStep(b, f, i, b[f[i]]);
      while ftabCopy[j] == 0
        invariant j <= b[f[i]]
        decreases b[f[i]] - j
      {
        j := j + 1;
      }
      LeftStep(b, f, i, j);
      forall v: nat {:trigger ftabCopy[v]} | v < 256
        ensures Left(b, v, i + 1) == Left(b, v, i) - (if v == j then 1 else 0)
      {
        LeftStep(b, f, i, v);
      }
      ftabCopy[j] := ftabCopy[j] - 1;
      eclass8[fmap[i]] := j;
      if i + 1 < nblock {
        BytesAscend(b, f, i);
      }
    }
    forall k | 0 <= k < nblock
      ensures eclass8[k] == b[k]
    {
      var i := PermutationHits(f, nblock, k);
    }
  }

  // ----- the whole

  /**
   * fmap becomes an order of the rotations of the block, and eclass8, whose memory the
   * classes used, holds the block again.
   */
  method FallbackSort(fmap: array<nat>, eclass: array<nat>, eclass8: array<byte>, bhtab: array<bool>, nblock: nat,
      ghost b: Block)
    returns (ghost f: seq<nat>)
    requires fmap != eclass && 0 < nblock == |b| == fmap.Length == eclass.Length && nblock <= 900_000
    requires eclass8.Length == 4 * nblock && eclass8[..nblock] == b && bhtab.Length == 32 * (nblock / 32 + 3)
    modifies fmap, eclass, eclass8, bhtab
    ensures fmap[..] == f && SortsRotations(b, f)
    ensures eclass8[..nblock] == b
  {
    var ftab, ftabCopy := new nat[257], new nat[256];
    CountBytes(eclass8, nblock, ftab, b);
    for v: nat := 0 to 256
      invariant forall u: nat {:trigger ftabCopy[u]} :: u < v ==> ftabCopy[u] == Count(b, u, |b|)
      invariant forall u: nat {:trigger Count(b, u, |b|)} :: u < 257 ==> ftab[u] == Count(b, u, |b|)
      invariant eclass8[..nblock] == b
    {
      assert ftab[v] == Count(b, v, |b|);
      ftabCopy[v] := ftab[v];
    }
    SumCounts(ftab, b);
    f := FillBuckets(fmap, eclass8, nblock, ftab, b);
    ghost var bh := MarkStarts(bhtab, nblock, ftab, b);
    StartsMark(b, f, bh);
    f := DoublePasses(fmap, eclass, eclass8, bhtab, nblock, b, f, bh);
    RestoreBlock(fmap, eclass8, nblock, ftabCopy, b, f);
  }

  method DoublePasses(fmap: array<nat>, eclass: array<nat>, eclass8: array<byte>, bhtab: array<bool>, nblock: nat,
                      ghost b: Block, ghost f0: seq<nat>, ghost bh0: seq<bool>)
    returns (ghost f: seq<nat>)
    requires fmap != eclass && 0 < nblock == |b| == fmap.Length == eclass.Length && eclass8.Length == 4 * nblock
      && nblock <= 900_000
    requires fmap[..] == f0 && bhtab[..] == bh0 && bhtab.Length % 32 == 0 && Pass(b, f0, bh0, 1, 0)
    modifies fmap, eclass, eclass8, bhtab
    ensures fmap[..] == f && SortsRotations(b, f) && Bucketed(b, f)
  {
    f := f0;
    ghost var bh := bh0;
    var h := 1;
    FirstHead(b, f, bh, h, 0);
    while true
      invariant fmap[..] == f && bhtab[..] == bh && 1 <= h <= nblock && Pass(b, f, bh, h, 0) && bh[0]
      decreases nblock - h
    {
      var nNotDone;
      ghost var done := h;
      nNotDone, f, bh := SortPass(fmap, eclass, eclass8, bhtab, nblock, h, b, f, bh);
      h := h * 2;
      if h > nblock || nNotDone == 0 {
        PassSorts(b, f, bh, done);
        break;
      }
      NextPass(b, f, bh, done);
    }
  }

  /** How many comparisons mainSort may spend. */
  function BudgetInit(nblock: nat, workFactor: int): (budget: nat) {
    var wfact := if workFactor < 1 then 1 else if workFactor > 100 then 100 else workFactor;
    nblock * ((wfact - 1) / 3)
  }

  /** mainSort, and fallbackSort for a block too repetitive for it. */
  method MainOrFallback(fmap: array<nat>, eclass: array<nat>, eclass8: array<byte>, bhtab: array<bool>, nblock: nat,
      workFactor: int, ghost b: Block)
    returns (ghost f: seq<nat>)
    requires fmap != eclass && 10_000 <= nblock == |b| == fmap.Length == eclass.Length && nblock <= 900_000
    requires eclass8.Length == 4 * nblock && eclass8[..nblock] == b && bhtab.Length == 32 * (nblock / 32 + 3)
    modifies fmap, eclass, eclass8, bhtab
    ensures fmap[..] == f && SortsRotations(b, f)
    ensures eclass8[..nblock] == b
  {
    hide SortsRotations;
    var quadrant, ftab := new nat[nblock + MainCompare.OVERSHOOT], new nat[MainRadix.SMALLS + 1];
    var budget;
    budget, f := MainSort.MainSort(fmap, eclass8, quadrant, ftab, nblock, BudgetInit(nblock, workFactor), b);
    if budget < 0 {
      f := FallbackSort(fmap, eclass, eclass8, bhtab, nblock, b);
    }
  }

  /** Sort the block and find the row of the block itself. */
  method BlockSort(fmap: array<nat>, eclass: array<nat>, eclass8: array<byte>, bhtab: array<bool>, nblock: nat,
      workFactor: int, ghost b: Block)
    returns (origPtr: nat, ghost f: seq<nat>)
    requires fmap != eclass && 0 < nblock == |b| == fmap.Length == eclass.Length && nblock <= 900_000
    requires eclass8.Length == 4 * nblock && eclass8[..nblock] == b && bhtab.Length == 32 * (nblock / 32 + 3)
    modifies fmap, eclass, eclass8, bhtab
    ensures fmap[..] == f && SortsRotations(b, f)
    ensures origPtr < nblock && f[origPtr] == 0
    ensures eclass8[..nblock] == b
  {
    if nblock < 10_000 {
      f := FallbackSort(fmap, eclass, eclass8, bhtab, nblock, b);
    } else {
      f := MainOrFallback(fmap, eclass, eclass8, bhtab, nblock, workFactor, b);
    }
    ghost var row := PermutationHits(f, nblock, 0);
    origPtr := 0;
    while fmap[origPtr] != 0
      invariant origPtr <= row && fmap[..] == f && f[row] == 0 && eclass8[..nblock] == b
      decreases row - origPtr
    {
      assert fmap[row] == 0;
      origPtr := origPtr + 1;
    }
  }
}
