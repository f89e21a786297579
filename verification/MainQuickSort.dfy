/**
 * mainSimpleSort and mainQSort3: a range of rotations that share their first d bytes sorted
 * by insertion in shrinking steps, or by three-way partitioning on the next byte, with an
 * explicit stack. Work is counted, and both give up once the budget is spent.
 */
module MainQuickSort {
  import opened Prelude
  import opened Buckets
  import opened Rotations
  import BwtInverse
  import opened FallbackQuickSort
  import opened MainCompare

  const MAIN_SMALL_THRESH := 20
  const DEPTH_THRESH := 14
  const MAX_DEPTH := 15

  /** The arrays of the encoder that a comparison reads. */
  ghost predicate Setting(block: array<byte>, quadrant: array<nat>, nblock: nat, b: Block, q: seq<nat>)
    reads block, quadrant
  {
    Extends(block[..], b) && Extends(quadrant[..], q) && Quadrants(b, q) && nblock == |b|
  }

  predicate Separate(ptr: array<nat>, block: array<byte>, quadrant: array<nat>) {
    ptr != quadrant && ptr as object != block as object
  }

  /** The rotations in lo..hi agree in their first d bytes. */
  ghost predicate Shares(b: Block, f: seq<nat>, lo: int, hi: int, d: nat) {
    0 <= lo && hi < |f|
    && forall i {:trigger f[i]} :: lo <= i <= hi ==> f[lo] < |b| && f[i] < |b| && Key(b, f[i], d) == Key(b, f[lo], d)
  }

  lemma {:induction false} SharesPermuted(b: Block, f: seq<nat>, g: seq<nat>, lo: int, hi: int, d: nat)
    requires Shares(b, f, lo, hi, d) && Permuted(f, g, lo, hi)
    ensures Shares(b, g, lo, hi, d)
  {
    forall i {:trigger g[i]} | lo <= i <= hi
      ensures g[lo] < |b| && g[i] < |b| && Key(b, g[i], d) == Key(b, g[lo], d)
    {
      var k := PermutedFrom(f, g, lo, hi, i);
      var m := PermutedFrom(f, g, lo, hi, lo);
      assert f[k] < |b| && f[m] < |b|;
    }
  }

  lemma {:induction false} SharesNamed(b: Block, f: seq<nat>, lo: int, hi: int, d: nat)
    requires Shares(b, f, lo, hi, d)
    ensures Named(f, Keys(b), lo, hi)
  {
  }

  // ----- insertion, from the right end of a sorted stretch to its place

  /** Entries lo..i are sorted but for the one at p, which is no larger than those behind it. */
  ghost predicate SortedExcept(f: seq<nat>, e: seq<nat>, lo: int, i: int, p: int) {
    && (forall k, m {:trigger Le(f, e, k, m)} :: lo <= k < m <= i && k != p && m != p ==> Le(f, e, k, m))
    && (forall k {:trigger Le(f, e, p, k)} :: p < k <= i ==> Le(f, e, p, k))
  }

  lemma {:induction false} SinkStep(f: seq<nat>, e: seq<nat>, lo: int, i: int, p: int)
    requires 0 <= lo < p <= i < |f| && Named(f, e, lo, i) && SortedExcept(f, e, lo, i, p)
    requires e[f[p]] <= e[f[p - 1]]
    ensures SortedExcept(Swap(f, p - 1, p), e, lo, i, p - 1)
  {
    var g := Swap(f, p - 1, p);
    forall k, m {:trigger Le(g, e, k, m)} | lo <= k < m <= i && k != p - 1 && m != p - 1
      ensures Le(g, e, k, m)
    {
      assert Le(f, e, if k == p then p - 1 else k, if m == p then p - 1 else m);
    }
    forall k {:trigger Le(g, e, p - 1, k)} | p - 1 < k <= i
      ensures Le(g, e, p - 1, k)
    {
      if k > p {
        assert Le(f, e, p, k);
      }
    }
  }

  lemma {:induction false} SinkDone(f: seq<nat>, e: seq<nat>, lo: int, i: int, p: int)
    requires 0 <= lo <= p <= i < |f| && Named(f, e, lo, i) && SortedExcept(f, e, lo, i, p)
    requires p == lo || e[f[p - 1]] <= e[f[p]]
    ensures Sorted(f, e, lo, i)
  {
    forall k, m {:trigger Le(f, e, k, m)} | lo <= k < m <= i
      ensures Le(f, e, k, m)
    {
      if m == p && k < p - 1 {
        assert Le(f, e, k, p - 1);
      } else if k == p {
        assert Le(f, e, p, m);
      }
    }
  }

  /** A comparison d bytes on is a comparison of the whole rotations. */
  lemma {:induction false} TellsWhole(b: Block, gt: bool, x: nat, y: nat, d: nat)
    requires x < |b| && y < |b| && d <= MAX_DEPTH && OVERSHOOT < |b| && Key(b, x, d) == Key(b, y, d)
    requires Tells(b, gt, x + d, y + d)
    ensures if gt then Key(b, y, |b|) <= Key(b, x, |b|) else Key(b, x, |b|) <= Key(b, y, |b|)
  {
    AdvSmall(|b|, x, d);
    AdvSmall(|b|, y, d);
    if gt {
      OrderCarries(b, x, y, d);
    } else {
      OrderCarries(b, y, x, d);
    }
  }

  /** Everything an insertion keeps. */
  ghost predicate Inserting(b: Block, f0: seq<nat>, f: seq<nat>, lo: int, hi: int, d: nat) {
    OVERSHOOT < |b| && d <= MAX_DEPTH && 0 <= lo && hi < |f| && Permuted(f0, f, lo, hi) && Shares(b, f, lo, hi, d)
  }

  lemma {:induction false} InsertingSwap(b: Block, f0: seq<nat>, f: seq<nat>, lo: int, hi: int, d: nat, i: int, j: int)
    requires Inserting(b, f0, f, lo, hi, d) && lo <= i <= hi && lo <= j <= hi
    ensures Inserting(b, f0, Swap(f, i, j), lo, hi, d)
  {
    hide Shares, Permuted;
    SwapPermutes(f, i, j, lo, hi);
    PermutedTrans(f0, f, Swap(f, i, j), lo, hi);
    SharesPermuted(b, f, Swap(f, i, j), lo, hi, d);
  }

  lemma {:induction false} InsertingAt(b: Block, f0: seq<nat>, f: seq<nat>, lo: int, hi: int, d: nat, i: int, j: int)
    requires Inserting(b, f0, f, lo, hi, d) && lo <= i <= hi && lo <= j <= hi
    ensures f[i] < |b| && f[j] < |b| && Key(b, f[i], d) == Key(b, f[j], d) && Named(f, Keys(b), lo, i)
  {
    SharesNamed(b, f, lo, hi, d);
  }

  lemma {:induction false} OnceCounted(f: seq<nat>, v: nat, i: nat)
    requires i <= |f| && BwtInverse.Distinct(f)
    ensures Count(f, v, i) <= 1 && (Count(f, v, i) == 1 <==> v in f[..i])
  {
    if i > 0 {
      OnceCounted(f, v, i - 1);
      assert f[..i] == f[..i - 1] + [f[i - 1]];
      var t := f[..i - 1];
      assert forall k {:trigger t[k]} :: 0 <= k < |t| ==> t[k] != f[i - 1];
    }
  }

  lemma {:induction false} TwiceCounted(f: seq<nat>, i: nat, k: nat)
    requires i < k < |f|
    ensures f[i] == f[k] ==> Count(f, f[i], |f|) >= 2
  {
    CountMonotone(f, f[i], i, k);
    CountMonotone(f, f[i], k, |f|);
  }

  /** Why work may have been spent: the block repeats itself, or the pointers do. */
  ghost predicate Excused(b: Block, f: seq<nat>) { Repetitive(b) || !BwtInverse.Distinct(f) }

  lemma {:induction false} ExcusedBack(b: Block, f: seq<nat>, g: seq<nat>, lo: int, hi: int)
    requires Permuted(f, g, lo, hi)
    ensures |f| == |g| && (Excused(b, g) ==> Excused(b, f))
  {
    if BwtInverse.Distinct(f) {
      forall i, k {:trigger g[i], g[k]} | 0 <= i < k < |g|
        ensures g[i] != g[k]
      {
        TwiceCounted(g, i, k);
        OnceCounted(f, g[i], |f|);
        assert Count(f, g[i], |f|) == Count(g, g[i], |g|);
      }
    }
  }

  lemma {:induction false} ApartOrNot(b: Block, f0: seq<nat>, f: seq<nat>, lo: int, hi: int, d: nat, i: int, j: int)
    requires Inserting(b, f0, f, lo, hi, d) && lo <= i < j <= hi
    ensures f[i] != f[j] || Excused(b, f0)
  {
    hide Shares, Permuted, Repetitive;
    ExcusedBack(b, f0, f, lo, hi);
  }

  /** One copy of the insertion: entry i sinks by steps of h. */
  method Sink(ptr: array<nat>, block: array<byte>, quadrant: array<nat>, nblock: nat, i: int, lo: int, hi: int, h: int,
              d: nat, budget0: int, ghost b: Block, ghost q: seq<nat>, ghost f0: seq<nat>, ghost f1: seq<nat>)
    returns (budget: int, ghost f: seq<nat>)
    requires Separate(ptr, block, quadrant) && Setting(block, quadrant, nblock, b, q)
    requires 1 <= h && lo + h <= i <= hi && ptr[..] == f1 && Inserting(b, f0, f1, lo, hi, d)
    requires h == 1 ==> Sorted(f1, Keys(b), lo, i - 1)
    modifies ptr
    ensures ptr[..] == f && Inserting(b, f0, f, lo, hi, d) && budget <= budget0 && (budget < budget0 ==> Excused(b, f0))
    ensures h == 1 ==> Sorted(f, Keys(b), lo, i)
  {
    hide Inserting, Setting, Key, Tells, Sorted, SortedExcept, Excused, Repetitive;
    f, budget := f1, budget0;
    InsertingSizes(b, f0, f1, lo, hi, d);
    var v, j := ptr[i], i;
    if h == 1 {
      SinkStart(f, Keys(b), lo, i);
    }
    var going := true;
    while going
      invariant lo <= j <= i && (going ==> j >= lo + h) && |f| == ptr.Length
      invariant f == ptr[..][j := v] && Setting(block, quadrant, nblock, b, q)
      invariant Inserting(b, f0, f, lo, hi, d) && budget <= budget0 && (budget < budget0 ==> Excused(b, f0))
      invariant h == 1 ==> SortedExcept(f, Keys(b), lo, i, j)
      invariant h == 1 && !going ==> j == lo || (f[j - 1] < |b| && f[j] < |b| && Keys(b)[f[j - 1]] <= Keys(b)[f[j]])
      decreases j, going
    {
      InsertingAt(b, f0, f, lo, hi, d, j - h, j);
      ApartOrNot(b, f0, f, lo, hi, d, j - h, j);
      RepeatsExcuse(b, f0);
      assert f[j] == v && f[j - h] == ptr[j - h];
      var gt;
      gt, budget := Compare(block, quadrant, nblock, ptr[j - h], v, d, budget, b, q);
      if !gt {
        going := false;
      } else {
        ghost var a := ptr[..];
        MoveHole(a, f, j, j - h, v);
        InsertingSwap(b, f0, f, lo, hi, d, j, j - h);
        if h == 1 {
          InsertingAt(b, f0, f, lo, hi, d, i, j);
          SinkStep(f, Keys(b), lo, i, j);
          assert Swap(f, j - 1, j) == Swap(f, j, j - 1);
        }
        f := Swap(f, j, j - h);
        ptr[j] := ptr[j - h];
        assert ptr[..] == a[j := a[j - h]];
        j := j - h;
        if j <= lo + h - 1 {
          going := false;
        }
      }
    }
    if h == 1 {
      InsertingAt(b, f0, f, lo, hi, d, i, j);
      SinkDone(f, Keys(b), lo, i, j);
    }
    ptr[j] := v;
    assert ptr[..] == f;
  }

  lemma {:induction false} InsertingSizes(b: Block, f0: seq<nat>, f: seq<nat>, lo: int, hi: int, d: nat)
    requires Inserting(b, f0, f, lo, hi, d)
    ensures 0 <= lo && hi < |f| && OVERSHOOT < |b| && d <= MAX_DEPTH
  {
  }

  lemma {:induction false} SinkStart(f: seq<nat>, e: seq<nat>, lo: int, i: int)
    requires Sorted(f, e, lo, i - 1)
    ensures SortedExcept(f, e, lo, i, i)
  {
  }

  method Compare(block: array<byte>, quadrant: array<nat>, nblock: nat, x: nat, y: nat, d: nat, budget0: int,
                 ghost b: Block, ghost q: seq<nat>)
    returns (gt: bool, budget: int)
    requires Setting(block, quadrant, nblock, b, q) && x < |b| && y < |b| && d <= MAX_DEPTH && OVERSHOOT < |b|
      && Key(b, x, d) == Key(b, y, d)
    ensures budget <= budget0 && (budget < budget0 && x != y ==> Repetitive(b))
    ensures if gt then Keys(b)[y] <= Keys(b)[x] else Keys(b)[x] <= Keys(b)[y]
  {
    hide Key, Tells, Extends, Quadrants, Repetitive, Groups;
    gt, budget := MainGtU(block, quadrant, nblock, x + d, y + d, budget0, b, q);
    TellsWhole(b, gt, x, y, d);
    if budget < budget0 && x != y {
      GroupsRepeat(b, q, Place(|b|, x + d), Place(|b|, y + d), budget0 - budget);
    }
  }

  lemma {:induction false} RepeatsExcuse(b: Block, f: seq<nat>)
    ensures Repetitive(b) ==> Excused(b, f)
  {
  }

  // ----- mainSimpleSort

  const INCS: seq<int> := [1, 4, 13, 40, 121, 364, 1093, 3280, 9841, 29524, 88573, 265720, 797161, 2391484]

  /** One pass with step h, three insertions between looks at the budget. */
  method ShellPass(ptr: array<nat>, block: array<byte>, quadrant: array<nat>, nblock: nat, lo: int, hi: int, h: int,
                   d: nat, budget0: int, ghost b: Block, ghost q: seq<nat>, ghost f0: seq<nat>, ghost f1: seq<nat>)
    returns (abandoned: bool, budget: int, ghost f: seq<nat>)
    requires Separate(ptr, block, quadrant) && Setting(block, quadrant, nblock, b, q)
    requires 1 <= h && lo <= hi && ptr[..] == f1 && Inserting(b, f0, f1, lo, hi, d)
    modifies ptr
    ensures ptr[..] == f && Inserting(b, f0, f, lo, hi, d) && budget <= budget0 && (abandoned ==> budget < 0)
    ensures budget < budget0 ==> Excused(b, f0)
    ensures h == 1 && !abandoned ==> Sorted(f, Keys(b), lo, hi)
  {
    hide Inserting, Setting, Key, Sorted, Excused;
    abandoned, budget, f := false, budget0, f1;
    var i := lo + h;
    SortedOne(f, Keys(b), lo, i - 1);
    while true
      invariant lo + h <= i && (i <= hi + 1 || i == lo + h) && ptr[..] == f && Setting(block, quadrant, nblock, b, q)
      invariant Inserting(b, f0, f, lo, hi, d) && budget <= budget0 && (budget < budget0 ==> Excused(b, f0))
      invariant h == 1 ==> Sorted(f, Keys(b), lo, i - 1)
      decreases hi - i
    {
      var copy := 0;
      ghost var i0 := i;
      while copy < 3 && i <= hi
        invariant 0 <= copy <= 3 && lo + h <= i && (i <= hi + 1 || i == lo + h) && ptr[..] == f
          && Setting(block, quadrant, nblock, b, q)
        invariant Inserting(b, f0, f, lo, hi, d) && budget <= budget0 && (budget < budget0 ==> Excused(b, f0))
          && i >= i0 + copy
        invariant h == 1 ==> Sorted(f, Keys(b), lo, i - 1)
        decreases hi - i
      {
        budget, f := Sink(ptr, block, quadrant, nblock, i, lo, hi, h, d, budget, b, q, f0, f);
        i := i + 1;
        copy := copy + 1;
      }
      if copy < 3 {
        break;
      }
      if budget < 0 {
        abandoned := true;
        return;
      }
    }
  }

  lemma {:induction false} SortedOne(f: seq<nat>, e: seq<nat>, lo: int, i: int)
    ensures i <= lo ==> Sorted(f, e, lo, i)
  {
  }

  /** mainSimpleSort: sorted, or given up with the budget spent. */
  method MainSimpleSort(ptr: array<nat>, block: array<byte>, quadrant: array<nat>, nblock: nat, lo: int, hi: int,
                        d: nat, budget0: int, ghost b: Block, ghost q: seq<nat>, ghost f0: seq<nat>)
    returns (budget: int, ghost f: seq<nat>)
    requires Separate(ptr, block, quadrant) && Setting(block, quadrant, nblock, b, q)
    requires ptr[..] == f0 && Inserting(b, f0, f0, lo, hi, d) && lo <= hi + 1 && hi - lo + 1 <= 900_000
    modifies ptr
    ensures ptr[..] == f && Permuted(f0, f, lo, hi) && budget <= budget0 && (budget < budget0 ==> Excused(b, f0))
    ensures budget >= 0 ==> Sorted(f, Keys(b), lo, hi)
  {
    hide Inserting, Setting, Key, Excused;
    budget, f := budget0, f0;
    InsertingPermuted(b, f0, f, lo, hi, d);
    var bigN := hi - lo + 1;
    if bigN < 2 {
      return;
    }
    var hp := 0;
    while INCS[hp] < bigN
      invariant 0 <= hp < |INCS| && (hp > 0 ==> INCS[hp - 1] < bigN)
      decreases |INCS| - hp
    {
      hp := hp + 1;
    }
    hp := hp - 1;
    while hp >= 0
      invariant -1 <= hp < |INCS| && ptr[..] == f && Setting(block, quadrant, nblock, b, q)
      invariant Inserting(b, f0, f, lo, hi, d) && budget <= budget0 && (budget < budget0 ==> Excused(b, f0))
      invariant hp == -1 ==> Sorted(f, Keys(b), lo, hi)
    {
      var abandoned;
      abandoned, budget, f := ShellPass(ptr, block, quadrant, nblock, lo, hi, INCS[hp], d, budget, b, q, f0, f);
      if abandoned {
        InsertingPermuted(b, f0, f, lo, hi, d);
        return;
      }
      hp := hp - 1;
    }
    InsertingPermuted(b, f0, f, lo, hi, d);
  }

  lemma {:induction false} InsertingPermuted(b: Block, f0: seq<nat>, f: seq<nat>, lo: int, hi: int, d: nat)
    requires Inserting(b, f0, f, lo, hi, d)
    ensures Permuted(f0, f, lo, hi)
  {
  }

  // ----- partitioning by the byte at depth d

  /** The byte at depth d of every rotation. */
  function BytesAt(b: Block, d: nat): (e: seq<nat>)
    ensures |e| == |b| && forall i {:trigger e[i]} :: 0 <= i < |b| ==> e[i] == b[Adv(|b|, i, d)]
  {
    seq(|b|, i requires 0 <= i < |b| => b[Adv(|b|, i, d)])
  }

  lemma {:induction false} ByteRead(b: Block, block: seq<nat>, x: nat, d: nat)
    requires Extends(block, b) && x < |b| && d <= MAX_DEPTH
    ensures x + d < |block| && block[x + d] == BytesAt(b, d)[x]
  {
    AdvSmall(|b|, x, d);
    assert block[x + d] == b[Place(|b|, x + d)];
  }

  method ByteOf(block: array<byte>, x: nat, d: nat, ghost b: Block) returns (c: byte)
    requires Extends(block[..], b) && x < |b| && d <= MAX_DEPTH
    ensures c == BytesAt(b, d)[x]
  {
    ByteRead(b, block[..], x, d);
    c := block[x + d];
    assert c == block[..][x + d];
  }

  /** mmed3: the middle one of three. */
  method Median(a: byte, b: byte, c: byte) returns (m: byte)
    ensures m == a || m == b || m == c
    ensures (a <= m <= b || b <= m <= a) || (a <= m <= c || c <= m <= a)
    ensures (a <= m <= c || c <= m <= a) || (b <= m <= c || c <= m <= b)
  {
    var x, y, z := a, b, c;
    if x > y {
      x, y := y, x;
    }
    if y > z {
      y := z;
      if x > y {
        y := x;
      }
    }
    m := y;
  }

  method MainScanLeft(ptr: array<nat>, block: array<byte>, lo: int, hi: int, d: nat, med: byte, lt: int, un: int,
                      unHi: int, gtHi: int, ghost b: Block, ghost f0: seq<nat>, ghost f1: seq<nat>)
    returns (ltLo: int, unLo: int, ghost f: seq<nat>)
    requires ptr as object != block as object && Extends(block[..], b) && d <= MAX_DEPTH
    requires ptr[..] == f1 && Permuted(f0, f1, lo, hi)
      && Partitioning(f1, BytesAt(b, d), med, lo, lt, un, unHi, gtHi, hi)
    modifies ptr
    ensures ptr[..] == f && Permuted(f0, f, lo, hi) && unLo >= un
    ensures Partitioning(f, BytesAt(b, d), med, lo, ltLo, unLo, unHi, gtHi, hi)
    ensures unLo > unHi || After(f, BytesAt(b, d), med, unLo)
  {
    hide Extends;
    f, ltLo, unLo := f1, lt, un;
    ghost var e := BytesAt(b, d);
    while true
      invariant ptr[..] == f && Permuted(f0, f, lo, hi) && unLo >= un && Extends(block[..], b)
      invariant Partitioning(f, e, med, lo, ltLo, unLo, unHi, gtHi, hi)
      decreases unHi - unLo
    {
      if unLo > unHi {
        break;
      }
      assert f[unLo] < |e| && ptr[unLo] == f[unLo];
      var c := ByteOf(block, ptr[unLo], d, b);
      var n: int := c as int - med as int;
      if n == 0 {
        PartitionLeft(f, e, med, lo, ltLo, unLo, unHi, gtHi, hi);
        SwapPermutes(f, unLo, ltLo, lo, hi);
        PermutedTrans(f0, f, Swap(f, unLo, ltLo), lo, hi);
        f := Swap(f, unLo, ltLo);
        ptr[unLo], ptr[ltLo] := ptr[ltLo], ptr[unLo];
        ltLo, unLo := ltLo + 1, unLo + 1;
        continue;
      }
      if n > 0 {
        break;
      }
      unLo := unLo + 1;
    }
  }

  method MainScanRight(ptr: array<nat>, block: array<byte>, lo: int, hi: int, d: nat, med: byte, ltLo: int, unLo: int,
                       un: int, gt: int, ghost b: Block, ghost f0: seq<nat>, ghost f1: seq<nat>)
    returns (unHi: int, gtHi: int, ghost f: seq<nat>)
    requires ptr as object != block as object && Extends(block[..], b) && d <= MAX_DEPTH
    requires ptr[..] == f1 && Permuted(f0, f1, lo, hi)
      && Partitioning(f1, BytesAt(b, d), med, lo, ltLo, unLo, un, gt, hi)
    requires unLo > un || After(f1, BytesAt(b, d), med, unLo)
    modifies ptr
    ensures ptr[..] == f && Permuted(f0, f, lo, hi) && unHi <= un
    ensures Partitioning(f, BytesAt(b, d), med, lo, ltLo, unLo, unHi, gtHi, hi)
    ensures unLo > unHi || (After(f, BytesAt(b, d), med, unLo) && Before(f, BytesAt(b, d), med, unHi) && unLo < unHi)
  {
    hide Extends;
    f, unHi, gtHi := f1, un, gt;
    ghost var e := BytesAt(b, d);
    while true
      invariant ptr[..] == f && Permuted(f0, f, lo, hi) && unHi <= un && Extends(block[..], b)
      invariant Partitioning(f, e, med, lo, ltLo, unLo, unHi, gtHi, hi)
      invariant unLo > unHi || After(f, e, med, unLo)
      decreases unHi - unLo
    {
      if unLo > unHi {
        break;
      }
      assert f[unHi] < |e| && ptr[unHi] == f[unHi];
      var c := ByteOf(block, ptr[unHi], d, b);
      var n: int := c as int - med as int;
      if n == 0 {
        PartitionRight(f, e, med, lo, ltLo, unLo, unHi, gtHi, hi);
        SwapPermutes(f, unHi, gtHi, lo, hi);
        PermutedTrans(f0, f, Swap(f, unHi, gtHi), lo, hi);
        f := Swap(f, unHi, gtHi);
        ptr[unHi], ptr[gtHi] := ptr[gtHi], ptr[unHi];
        unHi, gtHi := unHi - 1, gtHi - 1;
        continue;
      }
      if n < 0 {
        break;
      }
      unHi := unHi - 1;
    }
  }

  method MainPartition(ptr: array<nat>, block: array<byte>, lo: int, hi: int, d: nat, med: byte, ghost b: Block,
      ghost f0: seq<nat>)
    returns (ltLo: int, unLo: int, gtHi: int, ghost f: seq<nat>)
    requires ptr as object != block as object && Extends(block[..], b) && d <= MAX_DEPTH
    requires 0 <= lo <= hi < ptr.Length && ptr[..] == f0 && Named(f0, BytesAt(b, d), lo, hi)
    modifies ptr
    ensures ptr[..] == f && Permuted(f0, f, lo, hi)
    ensures Partitioning(f, BytesAt(b, d), med, lo, ltLo, unLo, unLo - 1, gtHi, hi)
  {
    hide Extends;
    f := f0;
    ghost var e := BytesAt(b, d);
    var unHi := hi;
    ltLo, unLo, gtHi := lo, lo, hi;
    PermutedSelf(f, lo, hi);
    while true
      invariant ptr[..] == f && Permuted(f0, f, lo, hi) && Extends(block[..], b)
      invariant Partitioning(f, e, med, lo, ltLo, unLo, unHi, gtHi, hi)
      decreases unHi - unLo
    {
      ltLo, unLo, f := MainScanLeft(ptr, block, lo, hi, d, med, ltLo, unLo, unHi, gtHi, b, f0, f);
      unHi, gtHi, f := MainScanRight(ptr, block, lo, hi, d, med, ltLo, unLo, unHi, gtHi, b, f0, f);
      if unLo > unHi {
        break;
      }
      PartitionCross(f, e, med, lo, ltLo, unLo, unHi, gtHi, hi);
      SwapPermutes(f, unLo, unHi, lo, hi);
      PermutedTrans(f0, f, Swap(f, unLo, unHi), lo, hi);
      f := Swap(f, unLo, unHi);
      ptr[unLo], ptr[unHi] := ptr[unHi], ptr[unLo];
      unLo, unHi := unLo + 1, unHi - 1;
    }
  }

  // ----- the stack

  /** A range to sort, its rotations agreeing in d bytes. */
  datatype Job = Job(r: Range, d: nat)

  function Ranges(jobs: seq<Job>): (rs: seq<Range>)
    ensures |rs| == |jobs| && forall k {:trigger rs[k]} :: 0 <= k < |jobs| ==> rs[k] == jobs[k].r
  {
    seq(|jobs|, k requires 0 <= k < |jobs| => jobs[k].r)
  }

  lemma {:induction false} RangesConcat(a: seq<Job>, c: seq<Job>)
    ensures Ranges(a + c) == Ranges(a) + Ranges(c)
  {
  }

  ghost predicate JobsOk(b: Block, f: seq<nat>, jobs: seq<Job>) {
    forall k {:trigger jobs[k]} :: 0 <= k < |jobs| ==>
      jobs[k].d <= MAX_DEPTH && Shares(b, f, jobs[k].r.lo, jobs[k].r.hi, jobs[k].d)
  }

  /** Total size of the ranges. */
  function Total(jobs: seq<Job>): int {
    if jobs == [] then 0 else Total(jobs[..|jobs| - 1]) + Size(jobs[|jobs| - 1].r)
  }

  /** What is left to do: each entry costs more the fewer bytes are settled. */
  function Labour(jobs: seq<Job>): int {
    if jobs == [] then 0 else Labour(jobs[..|jobs| - 1]) + LabourOf(jobs[|jobs| - 1])
  }

  function LabourOf(j: Job): (w: int)
    ensures Size(j.r) >= 0 && j.d <= MAX_DEPTH ==> w >= 1
  {
    (if j.d <= MAX_DEPTH then 3 * Size(j.r) * (17 - j.d) else 0) + 1
  }

  lemma {:induction false} Pushed(jobs: seq<Job>, j: Job)
    ensures Total(jobs + [j]) == Total(jobs) + Size(j.r) && Labour(jobs + [j]) == Labour(jobs) + LabourOf(j)
  {
    assert (jobs + [j])[..|jobs|] == jobs;
  }

  lemma {:induction false} LabourPositive(b: Block, f: seq<nat>, jobs: seq<Job>)
    requires JobsOk(b, f, jobs) && forall k {:trigger jobs[k]} :: 0 <= k < |jobs| ==> Size(jobs[k].r) >= 0
    ensures Labour(jobs) >= 0
  {
    if jobs != [] {
      LabourPositive(b, f, jobs[..|jobs| - 1]);
    }
  }

  /** A bound that shrinks by a third. */
  function Bound(whole: nat, k: nat): nat {
    if k == 0 then whole else 2 * Bound(whole, k - 1) / 3
  }

  lemma {:induction false} BoundShrinks(whole: nat, k: nat, m: nat)
    requires k <= m
    ensures Bound(whole, m) <= Bound(whole, k)
  {
    if k < m {
      BoundShrinks(whole, k, m - 1);
    }
  }

  lemma {:induction false} BoundGrows(w: nat, whole: nat, k: nat)
    requires w <= whole
    ensures Bound(w, k) <= Bound(whole, k)
  {
    if k > 0 {
      BoundGrows(w, whole, k - 1);
    }
  }

  lemma {:induction false} BoundDeep()
    ensures Bound(900_000, 27) <= MAIN_SMALL_THRESH
  {
    assert Bound(900_000, 0) == 900_000;
    assert Bound(900_000, 3) == 266_666;
    assert Bound(900_000, 6) == 79_012;
    assert Bound(900_000, 9) == 23_410;
    assert Bound(900_000, 12) == 6_936;
    assert Bound(900_000, 15) == 2_054;
    assert Bound(900_000, 18) == 608;
    assert Bound(900_000, 21) == 180;
    assert Bound(900_000, 24) == 53;
    assert Bound(900_000, 27) == 15;
  }

  /** All that lies on the stack from the k-th range up is within the k-th bound. */
  predicate ThinFrom(stack: seq<Job>, whole: nat, k: nat)
    requires k <= |stack|
  {
    Total(stack) - Total(stack[..k]) <= Bound(whole, k)
  }

  ghost predicate Thin(stack: seq<Job>, whole: nat) {
    forall k: nat {:trigger ThinFrom(stack, whole, k)} :: k < |stack| ==> ThinFrom(stack, whole, k)
  }

  lemma {:induction false} Shallow(rest: seq<Job>, j: Job, whole: nat)
    requires Thin(rest + [j], whole) && whole <= 900_000 && Size(j.r) > MAIN_SMALL_THRESH
    ensures |rest| < 27
  {
    var all := rest + [j];
    assert all[|rest|] == j && all[..|rest|] == rest;
    assert ThinFrom(all, whole, |rest|);
    Pushed(rest, j);
    if |rest| >= 27 {
      BoundShrinks(whole, 27, |rest|);
      BoundGrows(whole, 900_000, 27);
      BoundDeep();
    }
  }

  /** What replaces a range: nothing, itself at the next depth, or three parts of it, the largest first. */
  ghost predicate Parts(news: seq<Job>, j: Job) {
    || news == []
    || (news == [Job(j.r, j.d + 1)] && j.d < MAX_DEPTH)
    || (|news| == 3 && Size(news[0].r) >= Size(news[1].r) >= Size(news[2].r) >= 0
        && Size(news[0].r) + Size(news[1].r) + Size(news[2].r) == Size(j.r))
  }

  lemma {:induction false} StaysThin(rest: seq<Job>, j: Job, news: seq<Job>, whole: nat)
    requires Thin(rest + [j], whole) && Parts(news, j) && Size(j.r) >= 0
    ensures Thin(rest + news, whole)
  {
    hide Total, Bound;
    var all, all', d := rest + [j], rest + news, |rest|;
    assert all[d] == j && all[..d] == rest;
    Pushed(rest, j);
    NewsTotal(rest, j, news);
    assert ThinFrom(all, whole, d);
    forall k: nat {:trigger ThinFrom(all', whole, k)} | k < |all'|
      ensures ThinFrom(all', whole, k)
    {
      if k < d {
        assert all[..k] == all'[..k] && ThinFrom(all, whole, k);
      } else if |news| == 3 {
        ThreeThin(rest, news, whole, k - d);
      } else {
        assert all'[..k] == rest;
      }
    }
  }

  lemma {:induction false} NewsTotal(rest: seq<Job>, j: Job, news: seq<Job>)
    requires Parts(news, j) && Size(j.r) >= 0
    ensures Total(rest) <= Total(rest + news) <= Total(rest) + Size(j.r)
    ensures |news| == 3 ==> Total(rest + news) == Total(rest) + Size(j.r)
  {
    if |news| == 3 {
      Pushed(rest, news[0]);
      Pushed(rest + [news[0]], news[1]);
      Pushed(rest + [news[0]] + [news[1]], news[2]);
      assert rest + news == rest + [news[0]] + [news[1]] + [news[2]];
    } else if news == [] {
      assert rest + news == rest;
    } else {
      Pushed(rest, news[0]);
    }
  }

  lemma {:induction false} ThreeThin(rest: seq<Job>, news: seq<Job>, whole: nat, m: nat)
    requires |news| == 3 && m < 3 && Size(news[0].r) >= Size(news[1].r) >= Size(news[2].r) >= 0
    requires Size(news[0].r) + Size(news[1].r) + Size(news[2].r) <= Bound(whole, |rest|)
    ensures var all := rest + news; Total(all) - Total(all[..|rest| + m]) <= Bound(whole, |rest| + m)
  {
    var all, d := rest + news, |rest|;
    Pushed(rest, news[0]);
    Pushed(rest + [news[0]], news[1]);
    Pushed(rest + [news[0]] + [news[1]], news[2]);
    assert all == rest + [news[0]] + [news[1]] + [news[2]];
    assert all[..d] == rest && all[..d + 1] == rest + [news[0]] && all[..d + 2] == rest + [news[0]] + [news[1]];
    assert Bound(whole, d + 1) == 2 * Bound(whole, d) / 3 && Bound(whole, d + 2) == 2 * Bound(whole, d + 1) / 3;
  }

  // ----- one round

  /** The top range was sorted, or rearranged and replaced by what is left to sort of it. */
  ghost predicate MainDone(b: Block, f: seq<nat>, g: seq<nat>, j: Job, news: seq<Job>) {
    && Permuted(f, g, j.r.lo, j.r.hi) && JobsOk(b, g, news) && Tiled(Ranges(news), j.r.lo, j.r.hi) && Parts(news, j)
    && Labour(news) < LabourOf(j)
    && forall i, k {:trigger Le(g, Keys(b), i, k)} :: j.r.lo <= i < k <= j.r.hi && !Together(Ranges(news), i, k) ==>
      Le(g, Keys(b), i, k)
  }

  lemma {:induction false} SmallDone(b: Block, f: seq<nat>, g: seq<nat>, j: Job)
    requires Permuted(f, g, j.r.lo, j.r.hi) && Sorted(g, Keys(b), j.r.lo, j.r.hi) && Size(j.r) >= 0 && j.d <= MAX_DEPTH
    ensures MainDone(b, f, g, j, [])
  {
  }

  lemma {:induction false} SharesPart(b: Block, f: seq<nat>, lo: int, hi: int, lo': int, hi': int, d: nat)
    requires Shares(b, f, lo, hi, d) && lo <= lo' && hi' <= hi
    ensures Shares(b, f, lo', hi', d)
  {
    if lo' <= hi' {
      assert f[lo'] < |b|;
    }
  }

  /** Equal at depth d as well: one more byte in common. */
  lemma {:induction false} SharesDeeper(b: Block, f: seq<nat>, lo: int, hi: int, d: nat, med: nat)
    requires Shares(b, f, lo, hi, d) && forall k {:trigger f[k]} :: lo <= k <= hi ==>
      f[k] < |b| && BytesAt(b, d)[f[k]] == med
    ensures Shares(b, f, lo, hi, d + 1)
  {
    forall i {:trigger f[i]} | lo <= i <= hi
      ensures f[lo] < |b| && f[i] < |b| && Key(b, f[i], d + 1) == Key(b, f[lo], d + 1)
    {
      assert BytesAt(b, d)[f[i]] == med && BytesAt(b, d)[f[lo]] == med;
    }
  }

  lemma {:induction false} WholeDeeper(b: Block, f: seq<nat>, g: seq<nat>, j: Job, med: byte, ltLo: int, unLo: int,
      gtHi: int)
    requires Permuted(f, g, j.r.lo, j.r.hi) && Shares(b, g, j.r.lo, j.r.hi, j.d) && Size(j.r) > 0 && j.d < MAX_DEPTH
    requires Partitioning(g, BytesAt(b, j.d), med, j.r.lo, ltLo, unLo, unLo - 1, gtHi, j.r.hi) && gtHi < ltLo
    ensures MainDone(b, f, g, j, [Job(j.r, j.d + 1)])
  {
    hide Adv, SameBag, Shares, Size;
    var news := [Job(j.r, j.d + 1)];
    SharesDeeper(b, g, j.r.lo, j.r.hi, j.d, med);
    assert news == [] + [news[0]];
    Pushed([], news[0]);
    forall i, k {:trigger Le(g, Keys(b), i, k)} | j.r.lo <= i < k <= j.r.hi
      ensures Together(Ranges(news), i, k)
    {
      assert Inside(Ranges(news)[0], i) && Inside(Ranges(news)[0], k);
    }
  }

  /** Entries of different parts are in order. */
  lemma {:induction false} PartsOrdered(b: Block, g: seq<nat>, j: Job, med: nat, n: int, m: int, i: int, k: int)
    requires Shares(b, g, j.r.lo, j.r.hi, j.d) && Parted(g, BytesAt(b, j.d), med, j.r.lo, n, m, j.r.hi) && j.d < |b|
    requires j.r.lo <= i < k <= j.r.hi && !(k <= n) && !(n < i && k < m) && !(m <= i)
    ensures Le(g, Keys(b), i, k)
  {
    assert g[i] < |b| && g[k] < |b|;
    ByteDecides(b, g[k], g[i], j.d);
  }

  lemma {:induction false} ThreeTogether(news: seq<Job>, x: Job, i: int, k: int)
    requires x in news && Inside(x.r, i) && Inside(x.r, k)
    ensures Together(Ranges(news), i, k)
  {
    var t :| 0 <= t < |news| && news[t] == x;
    assert Ranges(news)[t] == x.r;
  }

  /** The three, in some order. */
  predicate Arranged(news: seq<Job>, x: Job, y: Job, z: Job) {
    news == [x, y, z] || news == [x, z, y] || news == [y, x, z] || news == [y, z, x] || news == [z, x, y]
      || news == [z, y, x]
  }

  lemma {:induction false} LabourNone()
    ensures Labour([]) == 0
  {
  }

  lemma {:induction false} LabourThree(news: seq<Job>, x: Job, y: Job, z: Job)
    requires Arranged(news, x, y, z)
    ensures Labour(news) == LabourOf(x) + LabourOf(y) + LabourOf(z)
  {
    hide Labour, LabourOf;
    LabourNone();
    var a := [news[0]];
    Pushed([], news[0]);
    Pushed(a, news[1]);
    Pushed(a + [news[1]], news[2]);
    assert [] + [news[0]] == a && news == a + [news[1]] + [news[2]];
  }

  lemma {:induction false} LabourSplit(s0: int, s1: int, s2: int, w: int)
    requires s2 >= 1
    ensures (3 * s0 * w + 1) + (3 * s1 * w + 1) + (3 * s2 * (w - 1) + 1) < 3 * (s0 + s1 + s2) * w + 1
  {
    assert 3 * s2 * (w - 1) == 3 * s2 * w - 3 * s2;
    assert 3 * (s0 + s1 + s2) * w == 3 * s0 * w + 3 * s1 * w + 3 * s2 * w;
  }

  lemma {:induction false} ThreeTiled(news: seq<Job>, j: Job, n: int, m: int)
    requires j.r.lo <= n + 1 < m <= j.r.hi + 1
    requires Arranged(news, Job(Range(j.r.lo, n), j.d), Job(Range(m, j.r.hi), j.d), Job(Range(n + 1, m - 1), j.d + 1))
    ensures Tiled(Ranges(news), j.r.lo, j.r.hi)
  {
  }

  lemma {:induction false} ThreeJobs(b: Block, g: seq<nat>, news: seq<Job>, j: Job, med: byte, n: int, m: int)
    requires j.r.lo <= n + 1 < m <= j.r.hi + 1 && j.d < MAX_DEPTH && Shares(b, g, j.r.lo, j.r.hi, j.d)
    requires Parted(g, BytesAt(b, j.d), med, j.r.lo, n, m, j.r.hi)
    requires Arranged(news, Job(Range(j.r.lo, n), j.d), Job(Range(m, j.r.hi), j.d), Job(Range(n + 1, m - 1), j.d + 1))
    ensures JobsOk(b, g, news)
  {
    SharesPart(b, g, j.r.lo, j.r.hi, j.r.lo, n, j.d);
    SharesPart(b, g, j.r.lo, j.r.hi, m, j.r.hi, j.d);
    SharesPart(b, g, j.r.lo, j.r.hi, n + 1, m - 1, j.d);
    SharesDeeper(b, g, n + 1, m - 1, j.d, med);
  }

  lemma {:induction false} ThreeDone(b: Block, f: seq<nat>, g: seq<nat>, news: seq<Job>, j: Job, med: byte, n: int,
      m: int)
    requires OVERSHOOT < |b| && j.r.lo <= n + 1 < m <= j.r.hi + 1 && j.d < MAX_DEPTH
      && Shares(b, g, j.r.lo, j.r.hi, j.d)
    requires Permuted(f, g, j.r.lo, j.r.hi) && Parted(g, BytesAt(b, j.d), med, j.r.lo, n, m, j.r.hi)
    requires Arranged(news, Job(Range(j.r.lo, n), j.d), Job(Range(m, j.r.hi), j.d), Job(Range(n + 1, m - 1), j.d + 1))
    requires Size(news[0].r) >= Size(news[1].r) >= Size(news[2].r)
    ensures MainDone(b, f, g, j, news)
  {
    hide Permuted, Shares, Parted, JobsOk, Tiled, Together, Le, Labour;
    var x, y, z := Job(Range(j.r.lo, n), j.d), Job(Range(m, j.r.hi), j.d), Job(Range(n + 1, m - 1), j.d + 1);
    ThreeTiled(news, j, n, m);
    ThreeJobs(b, g, news, j, med, n, m);
    LabourThree(news, x, y, z);
    LabourSplit(Size(x.r), Size(y.r), Size(z.r), 17 - j.d);
    forall i, k {:trigger Le(g, Keys(b), i, k)} | j.r.lo <= i < k <= j.r.hi && !Together(Ranges(news), i, k)
      ensures Le(g, Keys(b), i, k)
    {
      if k <= n {
        ThreeTogether(news, x, i, k);
      } else if m <= i {
        ThreeTogether(news, y, i, k);
      } else if n < i && k < m {
        ThreeTogether(news, z, i, k);
      } else {
        PartsOrdered(b, g, j, med, n, m, i, k);
      }
    }
  }

  function NextSize(j: Job): int { j.r.hi - j.r.lo }

  /** The three parts with the larger ones first. */
  method LargestFirst(x: Job, y: Job, z: Job) returns (news: seq<Job>)
    ensures Arranged(news, x, y, z) && Size(news[0].r) >= Size(news[1].r) >= Size(news[2].r)
  {
    var n0, n1, n2 := x, y, z;
    if NextSize(n0) < NextSize(n1) {
      n0, n1 := n1, n0;
    }
    if NextSize(n1) < NextSize(n2) {
      n1, n2 := n2, n1;
    }
    if NextSize(n0) < NextSize(n1) {
      n0, n1 := n1, n0;
    }
    news := [n0, n1, n2];
  }

  /** Partition a large range around the median of three bytes. */
  method MainSplit(ptr: array<nat>, block: array<byte>, j: Job, ghost b: Block, ghost f0: seq<nat>)
    returns (news: seq<Job>, ghost f: seq<nat>)
    requires ptr as object != block as object && Extends(block[..], b) && ptr[..] == f0
    requires OVERSHOOT < |b| && Size(j.r) > MAIN_SMALL_THRESH && j.d < MAX_DEPTH && Shares(b, f0, j.r.lo, j.r.hi, j.d)
    modifies ptr
    ensures ptr[..] == f && MainDone(b, f0, f, j, news)
  {
    hide MainDone, Partitioning, Permuted, Parted, Extends;
    var lo, hi, d := j.r.lo, j.r.hi, j.d;
    ghost var e := BytesAt(b, d);
    var mid := (lo + hi) / 2;
    assert f0[lo] < |b| && f0[hi] < |b| && f0[mid] < |b|;
    var c0 := ByteOf(block, ptr[lo], d, b);
    var c1 := ByteOf(block, ptr[hi], d, b);
    var c2 := ByteOf(block, ptr[mid], d, b);
    var med := Median(c0, c1, c2);
    ghost var x := if med == c0 then lo else if med == c1 then hi else mid;
    var ltLo, unLo, gtHi, n, m;
    ghost var g;
    ltLo, unLo, gtHi, g := MainPartition(ptr, block, lo, hi, d, med, b, f0);
    PivotSurvives(f0, g, e, med, lo, hi, x, ltLo, unLo, gtHi);
    SharesPermuted(b, f0, g, lo, hi, d);
    if gtHi < ltLo {
      WholeDeeper(b, f0, g, j, med, ltLo, unLo, gtHi);
      news, f := [Job(j.r, d + 1)], g;
      return;
    }
    PartitioningSizes(g, e, med, lo, ltLo, unLo, unLo - 1, gtHi, hi);
    n, m, f := Regroup(ptr, j.r, med, ltLo, unLo, gtHi, f0, g, e);
    SharesPermuted(b, f0, f, lo, hi, d);
    news := LargestFirst(Job(Range(lo, n), d), Job(Range(m, hi), d), Job(Range(n + 1, m - 1), d + 1));
    ThreeDone(b, f0, f, news, j, med, n, m);
  }

  lemma {:induction false} PartitioningSizes(f: seq<nat>, e: seq<nat>, med: nat, lo: int, ltLo: int, unLo: int,
      unHi: int, gtHi: int, hi: int)
    requires Partitioning(f, e, med, lo, ltLo, unLo, unHi, gtHi, hi)
    ensures 0 <= lo <= ltLo <= unLo <= unHi + 1 <= gtHi + 1 <= hi + 1 <= |f|
  {
  }

  /** One turn of the loop: a small or deep range is sorted outright, another is split. */
  method MainRound(ptr: array<nat>, block: array<byte>, quadrant: array<nat>, nblock: nat, j: Job, budget0: int,
                   ghost b: Block, ghost q: seq<nat>, ghost f0: seq<nat>)
    returns (news: seq<Job>, abandoned: bool, budget: int, ghost f: seq<nat>)
    requires Separate(ptr, block, quadrant) && Setting(block, quadrant, nblock, b, q) && ptr[..] == f0
    requires 0 <= Size(j.r) <= 900_000 && j.d <= MAX_DEPTH && Shares(b, f0, j.r.lo, j.r.hi, j.d)
    modifies ptr
    ensures ptr[..] == f && Permuted(f0, f, j.r.lo, j.r.hi) && budget <= budget0 && (abandoned ==> budget < 0)
    ensures budget < budget0 ==> Excused(b, f0)
    ensures !abandoned ==> MainDone(b, f0, f, j, news) && (news == [] || Size(j.r) > MAIN_SMALL_THRESH)
  {
    hide Shares, Quadrants, Sorted, Excused;
    news, abandoned, budget := [], false, budget0;
    PermutedSelf(f0, j.r.lo, j.r.hi);
    if j.r.hi - j.r.lo < MAIN_SMALL_THRESH || j.d > DEPTH_THRESH {
      SharesRange(b, f0, j.r.lo, j.r.hi, j.d);
      budget, f := MainSimpleSort(ptr, block, quadrant, nblock, j.r.lo, j.r.hi, j.d, budget, b, q, f0);
      if budget < 0 {
        abandoned := true;
      } else {
        SmallDone(b, f0, f, j);
      }
    } else {
      news, f := MainSplit(ptr, block, j, b, f0);
    }
  }

  lemma {:induction false} SharesRange(b: Block, f: seq<nat>, lo: int, hi: int, d: nat)
    requires Shares(b, f, lo, hi, d)
    ensures 0 <= lo && hi < |f|
  {
  }

  // ----- mainQSort3

  /** Everything the stack loop keeps. */
  ghost predicate MainOk(b: Block, f0: seq<nat>, f: seq<nat>, stack: seq<Job>, lo: int, hi: int) {
    && 0 <= lo <= hi < |f| && Permuted(f0, f, lo, hi) && Named(f, Keys(b), lo, hi)
    && Tiled(Ranges(stack), lo, hi) && SortedUpTo(f, Keys(b), Ranges(stack), lo, hi)
    && JobsOk(b, f, stack) && Thin(stack, hi - lo + 1)
  }

  /** A range apart from the one rearranged keeps its rotations. */
  lemma {:induction false} OtherJobs(b: Block, f: seq<nat>, g: seq<nat>, rest: seq<Job>, j: Job, lo: int, hi: int)
    requires JobsOk(b, f, rest + [j]) && Tiled(Ranges(rest + [j]), lo, hi) && Permuted(f, g, j.r.lo, j.r.hi)
    ensures JobsOk(b, g, rest)
  {
    var all := rest + [j];
    assert all[|rest|] == j && Ranges(all)[|rest|] == j.r;
    forall k {:trigger rest[k]} | 0 <= k < |rest|
      ensures rest[k].d <= MAX_DEPTH && Shares(b, g, rest[k].r.lo, rest[k].r.hi, rest[k].d)
    {
      assert all[k] == rest[k] && Ranges(all)[k] == rest[k].r;
      var r := rest[k].r;
      forall i {:trigger g[i]} | r.lo <= i <= r.hi
        ensures g[i] == f[i]
      {
        assert Size(r) > 0;
        if Inside(j.r, i) {
          assert false;
        }
      }
      SharesSame(b, f, g, r.lo, r.hi, rest[k].d);
    }
  }

  lemma {:induction false} SharesSame(b: Block, f: seq<nat>, g: seq<nat>, lo: int, hi: int, d: nat)
    requires Shares(b, f, lo, hi, d) && |f| == |g| && forall i {:trigger g[i]} :: lo <= i <= hi ==> g[i] == f[i]
    ensures Shares(b, g, lo, hi, d)
  {
  }

  lemma {:induction false} JobsConcat(b: Block, f: seq<nat>, rest: seq<Job>, news: seq<Job>)
    requires JobsOk(b, f, rest) && JobsOk(b, f, news)
    ensures JobsOk(b, f, rest + news)
  {
  }

  lemma {:induction false} MainRoundKeeps(b: Block, f0: seq<nat>, f: seq<nat>, g: seq<nat>, rest: seq<Job>, j: Job,
      news: seq<Job>, lo: int, hi: int)
    requires MainOk(b, f0, f, rest + [j], lo, hi) && MainDone(b, f, g, j, news)
    ensures MainOk(b, f0, g, rest + news, lo, hi)
  {
    hide Permuted, Named, Tiled, SortedUpTo, JobsOk, Thin, Le, Together, Sorted;
    RangesConcat(rest, [j]);
    RangesConcat(rest, news);
    assert Ranges([j]) == [j.r];
    var r := j.r;
    TopInside(Ranges(rest), r, lo, hi);
    ReplaceTop(f, g, Keys(b), Ranges(rest), r, Ranges(news), lo, hi);
    PermutedWider(f, g, r.lo, r.hi, lo, hi);
    PermutedTrans(f0, f, g, lo, hi);
    PermutedNamed(f, g, Keys(b), lo, hi);
    PermutedSize(f, g, lo, hi);
    NewTiles(Ranges(rest), r, Ranges(news), lo, hi);
    OtherJobs(b, f, g, rest, j, lo, hi);
    JobsConcat(b, g, rest, news);
    StaysThin(rest, j, news, hi - lo + 1);
  }

  lemma {:induction false} PermutedSize(f: seq<nat>, g: seq<nat>, lo: int, hi: int)
    requires Permuted(f, g, lo, hi)
    ensures |f| == |g|
  {
  }

  lemma {:induction false} TopInside(rest: seq<Range>, r: Range, lo: int, hi: int)
    requires Tiled(rest + [r], lo, hi)
    ensures lo <= r.lo && r.hi <= hi && Size(r) >= 0
  {
    assert (rest + [r])[|rest|] == r;
  }

  lemma {:induction false} TopJob(b: Block, f0: seq<nat>, f: seq<nat>, rest: seq<Job>, j: Job, lo: int, hi: int)
    requires MainOk(b, f0, f, rest + [j], lo, hi)
    ensures lo <= j.r.lo && j.r.hi <= hi && Size(j.r) >= 0 && j.d <= MAX_DEPTH && Shares(b, f, j.r.lo, j.r.hi, j.d)
    ensures Thin(rest + [j], hi - lo + 1)
  {
    RangesConcat(rest, [j]);
    assert Ranges([j]) == [j.r];
    TopInside(Ranges(rest), j.r, lo, hi);
    assert (rest + [j])[|rest|] == j;
  }

  lemma {:induction false} LabourLess(b: Block, g: seq<nat>, rest: seq<Job>, j: Job, news: seq<Job>)
    requires Labour(news) < LabourOf(j)
    ensures Labour(rest + news) < Labour(rest + [j])
    decreases |news|
  {
    Pushed(rest, j);
    LabourConcat(rest, news);
  }

  lemma {:induction false} LabourConcat(a: seq<Job>, c: seq<Job>)
    ensures Labour(a + c) == Labour(a) + Labour(c)
    decreases |c|
  {
    if c == [] {
      assert a + c == a;
    } else {
      var m := |c| - 1;
      LabourConcat(a, c[..m]);
      Pushed(a + c[..m], c[m]);
      assert a + c == a + c[..m] + [c[m]];
    }
  }

  lemma {:induction false} MainStart(b: Block, f: seq<nat>, lo: int, hi: int, d: nat)
    requires lo <= hi && Shares(b, f, lo, hi, d) && d <= MAX_DEPTH
    ensures MainOk(b, f, f, [Job(Range(lo, hi), d)], lo, hi)
  {
    var stack := [Job(Range(lo, hi), d)];
    PermutedSelf(f, lo, hi);
    SharesNamed(b, f, lo, hi, d);
    assert stack == [] + [stack[0]];
    Pushed([], stack[0]);
    forall k: nat {:trigger ThinFrom(stack, hi - lo + 1, k)} | k < |stack|
      ensures ThinFrom(stack, hi - lo + 1, k)
    {
      assert stack[..0] == [];
    }
    forall i, j {:trigger Le(f, Keys(b), i, j)} | lo <= i < j <= hi
      ensures Together(Ranges(stack), i, j)
    {
      assert Inside(Ranges(stack)[0], i) && Inside(Ranges(stack)[0], j);
    }
  }

  lemma {:induction false} MainEnd(b: Block, f0: seq<nat>, f: seq<nat>, lo: int, hi: int)
    requires MainOk(b, f0, f, [], lo, hi)
    ensures Sorted(f, Keys(b), lo, hi)
  {
    forall i, j {:trigger Le(f, Keys(b), i, j)} | lo <= i < j <= hi
      ensures Le(f, Keys(b), i, j)
    {
      assert !Together(Ranges([]), i, j);
    }
  }

  lemma {:induction false} MainPermuted(b: Block, f0: seq<nat>, f: seq<nat>, stack: seq<Job>, lo: int, hi: int)
    requires MainOk(b, f0, f, stack, lo, hi)
    ensures Permuted(f0, f, lo, hi)
  {
  }

  /**
   * mainQSort3: the rotations in the range, which agree in d bytes, sorted, or given up with the
   * budget spent. The 100-entry stack never overflows: two of three parts hold at most two thirds.
   */
  method MainQSort3(ptr: array<nat>, block: array<byte>, quadrant: array<nat>, nblock: nat, loSt: int, hiSt: int,
                    dSt: nat, budget0: int, ghost b: Block, ghost q: seq<nat>, ghost f0: seq<nat>)
    returns (budget: int, ghost f: seq<nat>)
    requires Separate(ptr, block, quadrant) && Setting(block, quadrant, nblock, b, q) && ptr[..] == f0
    requires loSt <= hiSt && hiSt - loSt + 1 <= 900_000 && dSt <= MAX_DEPTH && Shares(b, f0, loSt, hiSt, dSt)
    modifies ptr
    ensures ptr[..] == f && Permuted(f0, f, loSt, hiSt) && budget <= budget0 && (budget < budget0 ==> Excused(b, f0))
    ensures budget >= 0 ==> Sorted(f, Keys(b), loSt, hiSt)
  {
    hide Setting, Permuted, Shares, Sorted, MainOk, MainDone, Thin, Excused, BwtInverse.Distinct, Extends, JobsOk, Key,
      Keys, Labour, LabourOf, Le, Named, Parts;
    budget, f := budget0, f0;
    var stack := [Job(Range(loSt, hiSt), dSt)];
    MainStart(b, f, loSt, hiSt, dSt);
    while |stack| > 0
      invariant ptr[..] == f && Setting(block, quadrant, nblock, b, q) && |stack| <= 29 && budget <= budget0
      invariant budget < budget0 ==> Excused(b, f0)
      invariant MainOk(b, f0, f, stack, loSt, hiSt)
      decreases if |stack| > 0 && Labour(stack) >= 0 then Labour(stack) else 0, |stack|
    {
      assert |stack| < STACK_SIZE - 2;
      var sp := |stack| - 1;
      var j := stack[sp];
      ghost var rest := stack[..sp];
      assert stack == rest + [j];
      TopJob(b, f0, f, rest, j, loSt, hiSt);
      var news, abandoned;
      ghost var g := f;
      MainPermuted(b, f0, g, stack, loSt, hiSt);
      ExcusedBack(b, f0, g, loSt, hiSt);
      news, abandoned, budget, f := MainRound(ptr, block, quadrant, nblock, j, budget, b, q, g);
      if abandoned {
        PermutedWider(g, f, j.r.lo, j.r.hi, loSt, hiSt);
        PermutedTrans(f0, g, f, loSt, hiSt);
        return;
      }
      if news != [] {
        Shallow(rest, j, hiSt - loSt + 1);
      }
      MainRoundKeeps(b, f0, g, f, rest, j, news, loSt, hiSt);
      RoundFacts(b, g, f, j, news);
      LabourLess(b, f, rest, j, news);
      StackLabour(b, f0, f, rest + news, loSt, hiSt);
      stack := stack[..sp] + news;
    }
    MainEnd(b, f0, f, loSt, hiSt);
    MainPermuted(b, f0, f, stack, loSt, hiSt);
  }

  lemma {:induction false} RoundFacts(b: Block, f: seq<nat>, g: seq<nat>, j: Job, news: seq<Job>)
    requires MainDone(b, f, g, j, news)
    ensures |news| <= 3 && Labour(news) < LabourOf(j)
  {
  }

  lemma {:induction false} StackLabour(b: Block, f0: seq<nat>, f: seq<nat>, stack: seq<Job>, lo: int, hi: int)
    requires MainOk(b, f0, f, stack, lo, hi)
    ensures Labour(stack) >= 0
  {
    forall k {:trigger stack[k]} | 0 <= k < |stack|
      ensures Size(stack[k].r) >= 0
    {
      assert Ranges(stack)[k] == stack[k].r;
    }
    LabourPositive(b, f, stack);
  }
}
