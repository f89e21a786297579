/**
 * The first half of mainSort: pairs of bytes counted, the overshoot filled, the pointers
 * distributed to the small buckets, and the order in which the big ones will be sorted.
 */
module MainRadix {
  import opened Prelude
  import opened Buckets
  import opened Rotations
  import opened BwtInverse
  import opened FallbackQuickSort
  import opened MainCompare
  import opened MainQuickSort
  import opened BigBuckets
  import opened PointerScan

  const SMALLS := 65536

  lemma {:induction false} CountStep(p: seq<nat>, v: nat, i: nat)
    requires i < |p|
    ensures Count(p, v, i + 1) == Count(p, v, i) + if p[i] == v then 1 else 0
  {
  }

  /** Count all pairs from the back, clearing the quadrants on the way. */
  method TallyPairs(block: array<byte>, quadrant: array<nat>, ftab: array<nat>, nblock: nat, ghost b: Block)
    requires quadrant != ftab && quadrant as object != block as object && ftab as object != block as object
      && ftab.Length == SMALLS + 1
    requires nblock == |b| > OVERSHOOT && nblock + OVERSHOOT <= block.Length && nblock + OVERSHOOT <= quadrant.Length
      && block[..nblock] == b
    modifies ftab, quadrant
    ensures ftab[SMALLS] == 0 && forall v: nat {:trigger ftab[v]} :: v < SMALLS ==>
      ftab[v] == Count(Pairs(b), v, nblock)
    ensures forall i {:trigger quadrant[i]} :: 0 <= i < nblock ==> quadrant[i] == 0
  {
    hide Count;
    ghost var p := Pairs(b);
    for i := 0 to SMALLS + 1
      invariant forall v {:trigger ftab[v]} :: 0 <= v < i ==> ftab[v] == 0
      modifies ftab
    {
      ftab[i] := 0;
    }
    assert block[0] == b[0];
    var c: nat := block[0];
    var j := 256 * c;
    var i: int := nblock - 1;
    while i >= 0
      invariant -1 <= i < nblock && j < SMALLS && (i >= 0 ==> j / 256 == b[Next(nblock, i)]) && block[..nblock] == b
      invariant ftab[SMALLS] == 0 && forall v: nat {:trigger ftab[v]} :: v < SMALLS ==>
        ftab[v] == Count(p, v, nblock) - Count(p, v, i + 1)
      invariant forall k {:trigger quadrant[k]} :: i < k < nblock ==> quadrant[k] == 0
    {
      quadrant[i] := 0;
      assert block[i] == b[i];
      c := block[i];
      j := j / 256 + 256 * c;
      assert j == PairOf(b[i], b[Next(nblock, i)]) == p[i];
      forall v: nat {:trigger ftab[v]} | v < SMALLS
        ensures Count(p, v, i + 1) == Count(p, v, i) + if j == v then 1 else 0
      {
        CountStep(p, v, i);
      }
      ftab[j] := ftab[j] + 1;
      i := i - 1;
    }
    forall v: nat {:trigger ftab[v]} | v < SMALLS
      ensures Count(p, v, 0) == 0
    {
      CountNone(p, v, 0);
    }
  }

  function Zeros(n: nat): (z: seq<nat>)
    ensures |z| == n && forall i {:trigger z[i]} :: 0 <= i < n ==> z[i] == 0
  {
    seq(n, _ => 0)
  }

  method FillOvershoot(block: array<byte>, quadrant: array<nat>, nblock: nat, ghost b: Block)
    requires quadrant as object != block as object && nblock == |b| > OVERSHOOT
    requires nblock + OVERSHOOT <= block.Length && nblock + OVERSHOOT <= quadrant.Length && block[..nblock] == b
    requires forall i {:trigger quadrant[i]} :: 0 <= i < nblock ==> quadrant[i] == 0
    modifies block, quadrant
    ensures Extends(block[..], b) && Extends(quadrant[..], Zeros(nblock))
    ensures block[..nblock] == b
  {
    forall i {:trigger block[i]} | 0 <= i < nblock
      ensures block[i] == b[i]
    {
      assert block[..nblock][i] == b[i];
    }
    for i := 0 to OVERSHOOT
      invariant forall k {:trigger block[k]} :: 0 <= k < nblock ==> block[k] == b[k]
      invariant forall k {:trigger block[k]} :: nblock <= k < nblock + i ==> block[k] == b[k - nblock]
      invariant forall k {:trigger quadrant[k]} :: 0 <= k < nblock + i ==> quadrant[k] == 0
    {
      block[nblock + i] := block[i];
      quadrant[nblock + i] := 0;
    }
    var z := Zeros(nblock);
    forall i: nat {:trigger block[..][i]} | i < nblock + OVERSHOOT
      ensures block[..][i] == b[Place(nblock, i)]
    {
    }
  }

  /** Running sums: ftab[v] is the end of small bucket v. */
  method SumPairs(ftab: array<nat>, ghost b: Block)
    requires ftab.Length == SMALLS + 1 && ftab[SMALLS] == 0 && forall v: nat {:trigger ftab[v]} :: v < SMALLS ==>
      ftab[v] == Count(Pairs(b), v, |b|)
    modifies ftab
    ensures forall v: nat {:trigger ftab[v]} :: v < SMALLS ==> ftab[v] == From(b, v + 1)
    ensures ftab[SMALLS] == |b|
  {
    hide Count, From;
    FromZero(b);
    FromMonotone(b, 0, 0);
    for i := 1 to SMALLS + 1
      invariant forall v: nat {:trigger ftab[v]} :: v < i && v < SMALLS ==> ftab[v] == From(b, v + 1)
      invariant forall v: nat {:trigger ftab[v]} :: i <= v < SMALLS ==> ftab[v] == Count(Pairs(b), v, |b|)
      invariant ftab[SMALLS] == if i <= SMALLS then 0 else From(b, SMALLS)
    {
      FromMonotone(b, i, i);
      ftab[i] := ftab[i] + ftab[i - 1];
    }
    FromAll(b);
  }

  lemma {:induction false} FromZero(b: Block)
    ensures From(b, 0) == 0
  {
  }

  lemma {:induction false} FromAll(b: Block)
    ensures From(b, SMALLS) == |b|
  {
    FromBelow(b, SMALLS);
  }

  /** Position i goes to its slot of the stable order. */
  lemma {:induction false} SlotOf(b: Block, i: nat)
    requires i < |b|
    ensures var v := Pairs(b)[i]; v < SMALLS && Slot(Pairs(b), i) == From(b, v) + Count(Pairs(b), v, i) < From(b, v + 1)
  {
    var v := Pairs(b)[i];
    assert v == PairOf(b[i], b[Next(|b|, i)]);
    CountMonotone(Pairs(b), v, i, |b|);
    FromMonotone(b, v, v);
  }

  lemma {:induction false} SlotsApart(b: Block, i: nat, k: nat)
    requires i < |b| && k < |b| && i != k
    ensures Slot(Pairs(b), i) != Slot(Pairs(b), k)
  {
    var p := Pairs(b);
    if p[i] < p[k] || (p[i] == p[k] && i < k) {
      SlotOrder(p, i, k);
    } else {
      SlotOrder(p, k, i);
    }
  }

  /** All positions in their slots are a permutation, each in its small bucket. */
  lemma {:induction false} AllSlotted(b: Block, f: seq<nat>)
    requires |f| == |b| && forall i: nat {:trigger Slot(Pairs(b), i)} :: i < |b| ==>
      Slot(Pairs(b), i) < |f| && f[Slot(Pairs(b), i)] == i
    ensures Housed(b, f)
  {
    hide Slot, From;
    var p := Pairs(b);
    FromBelow(b, 0);
    assert Start(p, 65536) == |b|;
    forall k {:trigger f[k]} | 0 <= k < |f|
      ensures f[k] == At(p, 65536, k) && f[k] < |b| && From(b, p[f[k]]) <= k < From(b, p[f[k]] + 1)
    {
      var i := At(p, 65536, k);
      assert Slot(p, i) == k;
      SlotOf(b, i);
    }
    forall j, k {:trigger f[j], f[k]} | 0 <= j < k < |f|
      ensures f[j] != f[k]
    {
      assert Slot(p, At(p, 65536, j)) == j && Slot(p, At(p, 65536, k)) == k;
    }
  }

  /** Complete the radix sort, from the back. */
  method Distribute(ptr: array<nat>, block: array<byte>, ftab: array<nat>, nblock: nat, ghost b: Block)
    returns (ghost f: seq<nat>)
    requires ptr != ftab && ptr as object != block as object && ftab as object != block as object
    requires ftab.Length == SMALLS + 1 && nblock == |b| == ptr.Length > OVERSHOOT && Extends(block[..], b)
    requires ftab[SMALLS] == |b| && forall v: nat {:trigger ftab[v]} :: v < SMALLS ==> ftab[v] == From(b, v + 1)
    modifies ptr, ftab
    ensures ptr[..] == f && Housed(b, f)
    ensures ftab[SMALLS] == |b| && forall v: nat {:trigger ftab[v]} :: v < SMALLS ==> ftab[v] == From(b, v)
  {
    hide Count, From, Slot, Extends;
    ghost var p := Pairs(b);
    forall v: nat {:trigger ftab[v]} | v < SMALLS
      ensures ftab[v] == From(b, v) + Count(p, v, nblock)
    {
      FromMonotone(b, v, v);
    }
    BlockByte(block[..], b, 0);
    assert block[0] == block[..][0];
    var c: nat := block[0];
    var s := 256 * c;
    var i: int := nblock - 1;
    while i >= 0
      invariant -1 <= i < nblock && s < SMALLS && (i >= 0 ==> s / 256 == b[Next(nblock, i)])
      invariant Extends(block[..], b) && ftab[SMALLS] == |b|
      invariant forall v: nat {:trigger ftab[v]} :: v < SMALLS ==> ftab[v] == From(b, v) + Count(p, v, i + 1)
      invariant forall k: nat {:trigger Slot(p, k)} :: i < k < nblock ==> Slot(p, k) < nblock && ptr[Slot(p, k)] == k
    {
      BlockByte(block[..], b, i);
      assert block[i] == block[..][i];
      c := block[i];
      s := s / 256 + 256 * c;
      assert s == PairOf(b[i], b[Next(nblock, i)]) == p[i];
      SlotOf(b, i);
      forall v: nat {:trigger ftab[v]} | v < SMALLS
        ensures Count(p, v, i + 1) == Count(p, v, i) + if s == v then 1 else 0
      {
        CountStep(p, v, i);
      }
      var j := ftab[s] - 1;
      assert j == Slot(p, i);
      forall k: nat {:trigger Slot(p, k)} | i < k < nblock
        ensures Slot(p, k) != j
      {
        SlotsApart(b, i, k);
      }
      ftab[s] := j;
      ptr[j] := i;
      i := i - 1;
    }
    f := ptr[..];
    forall v: nat {:trigger ftab[v]} | v < SMALLS
      ensures Count(p, v, 0) == 0
    {
      CountNone(p, v, 0);
    }
    AllSlotted(b, f);
  }

  lemma {:induction false} BlockByte(a: seq<nat>, b: Block, i: nat)
    requires Extends(a, b) && i < |b|
    ensures i < |a| && a[i] == b[i]
  {
    assert a[i] == b[Place(|b|, i)];
  }

  // ----- the running order

  /** How many rotations begin with the byte c: BIGFREQ. */
  function BigSize(b: Block, c: nat): nat {
    FromMonotone(b, 256 * c, 256 * (c + 1));
    Big(b, c + 1) - Big(b, c)
  }

  function BigSizes(b: Block): (e: seq<nat>)
    ensures |e| == 256 && forall c: nat {:trigger e[c]} :: c < 256 ==> e[c] == BigSize(b, c)
  {
    seq(256, c requires 0 <= c < 256 => BigSize(b, c))
  }

  method BigFreq(ftab: array<nat>, c: nat, ghost b: Block) returns (n: nat)
    requires c < 256 && ftab.Length == SMALLS + 1 && ftab[SMALLS] == |b|
      && forall v: nat {:trigger ftab[v]} :: v < SMALLS ==> ftab[v] == From(b, v)
    ensures n == BigSizes(b)[c]
  {
    hide From;
    FromMonotone(b, 256 * c, 256 * (c + 1));
    FromAll(b);
    assert ftab[256 * (c + 1)] == From(b, 256 * (c + 1));
    n := ftab[256 * (c + 1)] - ftab[256 * c];
  }

  /** Bytes 0 to 255, each once. */
  ghost predicate AllBytesOnce(f: seq<nat>) {
    |f| == 256 && Distinct(f) && (forall i {:trigger f[i]} :: 0 <= i < 256 ==> f[i] < 256)
      && forall c: nat :: c < 256 ==> c in f
  }

  lemma {:induction false} PermutedOnce(f: seq<nat>, g: seq<nat>)
    requires AllBytesOnce(f) && Permuted(f, g, 0, 255)
    ensures AllBytesOnce(g)
  {
    forall i, k {:trigger g[i], g[k]} | 0 <= i < k < |g|
      ensures g[i] != g[k]
    {
      TwiceCounted(g, i, k);
      OnceCounted(f, g[i], |f|);
      assert Count(f, g[i], |f|) == Count(g, g[i], |g|);
    }
    forall i {:trigger g[i]} | 0 <= i < 256
      ensures g[i] < 256
    {
      var k := PermutedFrom(f, g, 0, 255, i);
    }
    forall c: nat | c < 256
      ensures c in g
    {
      OnceCounted(f, c, |f|);
      OnceCounted(g, c, |g|);
      assert f[..|f|] == f && g[..|g|] == g;
      assert Count(f, c, |f|) == Count(g, c, |g|);
    }
  }

  /** One insertion with step h. */
  method SinkBig(order: array<nat>, ftab: array<nat>, i: int, h: int, ghost b: Block, ghost f0: seq<nat>,
      ghost f1: seq<nat>)
    returns (ghost f: seq<nat>)
    requires order != ftab && order.Length == 256 && ftab.Length == SMALLS + 1 && 1 <= h <= i <= 255
    requires ftab[SMALLS] == |b| && forall v: nat {:trigger ftab[v]} :: v < SMALLS ==> ftab[v] == From(b, v)
    requires order[..] == f1 && Permuted(f0, f1, 0, 255) && Named(f1, BigSizes(b), 0, 255)
    requires h == 1 ==> Sorted(f1, BigSizes(b), 0, i - 1)
    modifies order
    ensures order[..] == f && Permuted(f0, f, 0, 255) && Named(f, BigSizes(b), 0, 255)
    ensures h == 1 ==> Sorted(f, BigSizes(b), 0, i)
  {
    hide From, Big, Permuted, Sorted, SortedExcept, BigSizes;
    f := f1;
    ghost var e := BigSizes(b);
    var vv, j := order[i], i;
    assert f[i] < |e|;
    var freq := BigFreq(ftab, vv, b);
    if h == 1 {
      SinkStart(f, e, 0, i);
    }
    var going := true;
    while going
      invariant 0 <= j <= i && (going ==> j >= h) && |f| == 256 && vv < 256 && freq == e[vv]
      invariant f == order[..][j := vv] && Permuted(f0, f, 0, 255) && Named(f, e, 0, 255)
      invariant ftab[SMALLS] == |b| && forall v: nat {:trigger ftab[v]} :: v < SMALLS ==> ftab[v] == From(b, v)
      invariant h == 1 ==> SortedExcept(f, e, 0, i, j)
      invariant h == 1 && !going ==> j == 0 || (f[j - 1] < |e| && f[j] < |e| && e[f[j - 1]] <= e[f[j]])
      decreases j, going
    {
      assert f[j] == vv && f[j - h] == order[j - h] && f[j - h] < |e|;
      var other := BigFreq(ftab, order[j - h], b);
      if other <= freq {
        going := false;
      } else {
        ghost var a := order[..];
        MoveHole(a, f, j, j - h, vv);
        SwapPermutes(f, j, j - h, 0, 255);
        PermutedTrans(f0, f, Swap(f, j, j - h), 0, 255);
        PermutedNamed(f, Swap(f, j, j - h), e, 0, 255);
        if h == 1 {
          SinkStep(f, e, 0, i, j);
          assert Swap(f, j - 1, j) == Swap(f, j, j - 1);
        }
        f := Swap(f, j, j - h);
        order[j] := order[j - h];
        assert order[..] == a[j := a[j - h]];
        j := j - h;
        if j <= h - 1 {
          going := false;
        }
      }
    }
    if h == 1 {
      SinkDone(f, e, 0, i, j);
    }
    order[j] := vv;
    assert order[..] == f;
  }

  /** Big buckets from smallest to largest. */
  method RunningOrder(ftab: array<nat>, ghost b: Block) returns (order: array<nat>)
    requires ftab.Length == SMALLS + 1 && ftab[SMALLS] == |b| && forall v: nat {:trigger ftab[v]} :: v < SMALLS ==>
      ftab[v] == From(b, v)
    ensures fresh(order) && order.Length == 256 && AllBytesOnce(order[..]) && Sorted(order[..], BigSizes(b), 0, 255)
  {
    hide From, Permuted, Sorted, BigSizes;
    order := new nat[256](i => i);
    ghost var f0 := order[..];
    ghost var f := f0;
    assert AllBytesOnce(f0) by { IdentityOnce(f0); }
    PermutedSelf(f, 0, 255);
    var h := 1;
    while h <= 256
      invariant h in {1, 4, 13, 40, 121, 364}
      decreases 364 - h
    {
      h := 3 * h + 1;
    }
    while h != 1
      invariant h in {364, 121, 40, 13, 4, 1} && order[..] == f && Permuted(f0, f, 0, 255)
        && Named(f, BigSizes(b), 0, 255)
      invariant h == 1 ==> Sorted(f, BigSizes(b), 0, 255)
      decreases h
    {
      h := h / 3;
      SortedOne(f, BigSizes(b), 0, h - 1);
      for i := h to 256
        invariant order[..] == f && Permuted(f0, f, 0, 255) && Named(f, BigSizes(b), 0, 255)
        invariant h == 1 ==> Sorted(f, BigSizes(b), 0, i - 1)
      {
        f := SinkBig(order, ftab, i, h, b, f0, f);
      }
    }
    PermutedOnce(f0, f);
  }

  lemma {:induction false} IdentityOnce(f: seq<nat>)
    requires |f| == 256 && forall i {:trigger f[i]} :: 0 <= i < 256 ==> f[i] == i
    ensures AllBytesOnce(f)
  {
    forall c: nat | c < 256
      ensures c in f
    {
      assert f[c] == c;
    }
  }
}
