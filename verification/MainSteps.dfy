/**
 * The three steps of a round of mainSort: the small buckets of a big one are sorted where no
 * earlier scan has, then a scan fills the small buckets that end in its byte, then its order
 * is remembered in the quadrants.
 */
module MainSteps {
  import opened Prelude
  import opened Buckets
  import opened Rotations
  import opened BwtInverse
  import opened FallbackQuickSort
  import opened MainCompare
  import opened MainQuickSort
  import opened BigBuckets
  import opened PointerScan
  import opened MainRadix
  import opened Bits

  const SETMASK := 0x20_0000
  const MAX_LENGTH := 900_000

  // ----- which small buckets are sorted

  /** Every flagged small bucket is in order. */
  ghost predicate FlagsTrue(b: Block, f: seq<nat>, fl: seq<bool>) {
    |fl| == SMALLS && forall v {:trigger fl[v]} :: 0 <= v < SMALLS && fl[v] ==>
      Sorted(f, Keys(b), From(b, v), From(b, v + 1) - 1)
  }

  /** ftab holds the starts of the small buckets and, above them, the flags. */
  ghost predicate Flagged(b: Block, ft: seq<nat>, fl: seq<bool>) {
    && |fl| == SMALLS && |ft| == SMALLS + 1 && ft[SMALLS] == |b| <= MAX_LENGTH
    && forall v {:trigger ft[v]} {:trigger fl[v]} :: 0 <= v < SMALLS ==>
      ft[v] == From(b, v) + if fl[v] then SETMASK else 0
  }

  /** ftab[v] & CLEARMASK */
  method StartOf(ftab: array<nat>, v: nat, ghost b: Block, ghost fl: seq<bool>) returns (s: nat)
    requires v <= SMALLS && Flagged(b, ftab[..], fl)
    ensures s == From(b, v)
  {
    hide From;
    FromAll(b);
    assert ftab[v] == ftab[..][v];
    FromInt(b, v);
    s := ftab[v] % SETMASK;
  }

  lemma {:induction false} FromInt(b: Block, v: nat)
    ensures From(b, v) <= |b|
  {
  }

  /** ftab[v] & SETMASK */
  method IsSet(ftab: array<nat>, v: nat, ghost b: Block, ghost fl: seq<bool>) returns (isSet: bool)
    requires v < SMALLS && Flagged(b, ftab[..], fl)
    ensures isSet == fl[v]
  {
    hide From;
    assert ftab[v] == ftab[..][v];
    FromInt(b, v);
    isSet := ftab[v] / SETMASK % 2 == 1;
  }

  /** ftab[v] |= SETMASK */
  method SetFlag(ftab: array<nat>, v: nat, ghost b: Block, ghost fl: seq<bool>)
    requires v < SMALLS && Flagged(b, ftab[..], fl)
    modifies ftab
    ensures Flagged(b, ftab[..], fl[v := true])
  {
    hide From;
    var was := IsSet(ftab, v, b, fl);
    ghost var a := ftab[..];
    if !was {
      ftab[v] := ftab[v] + SETMASK;
    }
    assert ftab[..] == if was then a else a[v := a[v] + SETMASK];
  }

  // ----- step 1

  /** The rotations of a small bucket agree in two bytes. */
  lemma {:induction false} SmallShares(b: Block, f: seq<nat>, v: nat)
    requires Housed(b, f) && From(b, v) < From(b, v + 1)
    ensures Shares(b, f, From(b, v), From(b, v + 1) - 1, 2)
  {
    hide From;
    var lo, hi := From(b, v), From(b, v + 1) - 1;
    FromInt(b, v + 1);
    forall i {:trigger f[i]} | lo <= i <= hi
      ensures f[lo] < |b| && f[i] < |b| && Key(b, f[i], 2) == Key(b, f[lo], 2)
    {
      InBucket(b, f, i, v);
      InBucket(b, f, lo, v);
      TwoBytes(b, f[i]);
      TwoBytes(b, f[lo]);
    }
  }

  lemma {:induction false} TwoBytes(b: Block, x: nat)
    requires x < |b|
    ensures Key(b, x, 2) == Pairs(b)[x]
  {
    assert Key(b, x, 0) == 0 && Adv(|b|, x, 0) == x && Key(b, x, 1) == b[x] && Adv(|b|, x, 1) == Next(|b|, x);
  }

  /** Rearranging within a small bucket leaves every rotation in its own. */
  lemma {:induction false} HousedStill(b: Block, f: seq<nat>, g: seq<nat>, v: nat)
    requires Housed(b, f) && Permuted(f, g, From(b, v), From(b, v + 1) - 1)
    ensures Housed(b, g)
  {
    hide From;
    FromInt(b, v + 1);
    forall k {:trigger g[k]} | 0 <= k < |g|
      ensures g[k] < |b| && From(b, Pairs(b)[g[k]]) <= k < From(b, Pairs(b)[g[k]] + 1)
    {
      if From(b, v) <= k < From(b, v + 1) {
        var i := PermutedFrom(f, g, From(b, v), From(b, v + 1) - 1, k);
        InBucket(b, f, i, v);
      } else {
        assert g[k] == f[k];
      }
    }
    forall i, k {:trigger g[i], g[k]} | 0 <= i < k < |g|
      ensures g[i] != g[k]
    {
      TwiceCounted(g, i, k);
      CountedOnce(f, g[i], |f|);
      assert Count(f, g[i], |f|) == Count(g, g[i], |g|);
    }
  }

  lemma {:induction false} CountedOnce(f: seq<nat>, v: nat, i: nat)
    requires i <= |f| && Distinct(f)
    ensures Count(f, v, i) <= 1
  {
    OnceCounted(f, v, i);
  }

  lemma {:induction false} SmallApartAny(b: Block, v: nat, w: nat)
    requires v < w
    ensures From(b, v + 1) <= From(b, w)
  {
    FromMonotone(b, v + 1, w);
  }

  /** Sorting one small bucket leaves the others sorted. */
  lemma {:induction false} FlagsStill(b: Block, f: seq<nat>, g: seq<nat>, fl: seq<bool>, v: nat)
    requires FlagsTrue(b, f, fl) && Permuted(f, g, From(b, v), From(b, v + 1) - 1) && v < SMALLS
    requires Sorted(g, Keys(b), From(b, v), From(b, v + 1) - 1)
    ensures FlagsTrue(b, g, fl[v := true])
  {
    hide From, Sorted;
    var fl' := fl[v := true];
    forall w {:trigger fl'[w]} | 0 <= w < SMALLS && fl'[w]
      ensures Sorted(g, Keys(b), From(b, w), From(b, w + 1) - 1)
    {
      if w != v {
        assert fl[w];
        if w < v {
          SmallApartAny(b, w, v);
        } else {
          SmallApartAny(b, v, w);
        }
        SortedElsewhere(f, g, Keys(b), From(b, w), From(b, w + 1) - 1, From(b, v), From(b, v + 1) - 1);
      }
    }
  }

  lemma {:induction false} SortedElsewhere(f: seq<nat>, g: seq<nat>, e: seq<nat>, lo: int, hi: int, lo': int, hi': int)
    requires Sorted(f, e, lo, hi) && Permuted(f, g, lo', hi') && (hi < lo' || hi' < lo) && 0 <= lo
    ensures Sorted(g, e, lo, hi)
  {
    forall i, j {:trigger Le(g, e, i, j)} | lo <= i < j <= hi
      ensures Le(g, e, i, j)
    {
      assert Le(f, e, i, j);
      assert g[i] == f[i] && g[j] == f[j];
    }
  }

  /** The small bucket holds at most one rotation, or is sorted now. */
  method SortSmall(ptr: array<nat>, block: array<byte>, quadrant: array<nat>, nblock: nat, lo: nat, hi: int, v: nat,
                   budget0: int, ghost b: Block, ghost q: seq<nat>, ghost f0: seq<nat>)
    returns (budget: int, ghost f: seq<nat>)
    requires Separate(ptr, block, quadrant) && Setting(block, quadrant, nblock, b, q) && ptr[..] == f0
      && nblock <= MAX_LENGTH
    requires Housed(b, f0) && v < SMALLS && lo == From(b, v) && hi == From(b, v + 1) - 1 && lo < hi
    modifies ptr
    ensures ptr[..] == f && Permuted(f0, f, lo, hi) && Housed(b, f) && budget <= budget0
      && (budget < budget0 ==> Repetitive(b))
    ensures budget >= 0 ==> Sorted(f, Keys(b), lo, hi)
  {
    hide From, Housed, Sorted, Permuted, Repetitive, Excused;
    HousedExcuse(b, f0);
    FromInt(b, v + 1);
    assert nblock == |b|;
    SmallShares(b, f0, v);
    budget, f := MainQSort3(ptr, block, quadrant, nblock, lo, hi, 2, budget0, b, q, f0);
    HousedStill(b, f0, f, v);
  }

  lemma {:induction false} HousedExcuse(b: Block, f: seq<nat>)
    requires Housed(b, f)
    ensures Excused(b, f) ==> Repetitive(b)
  {
  }

  /** The flags of row ss, column ss left out, up to j. */
  ghost predicate RowFlags(fl0: seq<bool>, fl: seq<bool>, ss: byte, j: nat) {
    |fl| == |fl0| == SMALLS && forall v {:trigger fl[v]} :: 0 <= v < SMALLS ==>
      fl[v] == (fl0[v] || (v / 256 == ss && v % 256 < j && v % 256 != ss))
  }

  lemma {:induction false} TrivialSorted(f: seq<nat>, e: seq<nat>, lo: int, hi: int)
    requires hi <= lo
    ensures Sorted(f, e, lo, hi)
  {
  }

  lemma {:induction false} FlagMore(b: Block, f: seq<nat>, fl: seq<bool>, v: nat)
    requires FlagsTrue(b, f, fl) && v < SMALLS && Sorted(f, Keys(b), From(b, v), From(b, v + 1) - 1)
    ensures FlagsTrue(b, f, fl[v := true])
  {
    hide From, Sorted;
    var fl' := fl[v := true];
    forall w {:trigger fl'[w]} | 0 <= w < SMALLS && fl'[w]
      ensures Sorted(f, Keys(b), From(b, w), From(b, w + 1) - 1)
    {
      assert w != v ==> fl[w];
    }
  }

  lemma {:induction false} FlagSays(b: Block, f: seq<nat>, fl: seq<bool>, v: nat)
    requires FlagsTrue(b, f, fl) && v < SMALLS && fl[v]
    ensures Sorted(f, Keys(b), From(b, v), From(b, v + 1) - 1)
  {
  }

  lemma {:induction false} RowFlagsStep(fl0: seq<bool>, fl: seq<bool>, ss: byte, j: byte)
    requires RowFlags(fl0, fl, ss, j)
    ensures j != ss ==> RowFlags(fl0, fl[PairOf(ss, j) := true], ss, j as nat + 1)
    ensures j == ss ==> RowFlags(fl0, fl, ss, j as nat + 1)
  {
  }

  /** Everything a round keeps about the pointers and the table. */
  ghost predicate SortState(b: Block, f: seq<nat>, ft: seq<nat>, fl: seq<bool>) {
    |b| > OVERSHOOT && Housed(b, f) && Flagged(b, ft, fl) && FlagsTrue(b, f, fl)
  }

  predicate Arrays(ptr: array<nat>, block: array<byte>, quadrant: array<nat>, ftab: array<nat>) {
    Separate(ptr, block, quadrant) && ptr != ftab && quadrant != ftab && ftab as object != block as object
      && quadrant as object != block as object
  }

  /** Step 1: complete the big bucket ss, except (ss, ss). */
  method SortRow(ptr: array<nat>, block: array<byte>, quadrant: array<nat>, ftab: array<nat>, nblock: nat, ss: byte,
                 budget0: int, ghost b: Block, ghost q: seq<nat>, ghost f0: seq<nat>, ghost fl0: seq<bool>)
    returns (abandoned: bool, budget: int, ghost f: seq<nat>, ghost fl: seq<bool>)
    requires Arrays(ptr, block, quadrant, ftab) && Setting(block, quadrant, nblock, b, q)
    requires ptr[..] == f0 && SortState(b, f0, ftab[..], fl0)
    modifies ptr, ftab
    ensures |ptr[..]| == nblock && (abandoned ==> budget < 0) && budget <= budget0
      && (budget < budget0 ==> Repetitive(b))
    ensures !abandoned ==> ptr[..] == f && SortState(b, f, ftab[..], fl) && RowFlags(fl0, fl, ss, 256)
  {
    hide SortState, From, Setting, Housed, FlagsTrue, Flagged, Sorted, Repetitive;
    abandoned, budget, f, fl := false, budget0, f0, fl0;
    StateParts(b, f, ftab[..], fl);
    SettingSize(block, quadrant, nblock, b, q);
    RowFlagsStart(fl0, ss);
    for j := 0 to 256
      invariant ptr[..] == f && SortState(b, f, ftab[..], fl) && RowFlags(fl0, fl, ss, j)
      invariant Setting(block, quadrant, nblock, b, q) && budget <= budget0 && (budget < budget0 ==> Repetitive(b))
    {
      RowFlagsStep(fl0, fl, ss, j);
      if j != ss {
        var row: nat := ss;
        var sb := 256 * row + j;
        assert sb == PairOf(ss, j);
        StateParts(b, f, ftab[..], fl);
        var done := IsSet(ftab, sb, b, fl);
        if !done {
          var lo := StartOf(ftab, sb, b, fl);
          var end: int := StartOf(ftab, sb + 1, b, fl);
          if end - 1 > lo {
            ghost var g := f;
            budget, f := SortSmall(ptr, block, quadrant, nblock, lo, end - 1, sb, budget, b, q, g);
            if budget < 0 {
              PermutedSize(g, f, lo, end - 1);
              return true, budget, f, fl;
            }
            FlagsStill(b, g, f, fl, sb);
          } else {
            TrivialSorted(f, Keys(b), lo, end - 1);
            FlagMore(b, f, fl, sb);
          }
        } else {
          FlagSays(b, f, fl, sb);
          FlagMore(b, f, fl, sb);
        }
        SetFlag(ftab, sb, b, fl);
        fl := fl[sb := true];
        StateWhole(b, f, ftab[..], fl);
      }
    }
    StateParts(b, f, ftab[..], fl);
  }

  lemma {:induction false} StateParts(b: Block, f: seq<nat>, ft: seq<nat>, fl: seq<bool>)
    requires SortState(b, f, ft, fl)
    ensures |f| == |b| > OVERSHOOT && |b| <= MAX_LENGTH && |fl| == SMALLS && |ft| == SMALLS + 1
    ensures Housed(b, f) && Flagged(b, ft, fl) && FlagsTrue(b, f, fl)
  {
  }

  lemma {:induction false} StateWhole(b: Block, f: seq<nat>, ft: seq<nat>, fl: seq<bool>)
    requires |b| > OVERSHOOT && Housed(b, f) && Flagged(b, ft, fl) && FlagsTrue(b, f, fl)
    ensures SortState(b, f, ft, fl)
  {
  }

  lemma {:induction false} SettingSize(block: array<byte>, quadrant: array<nat>, nblock: nat, b: Block, q: seq<nat>)
    requires Setting(block, quadrant, nblock, b, q)
    ensures nblock == |b| && block.Length >= nblock + OVERSHOOT && quadrant.Length >= nblock + OVERSHOOT
      && Extends(block[..], b)
    ensures |q| == |b| && Extends(quadrant[..], q) && Quadrants(b, q)
  {
  }

  lemma {:induction false} RowFlagsStart(fl0: seq<bool>, ss: byte)
    requires |fl0| == SMALLS
    ensures RowFlags(fl0, fl0, ss, 0)
  {
  }

  // ----- step 2

  /** Row ss is in order, as the flags say. */
  lemma {:induction false} RowIsSorted(b: Block, f: seq<nat>, fl0: seq<bool>, fl: seq<bool>, ss: byte)
    requires FlagsTrue(b, f, fl) && RowFlags(fl0, fl, ss, 256)
    ensures RowSorted(b, f, ss)
  {
    hide From, Sorted;
    forall t: byte {:trigger PairOf(ss, t)} | t != ss
      ensures Sorted(f, Keys(b), From(b, PairOf(ss, t)), From(b, PairOf(ss, t) + 1) - 1)
    {
      assert fl[PairOf(ss, t)];
    }
  }

  /** copyStart and copyEnd: the small buckets (c, ss). */
  method CopyEnds(ftab: array<nat>, ss: byte, ghost b: Block, ghost fl: seq<bool>)
    returns (copyStart: array<nat>, copyEnd: array<int>)
    requires Flagged(b, ftab[..], fl)
    ensures fresh(copyStart) && fresh(copyEnd) && copyStart.Length == copyEnd.Length == 256
    ensures forall c {:trigger copyStart[c]} {:trigger copyEnd[c]} :: 0 <= c < 256 ==>
      copyStart[c] == Lo(b, c, ss) && copyEnd[c] == Hi(b, c, ss) - 1
  {
    hide From, Flagged;
    copyStart, copyEnd := new nat[256], new int[256];
    for c := 0 to 256
      invariant Flagged(b, ftab[..], fl)
      invariant forall d {:trigger copyStart[d]} {:trigger copyEnd[d]} :: 0 <= d < c ==>
        copyStart[d] == Lo(b, d, ss) && copyEnd[d] == Hi(b, d, ss) - 1
    {
      copyStart[c] := StartOf(ftab, 256 * c + ss, b, fl);
      var end: int := StartOf(ftab, 256 * c + ss + 1, b, fl);
      copyEnd[c] := end - 1;
    }
  }

  method ScanFromLeft(ptr: array<nat>, block: array<byte>, bigDone: array<bool>, copyStart: array<nat>, nblock: nat,
                      start: nat, ss: byte, ghost b: Block, ghost f0: seq<nat>)
    returns (ghost f: seq<nat>)
    requires ptr as object != block as object && ptr != copyStart && nblock == |b| > OVERSHOOT && Extends(block[..], b)
    requires bigDone.Length == copyStart.Length == 256
    requires copyStart as object != block as object && ptr as object != bigDone as object
      && copyStart as object != bigDone as object
    requires ptr[..] == f0 && start == Big(b, ss) && LeftOk(b, ss, bigDone[..], f0, f0, copyStart[..], start)
    modifies ptr, copyStart
    ensures ptr[..] == f && LeftOk(b, ss, bigDone[..], f0, f, copyStart[..], copyStart[ss])
    ensures old(copyStart[ss]) <= start ==> f == f0 && copyStart[ss] == old(copyStart[ss])
  {
    hide LeftOk, Extends, Big, Lo, Hi, From, GoodLow, Kept, Housed, Pairs;
    f := f0;
    ghost var done := bigDone[..];
    var j := start;
    LeftGood(b, ss, done, f0, f, copyStart[..], j);
    while j < copyStart[ss]
      invariant old(copyStart[ss]) <= start ==> j == start && f == f0 && copyStart[ss] == old(copyStart[ss])
      invariant ptr[..] == f && bigDone[..] == done && Extends(block[..], b) && j <= copyStart[ss]
      invariant LeftOk(b, ss, done, f0, f, copyStart[..], j)
      decreases nblock - j
    {
      ghost var cs := copyStart[..];
      LeftGood(b, ss, done, f0, f, cs, j);
      LeftStep(b, ss, done, f0, f, cs, j);
      LeftSize(b, ss, done, f0, f, cs, j);
      assert ptr[j] == f[j];
      var k := if ptr[j] == 0 then nblock - 1 else ptr[j] - 1;
      BlockByte(block[..], b, k);
      assert block[k] == block[..][k];
      var c1 := block[k];
      if !bigDone[c1] {
        assert copyStart[c1] == cs[c1];
        ptr[copyStart[c1]] := k;
        f := f[cs[c1] := k];
        assert ptr[..] == f;
        copyStart[c1] := copyStart[c1] + 1;
        assert copyStart[..] == cs[c1 := cs[c1] + 1];
      }
      j := j + 1;
      LeftGood(b, ss, done, f0, f, copyStart[..], j);
    }
  }

  lemma {:induction false} LeftSize(b: Block, ss: byte, done: seq<bool>, f0: seq<nat>, f: seq<nat>, cs: seq<nat>,
      j: nat)
    requires LeftOk(b, ss, done, f0, f, cs, j)
    ensures |f| == |b| && |done| == |cs| == 256 && cs[ss] <= |b|
  {
    LoHi(b, ss, ss);
  }

  method ScanFromRight(ptr: array<nat>, block: array<byte>, bigDone: array<bool>, copyEnd: array<int>, nblock: nat,
                       end: int, ss: byte, ghost b: Block, ghost f0: seq<nat>, ghost f1: seq<nat>, ghost cs: seq<nat>)
    returns (ghost f: seq<nat>)
    requires ptr as object != block as object && ptr as object != copyEnd as object && nblock == |b| > OVERSHOOT
      && Extends(block[..], b)
    requires copyEnd as object != block as object && ptr as object != bigDone as object
      && copyEnd as object != bigDone as object
    requires bigDone.Length == copyEnd.Length == 256
    requires ptr[..] == f1 && end == Big(b, ss + 1) - 1 && RightOk(b, ss, bigDone[..], f0, f1, cs, copyEnd[..], end)
    modifies ptr, copyEnd
    ensures ptr[..] == f && RightOk(b, ss, bigDone[..], f0, f, cs, copyEnd[..], copyEnd[ss])
    ensures old(copyEnd[ss]) >= end ==> f == f1 && copyEnd[ss] == old(copyEnd[ss])
  {
    hide RightOk, Extends, Big, Lo, Hi, From, GoodLow, GoodHigh, Kept, Housed, Pairs;
    f := f1;
    ghost var done := bigDone[..];
    var j := end;
    RightGood(b, ss, done, f0, f, cs, copyEnd[..], j);
    while j > copyEnd[ss]
      invariant old(copyEnd[ss]) >= end ==> j == end && f == f1 && copyEnd[ss] == old(copyEnd[ss])
      invariant ptr[..] == f && bigDone[..] == done && Extends(block[..], b) && copyEnd[ss] <= j
      invariant RightOk(b, ss, done, f0, f, cs, copyEnd[..], j)
      decreases j + 1
    {
      ghost var ce := copyEnd[..];
      RightGood(b, ss, done, f0, f, cs, ce, j);
      RightStep(b, ss, done, f0, f, cs, ce, j);
      assert ptr[j] == f[j];
      var k := if ptr[j] == 0 then nblock - 1 else ptr[j] - 1;
      BlockByte(block[..], b, k);
      assert block[k] == block[..][k];
      var c1 := block[k];
      if !bigDone[c1] {
        assert copyEnd[c1] == ce[c1];
        ptr[copyEnd[c1]] := k;
        f := f[ce[c1] := k];
        assert ptr[..] == f;
        copyEnd[c1] := copyEnd[c1] - 1;
        assert copyEnd[..] == ce[c1 := ce[c1] - 1];
      }
      j := j - 1;
      RightGood(b, ss, done, f0, f, cs, copyEnd[..], j);
    }
  }

  /** What a scan leaves: everything in its small bucket, and every open (c, ss) in order. */
  ghost predicate Scanned(b: Block, ss: byte, done: seq<bool>, f0: seq<nat>, f: seq<nat>) {
    && Housed(b, f) && Kept(b, ss, done, f0, f)
    && forall c: byte {:trigger PairOf(c, ss)} :: !done[c] ==>
      Sorted(f, Keys(b), From(b, PairOf(c, ss)), From(b, PairOf(c, ss) + 1) - 1)
  }

  lemma {:induction false} OpenSorted(b: Block, ss: byte, done: seq<bool>, f0: seq<nat>, f: seq<nat>, cs: seq<nat>,
      ce: seq<int>, c: byte)
    requires |ce| == 256 && RightOk(b, ss, done, f0, f, cs, ce, ce[ss]) && Mixed(b, ss) && |done| == 256 && !done[c]
    ensures Sorted(f, Keys(b), From(b, PairOf(c, ss)), From(b, PairOf(c, ss) + 1) - 1)
  {
    hide RightOk, Mixed, Sorted, Distinct, KeysSorted, From;
    PointerScan.SmallDone(b, ss, done, f0, f, cs, ce, c);
    LoHi(b, c, ss);
    SortedSlice(b, f, Lo(b, c, ss), Hi(b, c, ss));
  }

  lemma {:induction false} MixedScanned(b: Block, ss: byte, done: seq<bool>, f0: seq<nat>, f: seq<nat>, cs: seq<nat>,
      ce: seq<int>)
    requires |ce| == 256 && RightOk(b, ss, done, f0, f, cs, ce, ce[ss]) && Mixed(b, ss)
    ensures Scanned(b, ss, done, f0, f) && |cs| == 256 && cs[ss] == ce[ss] + 1
  {
    hide RightOk, Mixed, Kept, Housed, Sorted, Distinct, KeysSorted, From, Lo, Hi, Big, Fills, Preds;
    RightFill(b, ss, done, f0, f, cs, ce, ce[ss], ss);
    ScanHoused(b, ss, done, f0, f, cs, ce);
    ScansMeet(b, ss, done, f0, f, cs, ce, ss);
    forall c: byte {:trigger PairOf(c, ss)} | !done[c]
      ensures Sorted(f, Keys(b), From(b, PairOf(c, ss)), From(b, PairOf(c, ss) + 1) - 1)
    {
      OpenSorted(b, ss, done, f0, f, cs, ce, c);
    }
  }

  /** In a block of one byte only, all rotations are equal, and there is one small bucket. */
  lemma {:induction false} AllEqual(b: Block, ss: byte, x: nat, y: nat)
    requires !Mixed(b, ss) && x < |b| && y < |b|
    ensures Key(b, x, |b|) == Key(b, y, |b|)
  {
    RunsKey(b, ss, x, y, |b|);
  }

  lemma {:induction false} OneBucket(b: Block, ss: byte, v: nat)
    requires !Mixed(b, ss)
    ensures v <= PairOf(ss, ss) ==> From(b, v) == 0
    ensures v > PairOf(ss, ss) ==> From(b, v) == |b|
  {
    var p := Pairs(b);
    if v > 0 {
      FromMonotone(b, v - 1, v);
      OneBucket(b, ss, v - 1);
      if v - 1 == PairOf(ss, ss) {
        CountAll(p, v - 1, |b|);
      } else {
        CountNone(p, v - 1, |b|);
      }
    }
  }

  lemma {:induction false} CountAll(p: seq<nat>, v: nat, i: nat)
    requires i <= |p| && forall k {:trigger p[k]} :: 0 <= k < i ==> p[k] == v
    ensures Count(p, v, i) == i
  {
    if i > 0 {
      CountAll(p, v, i - 1);
    }
  }

  lemma {:induction false} UnmixedScanned(b: Block, ss: byte, done: seq<bool>, f0: seq<nat>)
    requires !Mixed(b, ss) && Housed(b, f0) && |done| == 256
    ensures Scanned(b, ss, done, f0, f0)
    ensures Big(b, ss) == Lo(b, ss, ss) == 0 && Big(b, ss + 1) == Hi(b, ss, ss) == |b|
  {
    hide Mixed, From, Key;
    OneBucket(b, ss, 256 * ss);
    OneBucket(b, ss, 256 * ss + ss);
    OneBucket(b, ss, 256 * (ss + 1));
    OneBucket(b, ss, 256 * ss + ss + 1);
    forall c: byte {:trigger PairOf(c, ss)} | !done[c]
      ensures Sorted(f0, Keys(b), From(b, PairOf(c, ss)), From(b, PairOf(c, ss) + 1) - 1)
    {
      FromInt(b, PairOf(c, ss) + 1);
      forall i, k {:trigger Le(f0, Keys(b), i, k)} | From(b, PairOf(c, ss)) <= i < k <= From(b, PairOf(c, ss) + 1) - 1
        ensures Le(f0, Keys(b), i, k)
      {
        assert f0[i] < |b| && f0[k] < |b|;
        AllEqual(b, ss, f0[i], f0[k]);
      }
    }
  }

  predicate ScanArrays(ptr: array<nat>, block: array<byte>, ftab: array<nat>, bigDone: array<bool>) {
    && ptr as object != block as object && ptr != ftab && ftab as object != block as object
    && ptr as object != bigDone as object && ftab as object != bigDone as object && bigDone.Length == 256
  }

  /** Step 2: from the big bucket ss, the order of the small buckets (c, ss), (ss, ss) too. */
  method ScanBucket(ptr: array<nat>, block: array<byte>, ftab: array<nat>, bigDone: array<bool>, nblock: nat, ss: byte,
                    ghost b: Block, ghost f0: seq<nat>, ghost fl: seq<bool>)
    returns (ghost f: seq<nat>)
    requires ScanArrays(ptr, block, ftab, bigDone) && nblock == |b| && Extends(block[..], b) && !bigDone[ss]
    requires ptr[..] == f0 && SortState(b, f0, ftab[..], fl) && RowSorted(b, f0, ss)
    modifies ptr
    ensures ptr[..] == f && Scanned(b, ss, bigDone[..], f0, f)
  {
    hide SortState, RowSorted, Scanned, Extends, Housed, Flagged, FlagsTrue, LeftOk, RightOk, Mixed, From;
    StateParts(b, f0, ftab[..], fl);
    ghost var done := bigDone[..];
    var start := StartOf(ftab, 256 * ss, b, fl);
    var bigEnd: int := StartOf(ftab, 256 * (ss + 1), b, fl);
    var copyStart, copyEnd := CopyEnds(ftab, ss, b, fl);
    LeftStart(b, ss, done, f0, copyStart[..]);
    f := ScanFromLeft(ptr, block, bigDone, copyStart, nblock, start, ss, b, f0);
    ghost var cs, f1 := copyStart[..], f;
    RightStart(b, ss, done, f0, f, cs, copyEnd[..]);
    f := ScanFromRight(ptr, block, bigDone, copyEnd, nblock, bigEnd - 1, ss, b, f0, f1, cs);
    if Mixed(b, ss) {
      MixedScanned(b, ss, done, f0, f, cs, copyEnd[..]);
    } else {
      UnmixedScanned(b, ss, done, f0);
    }
    // assertion 1007
    assert copyStart[ss] == copyEnd[ss] + 1 || (copyStart[ss] == 0 && copyEnd[ss] == nblock - 1);
  }

  /** The flags of column ss, up to row j. */
  ghost predicate ColumnFlags(fl0: seq<bool>, fl: seq<bool>, ss: byte, j: nat) {
    |fl| == |fl0| == SMALLS && forall v {:trigger fl[v]} :: 0 <= v < SMALLS ==>
      fl[v] == (fl0[v] || (v % 256 == ss && v / 256 < j))
  }

  lemma {:induction false} ColumnFlagsStep(fl0: seq<bool>, fl: seq<bool>, ss: byte, j: byte)
    requires ColumnFlags(fl0, fl, ss, j)
    ensures ColumnFlags(fl0, fl[PairOf(j, ss) := true], ss, j as nat + 1)
  {
  }

  method FlagColumn(ftab: array<nat>, ss: byte, ghost b: Block, ghost fl0: seq<bool>) returns (ghost fl: seq<bool>)
    requires Flagged(b, ftab[..], fl0)
    modifies ftab
    ensures Flagged(b, ftab[..], fl) && ColumnFlags(fl0, fl, ss, 256)
  {
    hide Flagged, ColumnFlags;
    fl := fl0;
    ColumnFlagsStart(b, ftab[..], fl0, ss);
    for j := 0 to 256
      invariant |fl| == SMALLS && Flagged(b, ftab[..], fl) && ColumnFlags(fl0, fl, ss, j)
    {
      assert 256 * j + ss == PairOf(j, ss);
      ColumnFlagsStep(fl0, fl, ss, j);
      SetFlag(ftab, 256 * j + ss, b, fl);
      fl := fl[256 * j + ss := true];
    }
  }

  lemma {:induction false} ColumnFlagsStart(b: Block, ft: seq<nat>, fl0: seq<bool>, ss: byte)
    requires Flagged(b, ft, fl0)
    ensures |fl0| == SMALLS && ColumnFlags(fl0, fl0, ss, 0)
  {
  }

  /** What the scan did not touch is in order as before. */
  lemma {:induction false} KeptSorted(b: Block, ss: byte, done: seq<bool>, f0: seq<nat>, f: seq<nat>, v: nat)
    requires Kept(b, ss, done, f0, f) && Sorted(f0, Keys(b), From(b, v), From(b, v + 1) - 1)
    requires v < SMALLS && (v % 256 != ss || done[v / 256])
    ensures Sorted(f, Keys(b), From(b, v), From(b, v + 1) - 1)
  {
    hide From;
    FromInt(b, v + 1);
    forall i, k {:trigger Le(f, Keys(b), i, k)} | From(b, v) <= i < k <= From(b, v + 1) - 1
      ensures Le(f, Keys(b), i, k)
    {
      InBucket(b, f0, i, v);
      InBucket(b, f0, k, v);
      assert f[i] == f0[i] && f[k] == f0[k] && Le(f0, Keys(b), i, k);
    }
  }

  lemma {:induction false} ScannedParts(b: Block, ss: byte, done: seq<bool>, f0: seq<nat>, f: seq<nat>, v: nat)
    requires Scanned(b, ss, done, f0, f) && v < SMALLS
    ensures |done| == 256 && Kept(b, ss, done, f0, f)
    ensures v % 256 == ss && !done[v / 256] ==> Sorted(f, Keys(b), From(b, v), From(b, v + 1) - 1)
  {
    hide From, Sorted, Housed, Keys;
    assert v == PairOf(v / 256, v % 256);
  }

  /** So after the scan the flags of column ss may be set. */
  lemma {:induction false} ScannedFlags(b: Block, ss: byte, done: seq<bool>, f0: seq<nat>, f: seq<nat>, fl: seq<bool>,
      fl': seq<bool>)
    requires FlagsTrue(b, f0, fl) && Scanned(b, ss, done, f0, f) && ColumnFlags(fl, fl', ss, 256) && |done| == 256
    requires forall v {:trigger fl[v]} :: 0 <= v < SMALLS && done[v / 256] ==> fl[v]
    ensures FlagsTrue(b, f, fl')
  {
    hide From, Sorted, Kept, Housed, Scanned, Keys;
    forall v {:trigger fl'[v]} | 0 <= v < SMALLS && fl'[v]
      ensures Sorted(f, Keys(b), From(b, v), From(b, v + 1) - 1)
    {
      ScannedParts(b, ss, done, f0, f, v);
      if v % 256 != ss || done[v / 256] {
        assert fl[v];
        KeptSorted(b, ss, done, f0, f, v);
      }
    }
  }

  // ----- step 3

  lemma {:induction false} ShrMonotone(m: nat, n: nat, k: nat)
    requires m <= n
    ensures Shr(m, k) <= Shr(n, k)
  {
    if k > 0 {
      ShrMonotone(m / 2, n / 2, k - 1);
    }
  }

  /** The order of rotations in small buckets that are flagged is the order of the pointers. */
  lemma {:induction false} FlagsOrder(b: Block, f: seq<nat>, fl: seq<bool>, i: nat, k: nat)
    requires Housed(b, f) && FlagsTrue(b, f, fl) && i < k < |b| && |b| >= 2
    requires f[i] < |b| ==> Pairs(b)[f[i]] < SMALLS && fl[Pairs(b)[f[i]]]
    ensures |f| == |b| && f[i] < |b| && f[k] < |b| && Key(b, f[i], |b|) <= Key(b, f[k], |b|)
  {
    hide Key, From, Sorted;
    var u, w := Pairs(b)[f[i]], Pairs(b)[f[k]];
    if u < w {
      PairDecides(b, f[i], f[k]);
    } else if u > w {
      FromMonotone(b, w + 1, u);
      assert false;
    } else {
      SortedPair(f, Keys(b), From(b, u), From(b, u + 1) - 1, i, k);
    }
  }

  lemma {:induction false} SortedPair(f: seq<nat>, e: seq<nat>, lo: int, hi: int, i: int, k: int)
    requires Sorted(f, e, lo, hi) && lo <= i < k <= hi
    ensures Le(f, e, i, k)
  {
  }

  /** The quadrants once the big bucket ss has handed out its own, from m on. */
  ghost predicate Handed(b: Block, f: seq<nat>, q0: seq<nat>, q: seq<nat>, ss: byte, shifts: nat, m: nat) {
    && |q| == |q0| == |f| == |b|
    && (forall x {:trigger q[x]} :: 0 <= x < |b| && b[x] != ss ==> q[x] == q0[x])
    && (forall k {:trigger f[k]} :: Big(b, ss) + m <= k < Big(b, ss + 1) ==>
      f[k] < |b| && q[f[k]] == Shr(k - Big(b, ss), shifts))
  }

  lemma {:induction false} HandedStep(b: Block, f: seq<nat>, q0: seq<nat>, q: seq<nat>, ss: byte, shifts: nat, m: nat)
    requires Handed(b, f, q0, q, ss, shifts, m + 1) && Housed(b, f) && Big(b, ss) + m < Big(b, ss + 1)
    ensures Big(b, ss) + m < |f| && f[Big(b, ss) + m] < |b|
    ensures Handed(b, f, q0, q[f[Big(b, ss) + m] := Shr(m, shifts)], ss, shifts, m)
  {
    hide From;
    var k := Big(b, ss) + m;
    StartsWith(b, f, k, ss);
    var q' := q[f[k] := Shr(m, shifts)];
    forall i {:trigger f[i]} | k <= i < Big(b, ss + 1)
      ensures f[i] < |b| && q'[f[i]] == Shr(i - Big(b, ss), shifts)
    {
      if i > k {
        assert f[i] != f[k];
      }
    }
  }

  /** An entry lies in the big bucket of its first byte. */
  lemma {:induction false} StartsWith(b: Block, f: seq<nat>, k: nat, ss: byte)
    requires Housed(b, f) && k < |b|
    ensures |f| == |b| && f[k] < |b| && (b[f[k]] == ss <==> Big(b, ss) <= k < Big(b, ss + 1))
  {
    var v := Pairs(b)[f[k]];
    var c := b[f[k]];
    assert v == PairOf(c, b[Next(|b|, f[k])]);
    FromMonotone(b, 256 * c, v);
    FromMonotone(b, v + 1, 256 * (c + 1));
    if c < ss {
      BigApart(b, c, ss);
    } else if c > ss {
      BigApart(b, ss, c);
    }
  }

  /** Handed out in the order of a sorted big bucket, they tell the order. */
  lemma {:induction false} HandedTells(b: Block, f: seq<nat>, fl: seq<bool>, q0: seq<nat>, q: seq<nat>, ss: byte,
      shifts: nat)
    requires Handed(b, f, q0, q, ss, shifts, 0) && Housed(b, f) && Quadrants(b, q0) && |b| >= 2
    requires FlagsTrue(b, f, fl) && |fl| == SMALLS && forall t: byte {:trigger PairOf(ss, t)} :: fl[PairOf(ss, t)]
    ensures Quadrants(b, q)
  {
    hide Key, From, Housed, FlagsTrue, Handed;
    HandedSize(b, f, q0, q, ss, shifts);
    forall i, j {:trigger q[i], q[j]} | 0 <= i < |b| && 0 <= j < |b| && b[i] == b[j] && q[i] < q[j]
      ensures Key(b, i, |b|) <= Key(b, j, |b|)
    {
      if b[i] == ss {
        var k := HandedAt(b, f, q0, q, ss, shifts, i);
        var m := HandedAt(b, f, q0, q, ss, shifts, j);
        if m <= k {
          ShrMonotone(m - Big(b, ss), k - Big(b, ss), shifts);
        }
        FlagOf(b, f, fl, k, ss);
        FlagsOrder(b, f, fl, k, m);
      } else {
        HandedOther(b, f, q0, q, ss, shifts, i);
        HandedOther(b, f, q0, q, ss, shifts, j);
      }
    }
  }

  lemma {:induction false} HandedSize(b: Block, f: seq<nat>, q0: seq<nat>, q: seq<nat>, ss: byte, shifts: nat)
    requires Handed(b, f, q0, q, ss, shifts, 0)
    ensures |q| == |b|
  {
  }

  lemma {:induction false} HandedOther(b: Block, f: seq<nat>, q0: seq<nat>, q: seq<nat>, ss: byte, shifts: nat, x: nat)
    requires Handed(b, f, q0, q, ss, shifts, 0) && x < |b| && b[x] != ss
    ensures |q0| == |q| == |b| && q[x] == q0[x]
  {
  }

  lemma {:induction false} HandedAt(b: Block, f: seq<nat>, q0: seq<nat>, q: seq<nat>, ss: byte, shifts: nat, x: nat)
    returns (k: nat)
    requires Handed(b, f, q0, q, ss, shifts, 0) && Housed(b, f) && x < |b| && b[x] == ss
    ensures Big(b, ss) <= k < Big(b, ss + 1) && k < |f| && f[k] == x && |q| == |b|
      && q[x] == Shr(k - Big(b, ss), shifts)
  {
    hide From;
    k := PermutationHits(f, |b|, x);
    StartsWith(b, f, k, ss);
  }

  lemma {:induction false} FlagOf(b: Block, f: seq<nat>, fl: seq<bool>, k: nat, ss: byte)
    requires k < |f| && f[k] < |b| && b[f[k]] == ss && |fl| == SMALLS
      && forall t: byte {:trigger PairOf(ss, t)} :: fl[PairOf(ss, t)]
    ensures Pairs(b)[f[k]] < SMALLS && fl[Pairs(b)[f[k]]]
  {
    assert Pairs(b)[f[k]] == PairOf(ss, b[Next(|b|, f[k])]);
  }

  /** One value written, and once more behind the block if it is among the first. */
  function Written(a: seq<nat>, i: nat, n: nat, x: nat): (r: seq<nat>)
    requires i < n && n + OVERSHOOT <= |a|
  {
    if i < OVERSHOOT then a[i := x][i + n := x] else a[i := x]
  }

  lemma {:induction false} ExtendsWrite(a: seq<nat>, v: seq<nat>, i: nat, x: nat)
    requires Extends(a, v) && i < |v|
    ensures Extends(Written(a, i, |v|, x), v[i := x])
  {
  }

  /** Step 3: the order of the big bucket ss, as far as 16 bits can tell it, into the quadrants. */
  method UpdateQuadrants(ptr: array<nat>, quadrant: array<nat>, ftab: array<nat>, nblock: nat, ss: byte,
                         ghost b: Block, ghost q0: seq<nat>, ghost f: seq<nat>, ghost fl: seq<bool>)
    returns (ghost q: seq<nat>, ghost shifts: nat)
    requires ptr != quadrant && ftab != quadrant && nblock == |b| && ptr[..] == f && SortState(b, f, ftab[..], fl)
    requires Extends(quadrant[..], q0) && Quadrants(b, q0)
      && forall t: byte {:trigger PairOf(ss, t)} :: fl[PairOf(ss, t)]
    modifies quadrant
    ensures Extends(quadrant[..], q) && Quadrants(b, q) && Handed(b, f, q0, q, ss, shifts, 0)
    ensures Shr(BigSize(b, ss), shifts) <= 65534 && (shifts > 0 ==> Shr(BigSize(b, ss), shifts - 1) > 65534)
  {
    hide SortState, Extends, Housed, Flagged, FlagsTrue, From, Handed, Big, Shr;
    StateParts(b, f, ftab[..], fl);
    ghost var qs := quadrant[..];
    var bbStart := StartOf(ftab, 256 * ss, b, fl);
    var bbEnd := StartOf(ftab, 256 * (ss + 1), b, fl);
    BigEnds(b, ss);
    var bbSize := bbEnd - bbStart;
    var sh := 0;
    ShrZero(bbSize);
    while Shr(bbSize, sh) > 65534
      invariant quadrant[..] == qs && (sh > 0 ==> Shr(bbSize, sh - 1) > 65534)
      decreases Shr(bbSize, sh)
    {
      ShrNext(bbSize, sh);
      sh := sh + 1;
    }
    shifts := sh;
    q := q0;
    HandedNone(b, f, q0, ss, shifts);
    var j := bbSize;
    while j > 0
      invariant j <= bbSize && Extends(quadrant[..], q) && |q| == nblock && Handed(b, f, q0, q, ss, shifts, j)
        && ptr[..] == f
    {
      j := j - 1;
      HandedStep(b, f, q0, q, ss, shifts, j);
      assert ptr[bbStart + j] == f[bbStart + j];
      var a2update := ptr[bbStart + j];
      ShrMonotone(j, bbSize, sh);
      var qVal := Shr(j, sh);
      assert qVal <= 65534;
      ghost var a := quadrant[..];
      ExtendsSize(a, q);
      ExtendsWrite(a, q, a2update, qVal);
      quadrant[a2update] := qVal;
      if a2update < OVERSHOOT {
        quadrant[a2update + nblock] := qVal;
      }
      assert quadrant[..] == Written(a, a2update, nblock, qVal);
      q := q[a2update := qVal];
    }
    if bbSize > 0 {
      ShrMonotone(bbSize - 1, bbSize, shifts);
      // assertion 1002
      assert Shr(bbSize - 1, shifts) <= 65535;
    }
    HandedTells(b, f, fl, q0, q, ss, shifts);
  }

  lemma {:induction false} ShrZero(n: nat)
    ensures Shr(n, 0) == n
  {
  }

  lemma {:induction false} ShrNext(n: nat, k: nat)
    ensures Shr(n, k + 1) == Shr(n, k) / 2
  {
    if k > 0 {
      ShrNext(n / 2, k - 1);
    }
  }

  lemma {:induction false} ExtendsSize(a: seq<nat>, v: seq<nat>)
    requires Extends(a, v)
    ensures |v| + OVERSHOOT <= |a|
  {
  }

  lemma {:induction false} BigEnds(b: Block, ss: byte)
    ensures Big(b, ss) == From(b, 256 * ss) <= Big(b, ss + 1) == From(b, 256 * (ss + 1)) <= |b|
  {
    FromMonotone(b, 256 * ss, 256 * (ss + 1));
  }

  lemma {:induction false} HandedNone(b: Block, f: seq<nat>, q0: seq<nat>, ss: byte, shifts: nat)
    requires |q0| == |f| == |b|
    ensures Big(b, ss) <= Big(b, ss + 1) && Handed(b, f, q0, q0, ss, shifts, Big(b, ss + 1) - Big(b, ss))
  {
    BigEnds(b, ss);
  }
}
