/**
 * mainSort: the radix sort, and then the big buckets one after the other, from the smallest.
 * It sorts the rotations unless its budget of comparisons is spent.
 */
module MainSort {
  import opened Prelude
  import opened Buckets
  import opened Rotations
  import opened BwtInverse
  import opened FallbackQuickSort
  import opened MainCompare
  import opened MainQuickSort
  import opened BigBuckets
  import opened PointerScan
  import opened MainRadix
  import opened MainSteps

  /** At the beginning of a round: flagged is just what lies in the row or the column of a finished byte. */
  ghost predicate RoundFlags(fl: seq<bool>, done: seq<bool>) {
    |fl| == SMALLS && |done| == 256 && forall v {:trigger fl[v]} :: 0 <= v < SMALLS ==>
      fl[v] == (done[v / 256] || done[v % 256])
  }

  /** Step 1 flags the rest of a row, step 2 a column. */
  lemma {:induction false} RoundFlagged(fl0: seq<bool>, fl1: seq<bool>, fl: seq<bool>, done: seq<bool>, ss: byte)
    requires RoundFlags(fl0, done) && RowFlags(fl0, fl1, ss, 256) && ColumnFlags(fl1, fl, ss, 256)
    ensures RoundFlags(fl, done[ss := true])
    ensures forall v {:trigger fl1[v]} :: 0 <= v < SMALLS && done[v / 256] ==> fl1[v]
    ensures forall t: byte {:trigger PairOf(ss, t)} :: fl[PairOf(ss, t)]
  {
    var done' := done[ss := true];
    forall v {:trigger fl[v]} | 0 <= v < SMALLS
      ensures fl[v] == (done'[v / 256] || done'[v % 256])
    {
      assert fl1[v] == (fl0[v] || (v / 256 == ss && v % 256 != ss));
    }
    forall t: byte {:trigger PairOf(ss, t)}
      ensures fl[PairOf(ss, t)]
    {
      assert done'[PairOf(ss, t) / 256];
    }
  }

  lemma {:induction false} RoundSizes(fl: seq<bool>, done: seq<bool>)
    requires RoundFlags(fl, done)
    ensures |fl| == SMALLS && |done| == 256
  {
  }

  /** One round: the big bucket ss, and with it all small buckets (c, ss). */
  method SortBig(ptr: array<nat>, block: array<byte>, quadrant: array<nat>, ftab: array<nat>, bigDone: array<bool>,
                 nblock: nat, ss: byte, last: bool, budget0: int, ghost b: Block, ghost q0: seq<nat>,
                 ghost f0: seq<nat>, ghost fl0: seq<bool>)
    returns (abandoned: bool, budget: int, ghost q: seq<nat>, ghost f: seq<nat>, ghost fl: seq<bool>)
    requires Arrays(ptr, block, quadrant, ftab) && ScanArrays(ptr, block, ftab, bigDone)
    requires quadrant as object != bigDone as object && block as object != bigDone as object
    requires Setting(block, quadrant, nblock, b, q0) && ptr[..] == f0 && SortState(b, f0, ftab[..], fl0)
    requires RoundFlags(fl0, bigDone[..]) && !bigDone[ss]
    modifies ptr, quadrant, ftab, bigDone
    ensures budget <= budget0 && (abandoned ==> budget < 0) && (budget < budget0 ==> Repetitive(b))
    ensures !abandoned ==> bigDone[..] == old(bigDone[..])[ss := true]
    ensures !abandoned ==>
      Setting(block, quadrant, nblock, b, q) && ptr[..] == f && SortState(b, f, ftab[..], fl)
      && RoundFlags(fl, bigDone[..])
  {
    hide SortState, RowSorted, Scanned, Extends, Housed, Flagged, FlagsTrue, Setting, RoundFlags, RowFlags, ColumnFlags,
      Quadrants, Repetitive;
    ghost var done, bl, qs := bigDone[..], block[..], quadrant[..];
    SettingSize(block, quadrant, nblock, b, q0);
    ghost var fl1;
    abandoned, budget, f, fl1 := SortRow(ptr, block, quadrant, ftab, nblock, ss, budget0, b, q0, f0, fl0);
    q, fl := q0, fl1;
    if !abandoned {
      assert bigDone[..] == done && block[..] == bl && quadrant[..] == qs;
      // assertion 1006
      assert !bigDone[ss];
      StateParts(b, f, ftab[..], fl1);
      RowIsSorted(b, f, fl0, fl1, ss);
      ghost var f1 := f;
      f := ScanBucket(ptr, block, ftab, bigDone, nblock, ss, b, f1, fl1);
      assert bigDone[..] == done && block[..] == bl && quadrant[..] == qs;
      fl := FlagColumn(ftab, ss, b, fl1);
      RoundFlagged(fl0, fl1, fl, done, ss);
      ScannedFlags(b, ss, done, f1, f, fl1, fl);
      ScannedHoused(b, ss, done, f1, f);
      StateWhole(b, f, ftab[..], fl);
      assert block[..] == bl && quadrant[..] == qs && bigDone[..] == done;
      bigDone[ss] := true;
      assert bigDone[..] == done[ss := true];
      assert block[..] == bl && quadrant[..] == qs && ptr[..] == f;
      if !last {
        RoundSizes(fl, bigDone[..]);
        ghost var shifts;
        q, shifts := UpdateQuadrants(ptr, quadrant, ftab, nblock, ss, b, q0, f, fl);
      }
      assert block[..] == bl && ptr[..] == f && bigDone[..] == done[ss := true];
      SettingWhole(block, quadrant, nblock, b, q);
    }
  }

  lemma {:induction false} ScannedHoused(b: Block, ss: byte, done: seq<bool>, f0: seq<nat>, f: seq<nat>)
    requires Scanned(b, ss, done, f0, f)
    ensures Housed(b, f)
  {
  }

  lemma {:induction false} SettingWhole(block: array<byte>, quadrant: array<nat>, nblock: nat, b: Block, q: seq<nat>)
    requires nblock == |b| && Extends(block[..], b) && Extends(quadrant[..], q) && Quadrants(b, q)
    ensures Setting(block, quadrant, nblock, b, q)
  {
  }

  // ----- before the first round and after the last

  lemma {:induction false} FirstState(b: Block, f: seq<nat>, ftab: array<nat>, fl: seq<bool>, done: seq<bool>)
    requires OVERSHOOT < |b| <= MAX_LENGTH && Housed(b, f) && ftab.Length == SMALLS + 1 && ftab[SMALLS] == |b|
    requires forall v: nat {:trigger ftab[v]} :: v < SMALLS ==> ftab[v] == From(b, v)
    requires |fl| == SMALLS && |done| == 256 && (forall v {:trigger fl[v]} :: 0 <= v < SMALLS ==> !fl[v])
    requires forall c {:trigger done[c]} :: 0 <= c < 256 ==> !done[c]
    ensures SortState(b, f, ftab[..], fl) && RoundFlags(fl, done)
  {
    hide From, Housed;
    var ft := ftab[..];
    forall v {:trigger ft[v]} {:trigger fl[v]} | 0 <= v < SMALLS
      ensures ft[v] == From(b, v) + if fl[v] then SETMASK else 0
    {
      assert ft[v] == ftab[v];
    }
  }

  lemma {:induction false} NoQuadrants(b: Block)
    ensures Quadrants(b, Zeros(|b|))
  {
    hide Key;
  }

  /** Done are just the bytes whose turn has come. */
  ghost predicate DoneSoFar(done: seq<bool>, order: seq<nat>, i: nat) {
    |done| == 256 && i <= |order| && forall c {:trigger done[c]} :: 0 <= c < 256 ==> (done[c] <==> c in order[..i])
  }

  lemma {:induction false} NextTurn(done: seq<bool>, order: seq<nat>, i: nat)
    requires DoneSoFar(done, order, i) && AllBytesOnce(order) && i < 256
    ensures order[i] < 256 && !done[order[i]] && DoneSoFar(done[order[i] := true], order, i + 1)
  {
    assert order[..i + 1] == order[..i] + [order[i]];
    var before := order[..i];
    forall k {:trigger before[k]} | 0 <= k < i
      ensures before[k] != order[i]
    {
      assert before[k] == order[k];
    }
  }

  /** With every small bucket in order, the rotations are. */
  lemma {:induction false} AllSorted(b: Block, f: seq<nat>, ft: seq<nat>, fl: seq<bool>, done: seq<bool>,
      order: seq<nat>)
    requires SortState(b, f, ft, fl) && RoundFlags(fl, done) && DoneSoFar(done, order, 256) && AllBytesOnce(order)
    ensures SortsRotations(b, f)
  {
    hide Key, FlagsTrue, Flagged, From;
    forall c {:trigger done[c]} | 0 <= c < 256
      ensures done[c]
    {
      assert order[..256] == order;
    }
    forall i, k {:trigger f[i], f[k]} | 0 <= i < k < |f|
      ensures Key(b, f[i], |b|) <= Key(b, f[k], |b|)
    {
      assert f[i] < |b|;
      var v := Pairs(b)[f[i]];
      assert v == PairOf(b[f[i]], b[Next(|b|, f[i])]);
      assert done[v / 256] && fl[v];
      FlagsOrder(b, f, fl, i, k);
    }
  }

  method MainSort(ptr: array<nat>, block: array<byte>, quadrant: array<nat>, ftab: array<nat>, nblock: nat,
      budget0: int, ghost b: Block)
    returns (budget: int, ghost f: seq<nat>)
    requires Arrays(ptr, block, quadrant, ftab) && OVERSHOOT < nblock == |b| == ptr.Length && nblock <= MAX_LENGTH
    requires nblock + OVERSHOOT <= block.Length && nblock + OVERSHOOT <= quadrant.Length && ftab.Length == SMALLS + 1
    requires block[..nblock] == b
    modifies ptr, block, quadrant, ftab
    ensures block[..nblock] == b && budget <= budget0 && (budget < budget0 ==> Repetitive(b))
    ensures budget >= 0 ==> ptr[..] == f && SortsRotations(b, f)
  {
    hide SortState, Extends, Housed, Setting, RoundFlags, Quadrants, DoneSoFar, AllBytesOnce, From, Sorted,
      SortsRotations, Count, Repetitive;
    TallyPairs(block, quadrant, ftab, nblock, b);
    FillOvershoot(block, quadrant, nblock, b);
    SumPairs(ftab, b);
    f := Distribute(ptr, block, ftab, nblock, b);
    var runningOrder := RunningOrder(ftab, b);
    var bigDone := new bool[256](_ => false);
    ghost var fl, q, order := seq(SMALLS, _ => false), Zeros(nblock), runningOrder[..];
    FirstState(b, f, ftab, fl, bigDone[..]);
    NoQuadrants(b);
    SettingWhole(block, quadrant, nblock, b, q);
    NoneYet(bigDone[..], order);
    budget := budget0;
    for i := 0 to 256
      invariant runningOrder[..] == order && ptr[..] == f && SortState(b, f, ftab[..], fl)
        && RoundFlags(fl, bigDone[..])
      invariant Setting(block, quadrant, nblock, b, q) && DoneSoFar(bigDone[..], order, i) && budget <= budget0
      invariant block[..nblock] == b && (budget < budget0 ==> Repetitive(b))
    {
      NextTurn(bigDone[..], order, i);
      RoundSizes(fl, bigDone[..]);
      assert runningOrder[i] == order[i];
      var abandoned;
      ghost var bl := block[..];
      assert bl[..nblock] == b;
      abandoned, budget, q, f, fl := SortBig(ptr, block, quadrant, ftab, bigDone, nblock, runningOrder[i], i == 255,
        budget, b, q, f, fl);
      assert block[..] == bl;
      if abandoned {
        return;
      }
    }
    AllSorted(b, f, ftab[..], fl, bigDone[..], order);
  }

  lemma {:induction false} NoneYet(done: seq<bool>, order: seq<nat>)
    requires |done| == 256 && forall c {:trigger done[c]} :: 0 <= c < 256 ==> !done[c]
    ensures DoneSoFar(done, order, 0)
  {
  }
}
