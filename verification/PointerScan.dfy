/**
 * mainSort's step 2 as a machine over the pointer sequence: a scan from the left and one from
 * the right over the big bucket of ss, each filling the small buckets (c, ss) from its end.
 */
module PointerScan {
  import opened Prelude
  import opened Buckets
  import opened Rotations
  import opened BwtInverse
  import opened FallbackQuickSort
  import opened MainCompare
  import opened BigBuckets

  /** Ends of the small bucket (c, ss). */
  function Lo(b: Block, c: nat, ss: byte): (s: nat)
    ensures s <= |b|
  {
    From(b, 256 * c + ss)
  }

  function Hi(b: Block, c: nat, ss: byte): (s: nat)
    ensures s <= |b|
  {
    From(b, 256 * c + ss + 1)
  }

  /** Ends of the big bucket ss. */
  function Big(b: Block, ss: nat): (s: nat)
    ensures s <= |b|
  {
    From(b, 256 * ss)
  }

  /** Small bucket (c, ss) lies in the big bucket c. */
  lemma {:induction false} LoHi(b: Block, c: nat, ss: byte)
    ensures Big(b, c) <= Lo(b, c, ss) <= Hi(b, c, ss) <= Big(b, c + 1)
    ensures Hi(b, c, ss) == Lo(b, c, ss) + Count(Pairs(b), 256 * c + ss, |b|)
  {
    FromMonotone(b, 256 * c, 256 * c + ss);
    FromMonotone(b, 256 * c + ss, 256 * c + ss);
    FromMonotone(b, 256 * c + ss + 1, 256 * (c + 1));
  }

  lemma {:induction false} BigApart(b: Block, c: nat, d: nat)
    requires c < d
    ensures Big(b, c + 1) <= Big(b, d)
  {
    FromMonotone(b, 256 * (c + 1), 256 * d);
  }

  /** Only entries of small buckets (c, ss) with c not done may differ from f0. */
  ghost predicate Kept(b: Block, ss: byte, done: seq<bool>, f0: seq<nat>, f: seq<nat>) {
    && |done| == 256 && |f| == |f0| == |b| && Housed(b, f0)
    && forall k {:trigger f[k]} :: 0 <= k < |f| ==>
      f[k] == f0[k] || (Pairs(b)[f0[k]] % 256 == ss && !done[Pairs(b)[f0[k]] / 256])
  }

  /** Different, in order, starting with ss, and below its endless run. */
  ghost predicate GoodLow(b: Block, ss: byte, x: seq<nat>) {
    && Distinct(x) && KeysSorted(b, x)
    && forall i {:trigger x[i]} :: 0 <= i < |x| ==> x[i] < |b| && b[x[i]] == ss && Low(b, ss, x[i])
  }

  ghost predicate GoodHigh(b: Block, ss: byte, x: seq<nat>) {
    && Distinct(x) && KeysSorted(b, x)
    && forall i {:trigger x[i]} :: 0 <= i < |x| ==> x[i] < |b| && b[x[i]] == ss && High(b, ss, x[i])
  }

  /** The stretch from lo to hi holds what precedes the scanned entries by the byte c. */
  ghost predicate Fills(b: Block, f: seq<nat>, lo: nat, hi: nat, scanned: seq<nat>, c: nat) {
    lo <= hi <= |f| && Places(b, scanned) && f[lo..hi] == Preds(b, scanned, c)
  }

  // ----- from the left

  ghost predicate LeftOk(b: Block, ss: byte, done: seq<bool>, f0: seq<nat>, f: seq<nat>, cs: seq<nat>, j: nat) {
    && Kept(b, ss, done, f0, f) && |cs| == |done| == 256 && !done[ss]
    && Big(b, ss) <= j <= cs[ss]
    && (forall c {:trigger cs[c]} :: 0 <= c < 256 ==> Lo(b, c, ss) <= cs[c] <= Hi(b, c, ss))
    && (forall c {:trigger cs[c]} :: 0 <= c < 256 && !done[c] ==> Fills(b, f, Lo(b, c, ss), cs[c], f[Big(b, ss)..j], c))
    && GoodLow(b, ss, f[Big(b, ss)..cs[ss]])
  }

  /** The members of (c, ss) that a scan finds. */
  lemma {:induction false} PredsInBucket(b: Block, s: seq<nat>, c: byte, ss: byte)
    requires Places(b, s) && forall i {:trigger s[i]} :: 0 <= i < |s| ==> b[s[i]] == ss
    ensures forall i {:trigger Preds(b, s, c)[i]} :: 0 <= i < |Preds(b, s, c)| ==>
      Preds(b, s, c)[i] < |b| && Pairs(b)[Preds(b, s, c)[i]] == PairOf(c, ss)
  {
    var r := Preds(b, s, c);
    forall i {:trigger r[i]} | 0 <= i < |r|
      ensures r[i] < |b| && Pairs(b)[r[i]] == PairOf(c, ss)
    {
      var j := PredsFrom(b, s, c, i);
      assert s[j] == Next(|b|, r[i]);
    }
  }

  /** There is room for one more: they are all different. */
  lemma {:induction false} RoomLeft(b: Block, x: seq<nat>, c: byte, ss: byte)
    requires Distinct(x) && Places(b, x) && forall i {:trigger x[i]} :: 0 <= i < |x| ==> b[x[i]] == ss
    ensures |Preds(b, x, c)| <= Hi(b, c, ss) - Lo(b, c, ss)
  {
    PredsDistinct(b, x, c);
    PredsInBucket(b, x, c, ss);
    AtMostCount(Pairs(b), PairOf(c, ss), Preds(b, x, c));
    LoHi(b, c, ss);
  }

  lemma {:induction false} PartOfGood(b: Block, ss: byte, x: seq<nat>, m: nat)
    requires GoodLow(b, ss, x) && m <= |x|
    ensures GoodLow(b, ss, x[..m]) && Places(b, x[..m])
  {
  }

  /** An index in a big bucket outside of its small bucket (ss, ss), or in a done row, still holds what it held. */
  lemma {:induction false} RowKept(b: Block, ss: byte, done: seq<bool>, f0: seq<nat>, f: seq<nat>, t: byte, k: nat)
    requires Kept(b, ss, done, f0, f) && t != ss && From(b, PairOf(ss, t)) <= k < From(b, PairOf(ss, t) + 1)
    ensures k < |f| && f[k] == f0[k] && f[k] < |b| && b[f[k]] == ss && b[Next(|b|, f[k])] == t
  {
    InBucket(b, f0, k, PairOf(ss, t));
    assert f[k] == f0[k];
    assert PairOf(b[f0[k]], b[Next(|b|, f0[k])]) == PairOf(ss, t);
  }

  /** The second byte of an entry of the big bucket tells on which side of (ss, ss) it is. */
  lemma {:induction false} Sides(b: Block, ss: byte, done: seq<bool>, f0: seq<nat>, f: seq<nat>, k: nat)
    requires Kept(b, ss, done, f0, f) && Big(b, ss) <= k < Big(b, ss + 1)
    ensures k < |f| && f0[k] < |b| && b[f0[k]] == ss
    ensures k < Lo(b, ss, ss) ==> f[k] == f0[k] && b[Next(|b|, f[k])] < ss
    ensures k >= Hi(b, ss, ss) ==> f[k] == f0[k] && b[Next(|b|, f[k])] > ss
  {
    var v := Pairs(b)[f0[k]];
    var c, t := b[f0[k]], b[Next(|b|, f0[k])];
    assert v == PairOf(c, t);
    if c < ss {
      FromMonotone(b, v + 1, 256 * ss);
    } else if c > ss {
      FromMonotone(b, 256 * (ss + 1), v);
    }
    if t < ss {
      FromMonotone(b, v + 1, PairOf(ss, ss));
    } else if t > ss {
      FromMonotone(b, PairOf(ss, ss) + 1, v);
    } else {
      LoHi(b, ss, ss);
    }
    assert f[k] == f0[k] || v % 256 == ss;
  }

  lemma {:induction false} PredsLast(b: Block, f: seq<nat>, s: nat, j: nat)
    requires s <= j < |f| && Places(b, f[s..j]) && Places(b, f[s..j + 1]) && f[j] < |b|
    ensures forall c: byte {:trigger Preds(b, f[s..j + 1], c)} {:trigger Preds(b, f[s..j], c)} ::
              Preds(b, f[s..j + 1], c) == Preds(b, f[s..j], c)
                + (if b[Prev(|b|, f[j])] == c then [Prev(|b|, f[j])] else [])
  {
    assert f[s..j + 1][..j - s] == f[s..j];
  }

  lemma {:induction false} FirstPart(f: seq<nat>, s: nat, j: nat, m: nat)
    requires s <= j <= m <= |f|
    ensures f[s..m][..j - s] == f[s..j]
  {
  }

  /** What the entry at j calls for, and where it goes. */
  lemma {:induction false} LeftRoom(b: Block, ss: byte, done: seq<bool>, f0: seq<nat>, f: seq<nat>, cs: seq<nat>,
      j: nat)
    requires LeftOk(b, ss, done, f0, f, cs, j) && j < cs[ss]
    ensures j < |f| && f[j] < |b| && b[f[j]] == ss && Low(b, ss, f[j])
    ensures var s := Big(b, ss);
      && Places(b, f[s..j]) && Places(b, f[s..j + 1])
      && forall c: byte {:trigger Preds(b, f[s..j + 1], c)} {:trigger Preds(b, f[s..j], c)} ::
           Preds(b, f[s..j + 1], c) == Preds(b, f[s..j], c)
             + (if b[Prev(|b|, f[j])] == c then [Prev(|b|, f[j])] else [])
    ensures var c := b[Prev(|b|, f[j])]; !done[c] ==> cs[c] < Hi(b, c, ss)
  {
    hide Low, KeysSorted, Distinct, Kept, Preds, Lo, Hi, Big;
    LoHi(b, ss, ss);
    var s := Big(b, ss);
    var x := f[s..cs[ss]];
    assert x[j - s] == f[j];
    FirstPart(f, s, j + 1, cs[ss]);
    FirstPart(f, s, j, cs[ss]);
    PartOfGood(b, ss, x, j + 1 - s);
    PartOfGood(b, ss, x, j - s);
    PredsLast(b, f, s, j);
    var c := b[Prev(|b|, f[j])];
    RoomLeft(b, f[s..j + 1], c, ss);
    if !done[c] {
      assert Fills(b, f, Lo(b, c, ss), cs[c], f[s..j], c);
    }
  }

  /** Where small bucket (c, ss) lies when seen from the big bucket ss: outside of it, or at its middle. */
  lemma {:induction false} SmallOutside(b: Block, c: nat, ss: byte)
    ensures c < ss ==> Hi(b, c, ss) <= Big(b, ss)
    ensures c > ss ==> Big(b, ss + 1) <= Lo(b, c, ss)
    ensures c == ss ==> Big(b, ss) <= Lo(b, c, ss) && Hi(b, c, ss) <= Big(b, ss + 1)
  {
    LoHi(b, c, ss);
    if c < ss {
      BigApart(b, c, ss);
    } else if c > ss {
      BigApart(b, ss, c);
    }
  }

  lemma {:induction false} SmallApart(b: Block, c: nat, d: nat, ss: byte)
    requires c < d
    ensures Hi(b, c, ss) <= Lo(b, d, ss)
  {
    LoHi(b, c, ss);
    LoHi(b, d, ss);
    BigApart(b, c, d);
  }

  /** Writing within an open small bucket keeps the rest. */
  lemma {:induction false} KeptWrite(b: Block, ss: byte, done: seq<bool>, f0: seq<nat>, f: seq<nat>, c: byte, i: nat,
      k: nat)
    requires Kept(b, ss, done, f0, f) && !done[c] && Lo(b, c, ss) <= i < Hi(b, c, ss)
    ensures i < |f| && Kept(b, ss, done, f0, f[i := k])
  {
    InBucket(b, f0, i, PairOf(c, ss));
  }

  /** A new entry for (ss, ss) differs from the entry m of the scanned stretch, and is no smaller. */
  lemma {:induction false} NewIsLater(b: Block, ss: byte, done: seq<bool>, f0: seq<nat>, f: seq<nat>, cs: seq<nat>,
      j: nat, p: nat)
    requires LeftOk(b, ss, done, f0, f, cs, j) && j < cs[ss] && f[j] < |b| && b[Prev(|b|, f[j])] == ss && |b| >= 2
    requires Big(b, ss) <= p < cs[ss] && b[f[j]] == ss
    ensures f[p] < |b| && f[p] != Prev(|b|, f[j]) && Key(b, f[p], |b|) <= Key(b, Prev(|b|, f[j]), |b|)
  {
    hide Low, Kept, Preds, Key, GoodLow, LeftOk, Fills, Lo, Hi, Big, Next, Prev;
    LeftFill(b, ss, done, f0, f, cs, j);
    var s, k := Big(b, ss), Prev(|b|, f[j]);
    LoHi(b, ss, ss);
    PrevNext(|b|, f[j]);
    if p < Lo(b, ss, ss) {
      Sides(b, ss, done, f0, f, p);
      PairDecides(b, f[p], k);
    } else {
      FilledFrom(b, f, Lo(b, ss, ss), cs[ss], s, j, ss, p);
      var i :| s <= i < j && f[i] < |b| && f[p] == Prev(|b|, f[i]);
      GoodAt(b, ss, f, s, cs[ss], i, j);
      PrevNext(|b|, f[i]);
      BackOrder(b, f[p], k);
    }
  }

  lemma {:induction false} LeftFill(b: Block, ss: byte, done: seq<bool>, f0: seq<nat>, f: seq<nat>, cs: seq<nat>,
      j: nat)
    requires LeftOk(b, ss, done, f0, f, cs, j)
    ensures Kept(b, ss, done, f0, f) && |cs| == 256 && |f| == |b| && Big(b, ss) <= j <= cs[ss] <= |f|
      && cs[ss] <= Hi(b, ss, ss)
    ensures Fills(b, f, Lo(b, ss, ss), cs[ss], f[Big(b, ss)..j], ss) && GoodLow(b, ss, f[Big(b, ss)..cs[ss]])
  {
  }

  lemma {:induction false} GoodAt(b: Block, ss: byte, f: seq<nat>, s: nat, e: nat, i: nat, j: nat)
    requires s <= i < j < e <= |f| && GoodLow(b, ss, f[s..e])
    ensures f[i] < |b| && f[j] < |b| && f[i] != f[j] && Key(b, f[i], |b|) <= Key(b, f[j], |b|)
  {
    hide Low, Key;
    var x := f[s..e];
    assert x[i - s] == f[i] && x[j - s] == f[j];
  }

  lemma {:induction false} GoodSnoc(b: Block, ss: byte, done: seq<bool>, f0: seq<nat>, f: seq<nat>, cs: seq<nat>,
      j: nat)
    requires LeftOk(b, ss, done, f0, f, cs, j) && j < cs[ss] && f[j] < |b| && b[Prev(|b|, f[j])] == ss && |b| >= 2
    ensures GoodLow(b, ss, f[Big(b, ss)..cs[ss]] + [Prev(|b|, f[j])])
  {
    hide Low, Kept, Key, LeftOk;
    LeftGood(b, ss, done, f0, f, cs, j);
    var s := Big(b, ss);
    var x, k := f[s..cs[ss]], Prev(|b|, f[j]);
    assert x[j - s] == f[j];
    PrevNext(|b|, f[j]);
    LowBack(b, ss, k);
    forall m {:trigger x[m]} | 0 <= m < |x|
      ensures x[m] != k && Key(b, x[m], |b|) <= Key(b, k, |b|)
    {
      assert x[m] == f[s + m];
      NewIsLater(b, ss, done, f0, f, cs, j, s + m);
    }
  }

  lemma {:induction false} LeftGood(b: Block, ss: byte, done: seq<bool>, f0: seq<nat>, f: seq<nat>, cs: seq<nat>,
      j: nat)
    requires LeftOk(b, ss, done, f0, f, cs, j)
    ensures |cs| == 256 && Big(b, ss) <= j <= cs[ss] <= |f| && GoodLow(b, ss, f[Big(b, ss)..cs[ss]])
  {
  }

  /** A filled entry precedes a scanned one. */
  lemma {:induction false} FilledFrom(b: Block, f: seq<nat>, lo: nat, hi: nat, s: nat, j: nat, c: byte, p: nat)
    requires s <= j <= |f| && Fills(b, f, lo, hi, f[s..j], c) && lo <= p < hi
    ensures exists i :: s <= i < j && f[i] < |b| && f[p] == Prev(|b|, f[i])
    ensures b[f[p]] == c
  {
    var sc := f[s..j];
    assert f[lo..hi][p - lo] == f[p];
    var i := PredsFrom(b, sc, c, p - lo);
    assert sc[i] == f[s + i];
  }

  /** One step of the left scan. */
  lemma {:induction false} LeftStep(b: Block, ss: byte, done: seq<bool>, f0: seq<nat>, f: seq<nat>, cs: seq<nat>,
      j: nat)
    requires LeftOk(b, ss, done, f0, f, cs, j) && j < cs[ss] && |b| >= 2
    ensures f[j] < |b|
    ensures var k := Prev(|b|, f[j]); var c := b[k];
      if done[c] then LeftOk(b, ss, done, f0, f, cs, j + 1)
      else cs[c] < |f| && cs[c] < Hi(b, c, ss) && LeftOk(b, ss, done, f0, f[cs[c] := k], cs[c := cs[c] + 1], j + 1)
  {
    hide Kept, GoodLow, Preds, Low;
    LeftRoom(b, ss, done, f0, f, cs, j);
    var s, k := Big(b, ss), Prev(|b|, f[j]);
    var c := b[k];
    if done[c] {
      forall d {:trigger cs[d]} | 0 <= d < 256 && !done[d]
        ensures Fills(b, f, Lo(b, d, ss), cs[d], f[s..j + 1], d)
      {
        assert Fills(b, f, Lo(b, d, ss), cs[d], f[s..j], d);
        assert Preds(b, f[s..j + 1], d) == Preds(b, f[s..j], d) + [];
      }
    } else {
      LeftWrite(b, ss, done, f0, f, cs, j);
    }
  }

  lemma {:induction false} LeftWrite(b: Block, ss: byte, done: seq<bool>, f0: seq<nat>, f: seq<nat>, cs: seq<nat>,
      j: nat)
    requires LeftOk(b, ss, done, f0, f, cs, j) && j < cs[ss] && |b| >= 2 && f[j] < |b| && !done[b[Prev(|b|, f[j])]]
    ensures var k := Prev(|b|, f[j]); var c := b[k];
      cs[c] < |f| && LeftOk(b, ss, done, f0, f[cs[c] := k], cs[c := cs[c] + 1], j + 1)
  {
    hide Kept, GoodLow, Preds, Low, Lo, Hi, Big, Prev;
    LeftRoom(b, ss, done, f0, f, cs, j);
    var s, k := Big(b, ss), Prev(|b|, f[j]);
    var c := b[k];
    var i := cs[c];
    KeptWrite(b, ss, done, f0, f, c, i, k);
    var g, cs' := f[i := k], cs[c := i + 1];
    SmallOutside(b, c, ss);
    SmallOutside(b, ss, ss);
    assert g[s..j + 1] == f[s..j + 1];
    forall d {:trigger cs'[d]} | 0 <= d < 256 && !done[d]
      ensures Fills(b, g, Lo(b, d, ss), cs'[d], g[s..j + 1], d)
    {
      assert Fills(b, f, Lo(b, d, ss), cs[d], f[s..j], d);
      if d == c {
        assert g[Lo(b, c, ss)..i + 1] == f[Lo(b, c, ss)..i] + [k];
      } else {
        if d < c {
          SmallApart(b, d, c, ss);
        } else {
          SmallApart(b, c, d, ss);
        }
        assert g[Lo(b, d, ss)..cs[d]] == f[Lo(b, d, ss)..cs[d]];
        assert Preds(b, f[s..j + 1], d) == Preds(b, f[s..j], d) + [];
      }
    }
    if c == ss {
      GoodSnoc(b, ss, done, f0, f, cs, j);
      assert g[s..cs'[ss]] == f[s..cs[ss]] + [k];
    } else {
      assert g[s..cs'[ss]] == f[s..cs[ss]];
    }
  }

  /** The small buckets (ss, t) are sorted, except (ss, ss). */
  ghost predicate RowSorted(b: Block, f: seq<nat>, ss: byte) {
    forall t: byte {:trigger PairOf(ss, t)} :: t != ss ==>
      Sorted(f, Keys(b), From(b, PairOf(ss, t)), From(b, PairOf(ss, t) + 1) - 1)
  }

  /** On either side of (ss, ss) the big bucket is in order. */
  lemma {:induction false} RowOrder(b: Block, ss: byte, done: seq<bool>, f0: seq<nat>, f: seq<nat>, p: nat, q: nat)
    requires Kept(b, ss, done, f0, f) && RowSorted(b, f0, ss) && |b| >= 2
    requires Big(b, ss) <= p < q < Big(b, ss + 1) && (q < Lo(b, ss, ss) || p >= Hi(b, ss, ss))
    ensures f[p] < |b| && f[q] < |b| && f[p] != f[q] && Key(b, f[p], |b|) <= Key(b, f[q], |b|)
  {
    hide Adv, Big, Count, From;
    LoHi(b, ss, ss);
    Sides(b, ss, done, f0, f, p);
    Sides(b, ss, done, f0, f, q);
    assert f[p] == f0[p] && f[q] == f0[q];
    var t, u := b[Next(|b|, f[p])], b[Next(|b|, f[q])];
    assert Pairs(b)[f[p]] == PairOf(ss, t) && Pairs(b)[f[q]] == PairOf(ss, u);
    if t < u {
      PairDecides(b, f[p], f[q]);
    } else if u < t {
      FromMonotone(b, PairOf(ss, u) + 1, PairOf(ss, t));
    } else {
      assert Le(f0, Keys(b), p, q);
    }
  }

  lemma {:induction false} LeftStart(b: Block, ss: byte, done: seq<bool>, f0: seq<nat>, cs: seq<nat>)
    requires Housed(b, f0) && |done| == |cs| == 256 && !done[ss] && RowSorted(b, f0, ss) && |b| >= 2
    requires forall c {:trigger cs[c]} :: 0 <= c < 256 ==> cs[c] == Lo(b, c, ss)
    ensures LeftOk(b, ss, done, f0, f0, cs, Big(b, ss))
  {
    hide RowSorted, Low, Key, Housed;
    LoHi(b, ss, ss);
    assert Kept(b, ss, done, f0, f0) by { HousedSize(b, f0); }
    var s := Big(b, ss);
    var x := f0[s..cs[ss]];
    forall c {:trigger cs[c]} | 0 <= c < 256
      ensures Lo(b, c, ss) <= cs[c] <= Hi(b, c, ss) && Fills(b, f0, Lo(b, c, ss), cs[c], f0[s..s], c)
    {
      LoHi(b, c, ss);
      HousedSize(b, f0);
      assert f0[Lo(b, c, ss)..cs[c]] == [] && f0[s..s] == [];
    }
    forall i {:trigger x[i]} | 0 <= i < |x|
      ensures x[i] < |b| && b[x[i]] == ss && Low(b, ss, x[i])
    {
      Sides(b, ss, done, f0, f0, s + i);
      TwoTell(b, ss, x[i]);
    }
    forall i, j {:trigger x[i], x[j]} | 0 <= i < j < |x|
      ensures x[i] != x[j] && Key(b, x[i], |b|) <= Key(b, x[j], |b|)
    {
      RowOrder(b, ss, done, f0, f0, s + i, s + j);
    }
  }

  lemma {:induction false} HousedSize(b: Block, f: seq<nat>)
    requires Housed(b, f)
    ensures |f| == |b|
  {
  }

  // ----- from the right

  ghost predicate RightOk(b: Block, ss: byte, done: seq<bool>, f0: seq<nat>, f: seq<nat>, cs: seq<nat>, ce: seq<int>,
      j: int) {
    && Kept(b, ss, done, f0, f) && |cs| == |ce| == |done| == 256 && !done[ss]
    && Big(b, ss) <= cs[ss] <= ce[ss] + 1 <= j + 1 <= Big(b, ss + 1)
    && (forall c {:trigger cs[c]} {:trigger ce[c]} :: 0 <= c < 256 ==>
      Lo(b, c, ss) <= cs[c] <= ce[c] + 1 <= Hi(b, c, ss))
    && (forall c {:trigger cs[c]} {:trigger ce[c]} :: 0 <= c < 256 && !done[c] ==>
          && Fills(b, f, Lo(b, c, ss), cs[c], f[Big(b, ss)..cs[ss]], c)
          && Fills(b, f, ce[c] + 1, Hi(b, c, ss), f[j + 1..Big(b, ss + 1)], c))
    && GoodLow(b, ss, f[Big(b, ss)..cs[ss]]) && GoodHigh(b, ss, f[ce[ss] + 1..Big(b, ss + 1)])
  }

  lemma {:induction false} HighAbove(b: Block, ss: byte, done: seq<bool>, f0: seq<nat>, f: seq<nat>, k: nat)
    requires Kept(b, ss, done, f0, f) && Hi(b, ss, ss) <= k < Big(b, ss + 1) && |b| >= 2
    ensures k < |f| && f[k] < |b| && b[f[k]] == ss && High(b, ss, f[k])
  {
    hide High, Kept, Lo, Hi, Big, Next;
    LoHi(b, ss, ss);
    Sides(b, ss, done, f0, f, k);
    TwoTell(b, ss, f[k]);
  }

  lemma {:induction false} AllHighAbove(b: Block, ss: byte, done: seq<bool>, f0: seq<nat>, f: seq<nat>, y: seq<nat>)
    requires Kept(b, ss, done, f0, f) && |b| >= 2
    requires Hi(b, ss, ss) <= Big(b, ss + 1) <= |f| && y == f[Hi(b, ss, ss)..Big(b, ss + 1)]
    ensures forall i {:trigger y[i]} :: 0 <= i < |y| ==> y[i] < |b| && b[y[i]] == ss && High(b, ss, y[i])
  {
    hide High, Kept, Hi, Big;
    forall i {:trigger y[i]} | 0 <= i < |y|
      ensures y[i] < |b| && b[y[i]] == ss && High(b, ss, y[i])
    {
      HighAbove(b, ss, done, f0, f, Hi(b, ss, ss) + i);
    }
  }

  lemma {:induction false} SortedAbove(b: Block, ss: byte, done: seq<bool>, f0: seq<nat>, f: seq<nat>, y: seq<nat>)
    requires Kept(b, ss, done, f0, f) && RowSorted(b, f0, ss) && |b| >= 2
    requires Big(b, ss) <= Hi(b, ss, ss) <= Big(b, ss + 1) <= |f| && y == f[Hi(b, ss, ss)..Big(b, ss + 1)]
    ensures Distinct(y) && KeysSorted(b, y)
  {
    hide RowSorted, Key, Kept, Lo, Hi, Big;
    forall i {:trigger y[i]} | 0 <= i < |y|
      ensures y[i] < |b|
    {
      HighAbove(b, ss, done, f0, f, Hi(b, ss, ss) + i);
    }
    forall i, k {:trigger y[i], y[k]} | 0 <= i < k < |y|
      ensures y[i] != y[k] && Key(b, y[i], |b|) <= Key(b, y[k], |b|)
    {
      RowOrder(b, ss, done, f0, f, Hi(b, ss, ss) + i, Hi(b, ss, ss) + k);
    }
  }

  /** What lies above (ss, ss) in its row is in order and leads upwards. */
  lemma {:induction false} RowAbove(b: Block, ss: byte, done: seq<bool>, f0: seq<nat>, f: seq<nat>)
    requires Kept(b, ss, done, f0, f) && RowSorted(b, f0, ss) && |b| >= 2
    ensures Big(b, ss) <= Hi(b, ss, ss) <= Big(b, ss + 1) <= |f| && GoodHigh(b, ss, f[Hi(b, ss, ss)..Big(b, ss + 1)])
  {
    hide RowSorted, High, Kept, Lo, Hi, Big, KeysSorted, Distinct;
    LoHi(b, ss, ss);
    BigFits(b, ss, done, f0, f);
    var y := f[Hi(b, ss, ss)..Big(b, ss + 1)];
    AllHighAbove(b, ss, done, f0, f, y);
    SortedAbove(b, ss, done, f0, f, y);
  }

  lemma {:induction false} BigFits(b: Block, ss: byte, done: seq<bool>, f0: seq<nat>, f: seq<nat>)
    requires Kept(b, ss, done, f0, f)
    ensures Big(b, ss + 1) <= |f| == |b|
  {
    hide Pairs;
  }

  /** Nothing scanned fills nothing. */
  lemma {:induction false} NothingFills(b: Block, f: seq<nat>, at: nat, e: nat, c: nat)
    requires at <= |f| && e <= |f|
    ensures Fills(b, f, at, at, f[e..e], c)
  {
    assert f[at..at] == [] && f[e..e] == [];
  }

  lemma {:induction false} RightStart(b: Block, ss: byte, done: seq<bool>, f0: seq<nat>, f: seq<nat>, cs: seq<nat>,
      ce: seq<int>)
    requires |cs| == 256 && LeftOk(b, ss, done, f0, f, cs, cs[ss]) && RowSorted(b, f0, ss) && |b| >= 2 && |ce| == 256
    requires forall c {:trigger ce[c]} :: 0 <= c < 256 ==> ce[c] == Hi(b, c, ss) - 1
    ensures RightOk(b, ss, done, f0, f, cs, ce, Big(b, ss + 1) - 1)
  {
    hide RowSorted, Kept, GoodLow, GoodHigh, Fills, Lo, Hi, Big;
    LoHi(b, ss, ss);
    LeftGood(b, ss, done, f0, f, cs, cs[ss]);
    KeptSize(b, ss, done, f0, f);
    RowAbove(b, ss, done, f0, f);
    assert ce[ss] + 1 == Hi(b, ss, ss);
    forall c {:trigger cs[c]} {:trigger ce[c]} | 0 <= c < 256
      ensures Lo(b, c, ss) <= cs[c] <= ce[c] + 1 <= Hi(b, c, ss)
      ensures Fills(b, f, ce[c] + 1, Hi(b, c, ss), f[Big(b, ss + 1)..Big(b, ss + 1)], c)
    {
      LoHi(b, c, ss);
      NothingFills(b, f, Hi(b, c, ss), Big(b, ss + 1), c);
    }
  }

  lemma {:induction false} KeptSize(b: Block, ss: byte, done: seq<bool>, f0: seq<nat>, f: seq<nat>)
    requires Kept(b, ss, done, f0, f)
    ensures |f| == |b| && |done| == 256
  {
  }

  /** What the two scans give for (c, ss) is all different. */
  lemma {:induction false} BothDistinct(b: Block, ss: byte, x: seq<nat>, y: seq<nat>, c: byte)
    requires GoodLow(b, ss, x) && GoodHigh(b, ss, y)
    ensures Places(b, x) && Places(b, y) && Distinct(Preds(b, x, c) + Preds(b, y, c))
    ensures |Preds(b, x, c)| + |Preds(b, y, c)| <= Hi(b, c, ss) - Lo(b, c, ss)
  {
    hide Low, High, Key;
    PredsDistinct(b, x, c);
    PredsDistinct(b, y, c);
    var p, r := Preds(b, x, c), Preds(b, y, c);
    forall i, k {:trigger p[i], r[k]} | 0 <= i < |p| && 0 <= k < |r|
      ensures p[i] != r[k]
    {
      var i' := PredsFrom(b, x, c, i);
      var k' := PredsFrom(b, y, c, k);
      LowBelowHigh(b, ss, x[i'], y[k']);
    }
    PredsInBucket(b, x, c, ss);
    PredsInBucket(b, y, c, ss);
    AtMostCount(Pairs(b), PairOf(c, ss), p + r);
    LoHi(b, c, ss);
  }

  lemma {:induction false} EndOfGood(b: Block, ss: byte, f: seq<nat>, s: nat, e: nat, m: nat)
    requires s <= m <= e <= |f| && GoodHigh(b, ss, f[s..e])
    ensures GoodHigh(b, ss, f[m..e]) && Places(b, f[m..e])
  {
    hide High, Key;
    assert f[m..e] == f[s..e][m - s..];
  }

  lemma {:induction false} PredsFirst(b: Block, f: seq<nat>, j: nat, e: nat)
    requires j < e <= |f| && Places(b, f[j..e]) && Places(b, f[j + 1..e]) && f[j] < |b|
    ensures forall c: byte {:trigger Preds(b, f[j..e], c)} {:trigger Preds(b, f[j + 1..e], c)} ::
              Preds(b, f[j..e], c) == (if b[Prev(|b|, f[j])] == c then [Prev(|b|, f[j])] else [])
                + Preds(b, f[j + 1..e], c)
  {
    assert f[j..e] == [f[j]] + f[j + 1..e];
    forall c: byte {:trigger Preds(b, f[j..e], c)} {:trigger Preds(b, f[j + 1..e], c)}
      ensures Preds(b, f[j..e], c) == (if b[Prev(|b|, f[j])] == c then [Prev(|b|, f[j])] else [])
        + Preds(b, f[j + 1..e], c)
    {
      PredsConcat(b, [f[j]], f[j + 1..e], c);
      PredsOne(b, f[j], c);
    }
  }

  lemma {:induction false} PredsOne(b: Block, x: nat, c: byte)
    requires x < |b|
    ensures Preds(b, [x], c) == if b[Prev(|b|, x)] == c then [Prev(|b|, x)] else []
  {
    assert [x][..0] == [];
  }

  lemma {:induction false} RightGood(b: Block, ss: byte, done: seq<bool>, f0: seq<nat>, f: seq<nat>, cs: seq<nat>,
      ce: seq<int>, j: int)
    requires RightOk(b, ss, done, f0, f, cs, ce, j)
    ensures |cs| == |ce| == |done| == 256 && |f| == |b| && Big(b, ss) <= cs[ss] <= ce[ss] + 1 <= j + 1 <= Big(b, ss + 1)
    ensures GoodLow(b, ss, f[Big(b, ss)..cs[ss]]) && GoodHigh(b, ss, f[ce[ss] + 1..Big(b, ss + 1)])
  {
  }

  lemma {:induction false} RightFill(b: Block, ss: byte, done: seq<bool>, f0: seq<nat>, f: seq<nat>, cs: seq<nat>,
      ce: seq<int>, j: int, d: nat)
    requires RightOk(b, ss, done, f0, f, cs, ce, j) && d < 256
    ensures |cs| == |ce| == |done| == 256 && |f| == |b| && Kept(b, ss, done, f0, f) && !done[ss]
    ensures Big(b, ss) <= cs[ss] <= ce[ss] + 1 <= j + 1 <= Big(b, ss + 1)
      && Lo(b, d, ss) <= cs[d] <= ce[d] + 1 <= Hi(b, d, ss)
    ensures !done[d] ==> Fills(b, f, Lo(b, d, ss), cs[d], f[Big(b, ss)..cs[ss]], d)
    ensures !done[d] ==> Fills(b, f, ce[d] + 1, Hi(b, d, ss), f[j + 1..Big(b, ss + 1)], d)
  {
    hide Kept, GoodLow, GoodHigh, Fills;
    RightGood(b, ss, done, f0, f, cs, ce, j);
    var x := cs[d];
  }

  lemma {:induction false} RightRoom(b: Block, ss: byte, done: seq<bool>, f0: seq<nat>, f: seq<nat>, cs: seq<nat>,
      ce: seq<int>, j: int)
    requires RightOk(b, ss, done, f0, f, cs, ce, j) && j > ce[ss]
    ensures 0 <= j < |f| && f[j] < |b| && b[f[j]] == ss && High(b, ss, f[j])
    ensures var e := Big(b, ss + 1);
      && Places(b, f[j..e]) && Places(b, f[j + 1..e])
      && forall c: byte {:trigger Preds(b, f[j..e], c)} {:trigger Preds(b, f[j + 1..e], c)} ::
           Preds(b, f[j..e], c) == (if b[Prev(|b|, f[j])] == c then [Prev(|b|, f[j])] else [])
             + Preds(b, f[j + 1..e], c)
    ensures var c := b[Prev(|b|, f[j])]; !done[c] ==> cs[c] <= ce[c]
  {
    hide Low, High, KeysSorted, Distinct, Kept, Preds, RightOk, GoodLow, GoodHigh, Lo, Hi, Big, Prev, Fills, Places;
    RightGood(b, ss, done, f0, f, cs, ce, j);
    var s, e := Big(b, ss), Big(b, ss + 1);
    EndOfGood(b, ss, f, ce[ss] + 1, e, j);
    EndOfGood(b, ss, f, ce[ss] + 1, e, j + 1);
    GoodFirst(b, ss, f, j, e);
    PredsFirst(b, f, j, e);
    var c := b[Prev(|b|, f[j])];
    BothDistinct(b, ss, f[s..cs[ss]], f[j..e], c);
    if !done[c] {
      RightFill(b, ss, done, f0, f, cs, ce, j, c);
      FillLength(b, f, Lo(b, c, ss), cs[c], f[s..cs[ss]], c);
      FillLength(b, f, ce[c] + 1, Hi(b, c, ss), f[j + 1..e], c);
    }
  }

  lemma {:induction false} GoodFirst(b: Block, ss: byte, f: seq<nat>, j: nat, e: nat)
    requires j < e <= |f| && GoodHigh(b, ss, f[j..e])
    ensures f[j] < |b| && b[f[j]] == ss && High(b, ss, f[j])
  {
    hide High, KeysSorted, Distinct;
    assert f[j..e][0] == f[j];
  }

  lemma {:induction false} FillLength(b: Block, f: seq<nat>, lo: nat, hi: nat, scanned: seq<nat>, c: nat)
    requires Fills(b, f, lo, hi, scanned, c)
    ensures lo <= hi <= |f| && Places(b, scanned) && |Preds(b, scanned, c)| == hi - lo
  {
  }

  /** A new entry for (ss, ss) from the right: different from those behind it, and no larger. */
  lemma {:induction false} NewIsEarlier(b: Block, ss: byte, done: seq<bool>, f0: seq<nat>, f: seq<nat>, cs: seq<nat>,
      ce: seq<int>, j: int, p: nat)
    requires RightOk(b, ss, done, f0, f, cs, ce, j) && j > ce[ss] && f[j] < |b| && b[Prev(|b|, f[j])] == ss && |b| >= 2
    requires |ce| == 256 && ce[ss] < p < Big(b, ss + 1) && b[f[j]] == ss
    ensures p < |f| && f[p] < |b| && f[p] != Prev(|b|, f[j]) && Key(b, Prev(|b|, f[j]), |b|) <= Key(b, f[p], |b|)
  {
    hide Low, High, Kept, Preds, Key, GoodLow, GoodHigh, RightOk, Fills, Lo, Hi, Big, Next, Prev;
    RightGood(b, ss, done, f0, f, cs, ce, j);
    RightFill(b, ss, done, f0, f, cs, ce, j, ss);
    var e, k := Big(b, ss + 1), Prev(|b|, f[j]);
    LoHi(b, ss, ss);
    PrevNext(|b|, f[j]);
    if p >= Hi(b, ss, ss) {
      Sides(b, ss, done, f0, f, p);
      PairDecides(b, k, f[p]);
    } else {
      FilledFrom(b, f, ce[ss] + 1, Hi(b, ss, ss), j + 1, e, ss, p);
      var i :| j + 1 <= i < e && f[i] < |b| && f[p] == Prev(|b|, f[i]);
      HighAt(b, ss, f, ce[ss] + 1, e, j, i);
      PrevNext(|b|, f[i]);
      BackOrder(b, k, f[p]);
    }
  }

  lemma {:induction false} HighAt(b: Block, ss: byte, f: seq<nat>, s: nat, e: nat, i: nat, j: nat)
    requires s <= i < j < e <= |f| && GoodHigh(b, ss, f[s..e])
    ensures f[i] < |b| && f[j] < |b| && f[i] != f[j] && Key(b, f[i], |b|) <= Key(b, f[j], |b|)
  {
    hide High, Key;
    var x := f[s..e];
    assert x[i - s] == f[i] && x[j - s] == f[j];
  }

  lemma {:induction false} GoodCons(b: Block, ss: byte, done: seq<bool>, f0: seq<nat>, f: seq<nat>, cs: seq<nat>,
      ce: seq<int>, j: int)
    requires RightOk(b, ss, done, f0, f, cs, ce, j) && j > ce[ss] && f[j] < |b| && b[Prev(|b|, f[j])] == ss && |b| >= 2
    ensures GoodHigh(b, ss, [Prev(|b|, f[j])] + f[ce[ss] + 1..Big(b, ss + 1)])
  {
    hide High, Kept, Key, RightOk;
    RightGood(b, ss, done, f0, f, cs, ce, j);
    var s, e := ce[ss] + 1, Big(b, ss + 1);
    var y, k := f[s..e], Prev(|b|, f[j]);
    assert y[j - s] == f[j];
    PrevNext(|b|, f[j]);
    HighBack(b, ss, k);
    forall m {:trigger y[m]} | 0 <= m < |y|
      ensures y[m] != k && Key(b, k, |b|) <= Key(b, y[m], |b|)
    {
      assert y[m] == f[s + m];
      NewIsEarlier(b, ss, done, f0, f, cs, ce, j, s + m);
    }
  }

  /** One step of the right scan. */
  lemma {:induction false} RightStep(b: Block, ss: byte, done: seq<bool>, f0: seq<nat>, f: seq<nat>, cs: seq<nat>,
      ce: seq<int>, j: int)
    requires RightOk(b, ss, done, f0, f, cs, ce, j) && j > ce[ss] && |b| >= 2
    ensures 0 <= j < |f| && f[j] < |b|
    ensures var k := Prev(|b|, f[j]); var c := b[k];
      if done[c] then RightOk(b, ss, done, f0, f, cs, ce, j - 1)
      else 0 <= ce[c] < |f| && RightOk(b, ss, done, f0, f[ce[c] := k], cs, ce[c := ce[c] - 1], j - 1)
  {
    hide Kept, GoodLow, GoodHigh, Preds, High;
    RightRoom(b, ss, done, f0, f, cs, ce, j);
    KeptSize(b, ss, done, f0, f);
    var s, e, k := Big(b, ss), Big(b, ss + 1), Prev(|b|, f[j]);
    var c := b[k];
    if done[c] {
      forall d {:trigger cs[d]} {:trigger ce[d]} | 0 <= d < 256 && !done[d]
        ensures Fills(b, f, Lo(b, d, ss), cs[d], f[s..cs[ss]], d) && Fills(b, f, ce[d] + 1, Hi(b, d, ss), f[j..e], d)
      {
        RightFill(b, ss, done, f0, f, cs, ce, j, d);
        assert Preds(b, f[j..e], d) == [] + Preds(b, f[j + 1..e], d);
      }
    } else {
      RightWrite(b, ss, done, f0, f, cs, ce, j);
    }
  }

  lemma {:induction false} RightWrite(b: Block, ss: byte, done: seq<bool>, f0: seq<nat>, f: seq<nat>, cs: seq<nat>,
      ce: seq<int>, j: int)
    requires RightOk(b, ss, done, f0, f, cs, ce, j) && j > ce[ss] && |b| >= 2 && 0 <= j < |f| && f[j] < |b|
      && !done[b[Prev(|b|, f[j])]]
    ensures var k := Prev(|b|, f[j]); var c := b[k];
      0 <= ce[c] < |f| && RightOk(b, ss, done, f0, f[ce[c] := k], cs, ce[c := ce[c] - 1], j - 1)
  {
    hide Kept, GoodLow, GoodHigh, Preds, High, Fills, Lo, Hi, Big, Prev;
    RightRoom(b, ss, done, f0, f, cs, ce, j);
    var s, e, k := Big(b, ss), Big(b, ss + 1), Prev(|b|, f[j]);
    var c := b[k];
    var i := ce[c];
    KeptSize(b, ss, done, f0, f);
    KeptWrite(b, ss, done, f0, f, c, i, k);
    var g, ce' := f[i := k], ce[c := i - 1];
    SmallOutside(b, c, ss);
    SmallOutside(b, ss, ss);
    assert g[j..e] == f[j..e];
    assert g[s..cs[ss]] == f[s..cs[ss]];
    forall d {:trigger cs[d]} {:trigger ce'[d]} | 0 <= d < 256 && !done[d]
      ensures Fills(b, g, Lo(b, d, ss), cs[d], g[s..cs[ss]], d) && Fills(b, g, ce'[d] + 1, Hi(b, d, ss), g[j..e], d)
    {
      RightFills(b, ss, done, f0, f, cs, ce, j, d);
    }
    if c == ss {
      GoodCons(b, ss, done, f0, f, cs, ce, j);
      assert g[ce'[ss] + 1..e] == [k] + f[ce[ss] + 1..e];
    } else {
      assert g[ce'[ss] + 1..e] == f[ce[ss] + 1..e];
    }
  }

  lemma {:induction false} RightFills(b: Block, ss: byte, done: seq<bool>, f0: seq<nat>, f: seq<nat>, cs: seq<nat>,
      ce: seq<int>, j: int, d: nat)
    requires RightOk(b, ss, done, f0, f, cs, ce, j) && j > ce[ss] && |b| >= 2 && 0 <= j < |f| && f[j] < |b|
      && !done[b[Prev(|b|, f[j])]]
    requires d < 256 && !done[d]
    ensures var k := Prev(|b|, f[j]); var c := b[k]; var s, e := Big(b, ss), Big(b, ss + 1);
      && 0 <= ce[c] < |f|
      && Fills(b, f[ce[c] := k], Lo(b, d, ss), cs[d], f[s..cs[ss]], d)
      && Fills(b, f[ce[c] := k], ce[c := ce[c] - 1][d] + 1, Hi(b, d, ss), f[j..e], d)
  {
    hide Kept, GoodLow, GoodHigh, Preds, High, RightOk, Big, Distinct, EndsHigh, From;
    RightFill(b, ss, done, f0, f, cs, ce, j, d);
    RightFill(b, ss, done, f0, f, cs, ce, j, b[Prev(|b|, f[j])]);
    RightRoom(b, ss, done, f0, f, cs, ce, j);
    var s, e, k := Big(b, ss), Big(b, ss + 1), Prev(|b|, f[j]);
    var c := b[k];
    var i := ce[c];
    var g := f[i := k];
    if d == c {
      assert g[i..Hi(b, c, ss)] == [k] + f[i + 1..Hi(b, c, ss)];
    } else {
      if d < c {
        SmallApart(b, d, c, ss);
      } else {
        SmallApart(b, c, d, ss);
      }
      assert g[ce[d] + 1..Hi(b, d, ss)] == f[ce[d] + 1..Hi(b, d, ss)];
      assert Preds(b, f[j..e], d) == [] + Preds(b, f[j + 1..e], d);
    }
    assert g[Lo(b, d, ss)..cs[d]] == f[Lo(b, d, ss)..cs[d]];
  }

  // ----- both scans done

  /** Every rotation of the big bucket was scanned, from the left or from the right. */
  lemma {:induction false} Covered(b: Block, ss: byte, done: seq<bool>, f0: seq<nat>, f: seq<nat>, cs: seq<nat>,
      ce: seq<int>, x: nat, m: nat)
    requires |ce| == 256 && RightOk(b, ss, done, f0, f, cs, ce, ce[ss]) && x < |b| && b[x] == ss && 1 <= m
    requires Runs(b, ss, x, m) && b[Adv(|b|, x, m)] != ss
    ensures |cs| == 256 && |f| == |b| && 0 <= ce[ss] + 1 <= Big(b, ss + 1)
    ensures x in f[Big(b, ss)..cs[ss]] || x in f[ce[ss] + 1..Big(b, ss + 1)]
    decreases m
  {
    hide Low, High, Kept, Preds, GoodLow, GoodHigh, RightOk;
    RightFill(b, ss, done, f0, f, cs, ce, ce[ss], ss);
    var y := Next(|b|, x);
    PrevNext(|b|, x);
    if m == 1 {
      assert Adv(|b|, x, 1) == y by {
        assert Adv(|b|, x, 0) == x;
      }
      OuterCovered(b, ss, done, f0, f, cs, ce, x);
    } else {
      RunsFront(b, ss, x, m);
      Covered(b, ss, done, f0, f, cs, ce, y, m - 1);
      LoHi(b, ss, ss);
      if y in f[Big(b, ss)..cs[ss]] {
        FillHits(b, f, Lo(b, ss, ss), cs[ss], f[Big(b, ss)..cs[ss]], ss, y);
        SubSlice(f, Lo(b, ss, ss), cs[ss], Big(b, ss), cs[ss], x);
      } else {
        FillHits(b, f, ce[ss] + 1, Hi(b, ss, ss), f[ce[ss] + 1..Big(b, ss + 1)], ss, y);
        SubSlice(f, ce[ss] + 1, Hi(b, ss, ss), ce[ss] + 1, Big(b, ss + 1), x);
      }
    }
  }

  lemma {:induction false} RunsFront(b: Block, c: nat, x: nat, m: nat)
    requires x < |b| && m > 1 && Runs(b, c, x, m) && b[Adv(|b|, x, m)] != c
    ensures var y := Next(|b|, x); b[y] == c && Runs(b, c, y, m - 1) && b[Adv(|b|, y, m - 1)] != c
  {
    AdvFront(b, x, m - 1);
    forall t: nat {:trigger Adv(|b|, Next(|b|, x), t)} | t < m - 1
      ensures b[Adv(|b|, Next(|b|, x), t)] == c
    {
      AdvFront(b, x, t);
    }
    AdvFront(b, x, 0);
    assert Adv(|b|, Next(|b|, x), 0) == Next(|b|, x);
  }

  lemma {:induction false} FillHits(b: Block, f: seq<nat>, lo: nat, hi: nat, scanned: seq<nat>, c: byte, y: nat)
    requires Fills(b, f, lo, hi, scanned, c) && y in scanned && y < |b| && b[Prev(|b|, y)] == c
    ensures Prev(|b|, y) in f[lo..hi]
  {
    var j :| 0 <= j < |scanned| && scanned[j] == y;
    PredsHits(b, scanned, c, j);
  }

  lemma {:induction false} SubSlice(f: seq<nat>, lo: nat, hi: nat, lo': nat, hi': nat, x: nat)
    requires lo' <= lo <= hi <= hi' <= |f| && x in f[lo..hi]
    ensures x in f[lo'..hi']
  {
    var i :| 0 <= i < hi - lo && f[lo..hi][i] == x;
    assert f[lo'..hi'][lo - lo' + i] == x;
  }

  /** A rotation whose second byte is not ss is where it was, on its side. */
  lemma {:induction false} OuterCovered(b: Block, ss: byte, done: seq<bool>, f0: seq<nat>, f: seq<nat>, cs: seq<nat>,
      ce: seq<int>, x: nat)
    requires |cs| == |ce| == 256 && Kept(b, ss, done, f0, f) && x < |b| && b[x] == ss && b[Next(|b|, x)] != ss
    requires Lo(b, ss, ss) <= cs[ss] <= ce[ss] + 1 <= Hi(b, ss, ss)
    ensures |f| == |b| && Big(b, ss) <= cs[ss] && 0 <= ce[ss] + 1 <= Big(b, ss + 1)
    ensures x in f[Big(b, ss)..cs[ss]] || x in f[ce[ss] + 1..Big(b, ss + 1)]
  {
    hide Count, Distinct, From;
    var t := b[Next(|b|, x)];
    var i := PermutationHits(f0, |b|, x);
    assert f0[i] == x && Pairs(b)[x] == PairOf(ss, t);
    LoHi(b, ss, ss);
    RowKept(b, ss, done, f0, f, t, i);
    if t < ss {
      FromMonotone(b, PairOf(ss, t) + 1, PairOf(ss, ss));
      FromMonotone(b, 256 * ss, PairOf(ss, t));
      assert f[Big(b, ss)..cs[ss]][i - Big(b, ss)] == x;
    } else {
      FromMonotone(b, PairOf(ss, ss) + 1, PairOf(ss, t));
      FromMonotone(b, PairOf(ss, t) + 1, 256 * (ss + 1));
      assert f[ce[ss] + 1..Big(b, ss + 1)][i - (ce[ss] + 1)] == x;
    }
  }

  /** Some byte is not ss. */
  ghost predicate Mixed(b: Block, ss: byte) { exists i :: 0 <= i < |b| && b[i] != ss }

  /** From x on, the first byte that is not ss. */
  lemma {:induction false} RunOf(b: Block, ss: byte, x: nat) returns (m: nat)
    requires x < |b| && b[x] == ss && Mixed(b, ss)
    ensures 1 <= m && Runs(b, ss, x, m) && b[Adv(|b|, x, m)] != ss
  {
    var z :| 0 <= z < |b| && b[z] != ss;
    var far: nat := if x <= z then z - x else z + |b| - x;
    AdvSmall(|b|, x, far);
    assert Adv(|b|, x, 0) == x;
    m := 1;
    while b[Adv(|b|, x, m)] == ss
      invariant 1 <= m && Runs(b, ss, x, m) && far > 0 && b[Adv(|b|, x, far)] != ss && m <= far
      decreases far - m
    {
      m := m + 1;
    }
  }

  lemma {:induction false} FillIs(b: Block, f: seq<nat>, lo: nat, hi: nat, scanned: seq<nat>, c: nat)
    requires Fills(b, f, lo, hi, scanned, c)
    ensures lo <= hi <= |f| && Places(b, scanned) && f[lo..hi] == Preds(b, scanned, c)
  {
  }

  /** A rotation of the small bucket (c, ss) has been filled in, from one side or the other. */
  lemma {:induction false} PairScanned(b: Block, ss: byte, done: seq<bool>, f0: seq<nat>, f: seq<nat>, cs: seq<nat>,
      ce: seq<int>, c: byte, z: nat)
    requires |ce| == 256 && RightOk(b, ss, done, f0, f, cs, ce, ce[ss]) && Mixed(b, ss) && |done| == 256 && !done[c]
    requires z < |b| && Pairs(b)[z] == PairOf(c, ss)
    ensures |cs| == 256 && |f| == |b| && Big(b, ss) <= cs[ss] <= |f| && 0 <= ce[ss] + 1 <= Big(b, ss + 1)
    ensures var x, y := f[Big(b, ss)..cs[ss]], f[ce[ss] + 1..Big(b, ss + 1)];
      Places(b, x) && Places(b, y) && (z in Preds(b, x, c) || z in Preds(b, y, c))
  {
    hide Low, High, Kept, Preds, GoodLow, GoodHigh, RightOk, Runs, Mixed, Lo, Hi, Big, Fills, Places;
    RightFill(b, ss, done, f0, f, cs, ce, ce[ss], c);
    var x, y := f[Big(b, ss)..cs[ss]], f[ce[ss] + 1..Big(b, ss + 1)];
    FillIs(b, f, Lo(b, c, ss), cs[c], x, c);
    FillIs(b, f, ce[c] + 1, Hi(b, c, ss), y, c);
    var w := Next(|b|, z);
    PrevNext(|b|, z);
    assert PairOf(b[z], b[w]) == PairOf(c, ss);
    var m := RunOf(b, ss, w);
    Covered(b, ss, done, f0, f, cs, ce, w, m);
    if w in x {
      FillHits(b, f, Lo(b, c, ss), cs[c], x, c, w);
    } else {
      FillHits(b, f, ce[c] + 1, Hi(b, c, ss), y, c, w);
    }
  }

  /** For each open c, all of (c, ss) has been filled, and the two scans have met. */
  lemma {:induction false} ScansMeet(b: Block, ss: byte, done: seq<bool>, f0: seq<nat>, f: seq<nat>, cs: seq<nat>,
      ce: seq<int>, c: byte)
    requires |ce| == 256 && RightOk(b, ss, done, f0, f, cs, ce, ce[ss]) && Mixed(b, ss) && |done| == 256 && !done[c]
    ensures |cs| == 256 && cs[c] == ce[c] + 1
    ensures |f| == |b| && Places(b, f[Big(b, ss)..cs[ss]]) && 0 <= ce[ss] + 1 <= Big(b, ss + 1)
      && Places(b, f[ce[ss] + 1..Big(b, ss + 1)])
    ensures f[Lo(b, c, ss)..Hi(b, c, ss)] == Preds(b, f[Big(b, ss)..cs[ss]], c)
      + Preds(b, f[ce[ss] + 1..Big(b, ss + 1)], c)
  {
    hide Low, High, Kept, Preds, GoodLow, GoodHigh, RightOk, Runs, Mixed, Lo, Hi, Big, Fills, Places;
    RightFill(b, ss, done, f0, f, cs, ce, ce[ss], c);
    RightFill(b, ss, done, f0, f, cs, ce, ce[ss], ss);
    var x, y := f[Big(b, ss)..cs[ss]], f[ce[ss] + 1..Big(b, ss + 1)];
    FillIs(b, f, Lo(b, c, ss), cs[c], x, c);
    FillIs(b, f, ce[c] + 1, Hi(b, c, ss), y, c);
    var s := Preds(b, x, c) + Preds(b, y, c);
    forall z: nat {:trigger Pairs(b)[z]} | z < |Pairs(b)| && Pairs(b)[z] == PairOf(c, ss)
      ensures z in s
    {
      PairScanned(b, ss, done, f0, f, cs, ce, c, z);
    }
    AtLeastCount(Pairs(b), PairOf(c, ss), s);
    LoHi(b, c, ss);
    assert f[Lo(b, c, ss)..Hi(b, c, ss)] == f[Lo(b, c, ss)..cs[c]] + f[cs[c]..Hi(b, c, ss)];
  }

  /** So each open (c, ss) is sorted, holds its own rotations, and holds none twice. */
  lemma {:induction false} SmallDone(b: Block, ss: byte, done: seq<bool>, f0: seq<nat>, f: seq<nat>, cs: seq<nat>,
      ce: seq<int>, c: byte)
    requires |ce| == 256 && RightOk(b, ss, done, f0, f, cs, ce, ce[ss]) && Mixed(b, ss) && |done| == 256 && !done[c]
    ensures |f| == |b|
    ensures var s := f[Lo(b, c, ss)..Hi(b, c, ss)];
      Distinct(s) && KeysSorted(b, s) && forall i {:trigger s[i]} :: 0 <= i < |s| ==>
        s[i] < |b| && Pairs(b)[s[i]] == PairOf(c, ss)
  {
    hide Low, High, Kept, RightOk, Mixed, Key, Distinct, EndsHigh, EndsLow, Preds, Prev;
    RightGood(b, ss, done, f0, f, cs, ce, ce[ss]);
    ScansMeet(b, ss, done, f0, f, cs, ce, c);
    var x, y := f[Big(b, ss)..cs[ss]], f[ce[ss] + 1..Big(b, ss + 1)];
    BothDistinct(b, ss, x, y, c);
    PredsInBucket(b, x, c, ss);
    PredsInBucket(b, y, c, ss);
    PredsSorted(b, x, c);
    PredsSorted(b, y, c);
    var p, r := Preds(b, x, c), Preds(b, y, c);
    forall i, k {:trigger p[i], r[k]} | 0 <= i < |p| && 0 <= k < |r|
      ensures Key(b, p[i], |b|) <= Key(b, r[k], |b|)
    {
      var i' := PredsFrom(b, x, c, i);
      var k' := PredsFrom(b, y, c, k);
      LowBelowHigh(b, ss, x[i'], y[k']);
      BackOrder(b, p[i], r[k]);
    }
  }

  /** Every place still holds a rotation of its small bucket. */
  lemma {:induction false} SameHouse(b: Block, ss: byte, done: seq<bool>, f0: seq<nat>, f: seq<nat>, cs: seq<nat>,
      ce: seq<int>, i: nat)
    requires |ce| == 256 && RightOk(b, ss, done, f0, f, cs, ce, ce[ss]) && Mixed(b, ss) && Kept(b, ss, done, f0, f)
      && i < |b|
    ensures |f| == |b| && f[i] < |b| && f0[i] < |b| && Pairs(b)[f[i]] == Pairs(b)[f0[i]]
  {
    hide RightOk, Mixed, KeysSorted, Distinct;
    assert f0[i] < |b|;
    var v := Pairs(b)[f0[i]];
    assert v == PairOf(b[f0[i]], b[Next(|b|, f0[i])]);
    if f[i] != f0[i] {
      var c := b[f0[i]];
      SmallDone(b, ss, done, f0, f, cs, ce, c);
      assert f[Lo(b, c, ss)..Hi(b, c, ss)][i - Lo(b, c, ss)] == f[i];
    }
  }

  lemma {:induction false} ScanHoused(b: Block, ss: byte, done: seq<bool>, f0: seq<nat>, f: seq<nat>, cs: seq<nat>,
      ce: seq<int>)
    requires |ce| == 256 && RightOk(b, ss, done, f0, f, cs, ce, ce[ss]) && Mixed(b, ss) && Kept(b, ss, done, f0, f)
    ensures Housed(b, f)
  {
    hide RightOk, Mixed, Kept, Distinct;
    KeptSize(b, ss, done, f0, f);
    forall k {:trigger f[k]} | 0 <= k < |f|
      ensures f[k] < |b| && From(b, Pairs(b)[f[k]]) <= k < From(b, Pairs(b)[f[k]] + 1)
    {
      SameHouse(b, ss, done, f0, f, cs, ce, k);
      KeptHoused(b, ss, done, f0, f, k);
    }
    forall i, k {:trigger f[i], f[k]} | 0 <= i < k < |f|
      ensures f[i] != f[k]
    {
      StillDistinct(b, ss, done, f0, f, cs, ce, i, k);
    }
    assert Distinct(f) by { DistinctFrom(f); }
  }

  lemma {:induction false} DistinctFrom(f: seq<nat>)
    requires forall i, k {:trigger f[i], f[k]} :: 0 <= i < k < |f| ==> f[i] != f[k]
    ensures Distinct(f)
  {
  }

  lemma {:induction false} KeptHoused(b: Block, ss: byte, done: seq<bool>, f0: seq<nat>, f: seq<nat>, k: nat)
    requires Kept(b, ss, done, f0, f) && k < |b|
    ensures |f| == |f0| == |b| && f0[k] < |b| && From(b, Pairs(b)[f0[k]]) <= k < From(b, Pairs(b)[f0[k]] + 1)
  {
    hide Distinct;
  }

  lemma {:induction false} StillDistinct(b: Block, ss: byte, done: seq<bool>, f0: seq<nat>, f: seq<nat>, cs: seq<nat>,
      ce: seq<int>, i: nat, k: nat)
    requires |ce| == 256 && RightOk(b, ss, done, f0, f, cs, ce, ce[ss]) && Mixed(b, ss) && Kept(b, ss, done, f0, f)
      && i < k < |b|
    ensures |f| == |b| && f[i] != f[k]
  {
    hide RightOk, Mixed, KeysSorted, Kept;
    SameHouse(b, ss, done, f0, f, cs, ce, i);
    SameHouse(b, ss, done, f0, f, cs, ce, k);
    KeptHoused(b, ss, done, f0, f, i);
    KeptHoused(b, ss, done, f0, f, k);
    KeptSize(b, ss, done, f0, f);
    var c, t := b[f[i]], b[Next(|b|, f[i])];
    assert Pairs(b)[f[i]] == PairOf(c, t);
    if Pairs(b)[f[i]] == Pairs(b)[f[k]] {
      if t == ss && !done[c] {
        SmallDone(b, ss, done, f0, f, cs, ce, c);
        var s := f[Lo(b, c, ss)..Hi(b, c, ss)];
        assert s[i - Lo(b, c, ss)] == f[i] && s[k - Lo(b, c, ss)] == f[k];
      } else {
        KeptThere(b, ss, done, f0, f, i);
        KeptThere(b, ss, done, f0, f, k);
        KeptDistinct(b, ss, done, f0, f, i, k);
      }
    }
  }

  lemma {:induction false} KeptThere(b: Block, ss: byte, done: seq<bool>, f0: seq<nat>, f: seq<nat>, k: nat)
    requires Kept(b, ss, done, f0, f) && k < |b| && f0[k] < |b|
      && (Pairs(b)[f0[k]] % 256 != ss || done[Pairs(b)[f0[k]] / 256])
    ensures |f| == |b| && f[k] == f0[k]
  {
  }

  lemma {:induction false} KeptDistinct(b: Block, ss: byte, done: seq<bool>, f0: seq<nat>, f: seq<nat>, i: nat, k: nat)
    requires Kept(b, ss, done, f0, f) && i < k < |b|
    ensures |f0| == |b| && f0[i] != f0[k]
  {
  }

  lemma {:induction false} SortedSlice(b: Block, f: seq<nat>, lo: nat, hi: nat)
    requires lo <= hi <= |f| && KeysSorted(b, f[lo..hi])
    ensures Sorted(f, Keys(b), lo, hi - 1)
  {
    var s := f[lo..hi];
    forall i, k {:trigger Le(f, Keys(b), i, k)} | lo <= i < k <= hi - 1
      ensures Le(f, Keys(b), i, k)
    {
      assert s[i - lo] == f[i] && s[k - lo] == f[k];
    }
  }
}
