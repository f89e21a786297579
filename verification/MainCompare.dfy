/**
 * mainGtU: two rotations compared through the block with its overshoot and the quadrants,
 * which remember the order of what is already sorted.
 */
module MainCompare {
  import opened Prelude
  import opened Rotations
  import opened BwtInverse

  const OVERSHOOT := 34
  const UNROLLED := 12

  /** Whole rotations as keys. */
  function Keys(b: Block): (k: seq<nat>)
    ensures |k| == |b| && forall i {:trigger k[i]} :: 0 <= i < |b| ==> k[i] == Key(b, i, |b|)
  {
    seq(|b|, i requires 0 <= i < |b| => Key(b, i, |b|))
  }

  /** An index into block and overshoot, as a place in the block. */
  function Place(n: nat, i: nat): (p: nat)
    requires i < n + OVERSHOOT && OVERSHOOT < n
    ensures p < n
  {
    if i < n then i else i - n
  }

  /** a holds the values of v, and the first of them once more behind them. */
  ghost predicate Extends(a: seq<nat>, v: seq<nat>) {
    OVERSHOOT < |v| && |v| + OVERSHOOT <= |a|
    && forall i: nat {:trigger a[i]} :: i < |v| + OVERSHOOT ==> a[i] == v[Place(|v|, i)]
  }

  /** Where two equal bytes have different quadrants, the quadrants tell the order of the rotations there. */
  ghost predicate Quadrants(b: Block, q: seq<nat>) {
    |q| == |b| && forall i, j {:trigger q[i], q[j]} :: 0 <= i < |b| && 0 <= j < |b| && b[i] == b[j] && q[i] < q[j] ==>
      Key(b, i, |b|) <= Key(b, j, |b|)
  }

  lemma {:induction false} PlaceNext(n: nat, i: nat)
    requires OVERSHOOT < n && i + 1 < n + OVERSHOOT
    ensures Place(n, i + 1) == Next(n, Place(n, i))
  {
  }

  /** Behind a common prefix, the order there is the order of the whole rotations. */
  lemma {:induction false} OrderCarries(b: Block, p1: nat, p2: nat, t: nat)
    requires p1 < |b| && p2 < |b| && Key(b, p1, t) == Key(b, p2, t)
    requires Key(b, Adv(|b|, p2, t), |b|) <= Key(b, Adv(|b|, p1, t), |b|)
    ensures Key(b, p2, |b|) <= Key(b, p1, |b|)
  {
    var n := |b|;
    if t <= n {
      KeyCompare(b, Adv(n, p1, t), Adv(n, p2, t), n - t, t);
      KeyCompare(b, Adv(n, p2, t), Adv(n, p1, t), n - t, t);
      KeyCompare(b, p1, p2, t, n - t);
      KeyCompare(b, p2, p1, t, n - t);
    } else {
      KeyCompare(b, p1, p2, n, t - n);
    }
  }

  /** The first differing byte decides. */
  lemma {:induction false} ByteDecides(b: Block, p1: nat, p2: nat, t: nat)
    requires p1 < |b| && p2 < |b| && Key(b, p1, t) == Key(b, p2, t)
    requires b[Adv(|b|, p2, t)] < b[Adv(|b|, p1, t)]
    ensures Key(b, p2, |b|) <= Key(b, p1, |b|) && (t < |b| ==> Key(b, p2, |b|) < Key(b, p1, |b|))
  {
    var n := |b|;
    if t < n {
      KeyCompare(b, p2, p1, t + 1, n - t - 1);
    } else {
      KeyCompare(b, p1, p2, n, t - n);
    }
  }

  lemma {:induction false} EqualLong(b: Block, p1: nat, p2: nat, t: nat)
    requires p1 < |b| && p2 < |b| && t >= |b| && Key(b, p1, t) == Key(b, p2, t)
    ensures Key(b, p1, |b|) == Key(b, p2, |b|)
  {
    KeyCompare(b, p1, p2, |b|, t - |b|);
  }

  /** What a comparison that says gt tells of the rotations at i1 and i2. */
  ghost predicate Tells(b: Block, gt: bool, i1: nat, i2: nat)
    requires OVERSHOOT < |b| && i1 < |b| + OVERSHOOT && i2 < |b| + OVERSHOOT
  {
    var k1, k2 := Key(b, Place(|b|, i1), |b|), Key(b, Place(|b|, i2), |b|);
    if gt then k2 <= k1 else k1 <= k2
  }

  /** t bytes on from p1 and p2, all equal so far, the indices are i1 and i2. */
  ghost predicate Alike(b: Block, p1: nat, p2: nat, t: nat, i1: nat, i2: nat) {
    && OVERSHOOT < |b| && p1 < |b| && p2 < |b| && i1 < |b| + OVERSHOOT && i2 < |b| + OVERSHOOT
    && Key(b, p1, t) == Key(b, p2, t)
    && Place(|b|, i1) == Adv(|b|, p1, t) && Place(|b|, i2) == Adv(|b|, p2, t)
  }

  lemma {:induction false} AlikeStep(b: Block, p1: nat, p2: nat, t: nat, i1: nat, i2: nat)
    requires Alike(b, p1, p2, t, i1, i2) && b[Place(|b|, i1)] == b[Place(|b|, i2)]
    ensures i1 + 1 < |b| + OVERSHOOT && i2 + 1 < |b| + OVERSHOOT ==> Alike(b, p1, p2, t + 1, i1 + 1, i2 + 1)
    ensures Key(b, p1, t + 1) == Key(b, p2, t + 1)
    ensures Next(|b|, Place(|b|, i1)) == Adv(|b|, p1, t + 1) && Next(|b|, Place(|b|, i2)) == Adv(|b|, p2, t + 1)
  {
    if i1 + 1 < |b| + OVERSHOOT && i2 + 1 < |b| + OVERSHOOT {
      PlaceNext(|b|, i1);
      PlaceNext(|b|, i2);
    }
  }

  /** Two bytes compared: equal, or decided. */
  lemma {:induction false} ByteTells(b: Block, p1: nat, p2: nat, t: nat, i1: nat, i2: nat)
    requires Alike(b, p1, p2, t, i1, i2) && b[Place(|b|, i1)] != b[Place(|b|, i2)]
    ensures Tells(b, b[Place(|b|, i1)] > b[Place(|b|, i2)], p1, p2)
  {
    if b[Place(|b|, i1)] > b[Place(|b|, i2)] {
      ByteDecides(b, p1, p2, t);
    } else {
      ByteDecides(b, p2, p1, t);
    }
  }

  /** Two quadrants compared behind equal bytes: equal, or decided. */
  lemma {:induction false} QuadrantTells(b: Block, q: seq<nat>, p1: nat, p2: nat, t: nat, i1: nat, i2: nat)
    requires Alike(b, p1, p2, t, i1, i2) && b[Place(|b|, i1)] == b[Place(|b|, i2)] && Quadrants(b, q)
    requires q[Place(|b|, i1)] != q[Place(|b|, i2)]
    ensures Tells(b, q[Place(|b|, i1)] > q[Place(|b|, i2)], p1, p2)
  {
    if q[Place(|b|, i1)] > q[Place(|b|, i2)] {
      OrderCarries(b, p1, p2, t);
    } else {
      OrderCarries(b, p2, p1, t);
    }
  }

  /** The twelve comparisons by byte alone. */
  method CompareBytes(block: array<byte>, i1: nat, i2: nat, ghost b: Block) returns (decided: bool, gt: bool)
    requires Extends(block[..], b) && i1 + UNROLLED < |b| + OVERSHOOT && i2 + UNROLLED < |b| + OVERSHOOT
    ensures decided ==> Tells(b, gt, i1, i2) && Key(b, Place(|b|, i1), UNROLLED) != Key(b, Place(|b|, i2), UNROLLED)
    ensures !decided ==> Alike(b, Place(|b|, i1), Place(|b|, i2), UNROLLED, i1 + UNROLLED, i2 + UNROLLED)
  {
    hide Key, Adv, Place;
    ghost var p1, p2 := Place(|b|, i1), Place(|b|, i2);
    AlikeStart(b, i1, i2);
    for t := 0 to UNROLLED
      invariant Alike(b, p1, p2, t, i1 + t, i2 + t)
    {
      var c1, c2 := block[i1 + t], block[i2 + t];
      assert c1 == block[..][i1 + t] && c2 == block[..][i2 + t];
      if c1 != c2 {
        ByteTells(b, p1, p2, t, i1 + t, i2 + t);
        TellsPlaces(b, c1 > c2, i1, i2);
        ByteParts(b, p1, p2, t, i1 + t, i2 + t, UNROLLED);
        return true, c1 > c2;
      }
      AlikeStep(b, p1, p2, t, i1 + t, i2 + t);
    }
    decided, gt := false, false;
  }

  lemma {:induction false} AlikeStart(b: Block, i1: nat, i2: nat)
    requires OVERSHOOT < |b| && i1 < |b| + OVERSHOOT && i2 < |b| + OVERSHOOT
    ensures Alike(b, Place(|b|, i1), Place(|b|, i2), 0, i1, i2)
  {
  }

  lemma {:induction false} TellsPlaces(b: Block, gt: bool, i1: nat, i2: nat)
    requires OVERSHOOT < |b| && i1 < |b| + OVERSHOOT && i2 < |b| + OVERSHOOT
    requires Tells(b, gt, Place(|b|, i1), Place(|b|, i2))
    ensures Tells(b, gt, i1, i2)
  {
  }

  /** Behind a byte that differs nothing is common any more. */
  lemma {:induction false} ByteParts(b: Block, p1: nat, p2: nat, t: nat, i1: nat, i2: nat, m: nat)
    requires Alike(b, p1, p2, t, i1, i2) && b[Place(|b|, i1)] != b[Place(|b|, i2)] && t < m
    ensures Key(b, p1, m) != Key(b, p2, m)
  {
    if Key(b, p1, m) == Key(b, p2, m) {
      SharedLess(b, p1, p2, m, t + 1);
    }
  }

  /** From s0 up to s1 bytes on, the quadrants agree. */
  ghost predicate SameQuads(b: Block, q: seq<nat>, p1: nat, p2: nat, s0: nat, s1: nat) {
    && |q| == |b| && p1 < |b| && p2 < |b|
    && forall s: nat {:trigger Adv(|b|, p1, s)} {:trigger Adv(|b|, p2, s)} :: s0 <= s < s1 ==>
      q[Adv(|b|, p1, s)] == q[Adv(|b|, p2, s)]
  }

  /** Twelve bytes and then m groups of eight agree, the latter in their quadrants too. */
  ghost predicate Groups(b: Block, q: seq<nat>, p1: nat, p2: nat, m: nat) {
    && p1 < |b| && p2 < |b| && Key(b, p1, UNROLLED + 8 * m) == Key(b, p2, UNROLLED + 8 * m)
    && SameQuads(b, q, p1, p2, UNROLLED, UNROLLED + 8 * m)
  }

  lemma {:induction false} GroupsNone(b: Block, q: seq<nat>, p1: nat, p2: nat, m: nat)
    requires p1 < |b| && p2 < |b| && Key(b, p1, UNROLLED) != Key(b, p2, UNROLLED)
    ensures !Groups(b, q, p1, p2, m)
  {
    if Groups(b, q, p1, p2, m) {
      SharedLess(b, p1, p2, UNROLLED + 8 * m, UNROLLED);
    }
  }

  lemma {:induction false} GroupsMore(b: Block, q: seq<nat>, p1: nat, p2: nat, m: nat)
    requires Groups(b, q, p1, p2, m)
    ensures var t := UNROLLED + 8 * m;
      Groups(b, q, p1, p2, m + 1) <==> Key(b, p1, t + 8) == Key(b, p2, t + 8) && SameQuads(b, q, p1, p2, t, t + 8)
  {
    hide Key;
  }

  /** Eight comparisons by byte and quadrant, and the step back into the block. */
  method CompareEight(block: array<byte>, quadrant: array<nat>, nblock: nat, j1: nat, j2: nat,
                      ghost b: Block, ghost q: seq<nat>, ghost p1: nat, ghost p2: nat, ghost t0: nat)
    returns (decided: bool, gt: bool, k1: nat, k2: nat)
    requires Extends(block[..], b) && Extends(quadrant[..], q) && Quadrants(b, q) && nblock == |b|
    requires j1 + 8 <= |b| + OVERSHOOT && j2 + 8 <= |b| + OVERSHOOT && Alike(b, p1, p2, t0, j1, j2)
    ensures decided ==>
      Tells(b, gt, p1, p2) && (Key(b, p1, t0 + 8) == Key(b, p2, t0 + 8) ==> !SameQuads(b, q, p1, p2, t0, t0 + 8))
    ensures !decided ==> k1 < |b| && k2 < |b| && Alike(b, p1, p2, t0 + 8, k1, k2) && SameQuads(b, q, p1, p2, t0, t0 + 8)
    ensures !decided ==> Key(b, p1, t0 + 8) == Key(b, p2, t0 + 8)
  {
    hide Key, Adv, Quadrants, Tells;
    decided, gt, k1, k2 := false, false, j1, j2;
    QuadrantsSized(b, q);
    for s := 0 to 8
      invariant k1 == j1 + s && k2 == j2 + s && Key(b, p1, t0 + s) == Key(b, p2, t0 + s)
      invariant s < 8 ==> Alike(b, p1, p2, t0 + s, k1, k2)
      invariant SameQuads(b, q, p1, p2, t0, t0 + s)
      invariant s == 8 ==>
        Next(|b|, Place(|b|, k1 - 1)) == Adv(|b|, p1, t0 + 8) && Next(|b|, Place(|b|, k2 - 1)) == Adv(|b|, p2, t0 + 8)
    {
      var c1, c2 := block[k1], block[k2];
      assert c1 == block[..][k1] && c2 == block[..][k2];
      if c1 != c2 {
        ByteTells(b, p1, p2, t0 + s, k1, k2);
        ByteParts(b, p1, p2, t0 + s, k1, k2, t0 + 8);
        return true, c1 > c2, k1, k2;
      }
      var s1, s2 := quadrant[k1], quadrant[k2];
      assert s1 == quadrant[..][k1] && s2 == quadrant[..][k2];
      if s1 != s2 {
        QuadrantTells(b, q, p1, p2, t0 + s, k1, k2);
        return true, s1 > s2, k1, k2;
      }
      AlikeStep(b, p1, p2, t0 + s, k1, k2);
      k1, k2 := k1 + 1, k2 + 1;
    }
    if k1 >= nblock {
      k1 := k1 - nblock;
    }
    if k2 >= nblock {
      k2 := k2 - nblock;
    }
  }

  lemma {:induction false} QuadrantsSized(b: Block, q: seq<nat>)
    requires Quadrants(b, q)
    ensures |q| == |b|
  {
  }

  /** x and y are different places of the cyclic block where the same 20 bytes begin. */
  ghost predicate RepeatsAt(b: Block, x: nat, y: nat) { x < |b| && y < |b| && x != y
      && Key(b, x, UNROLLED + 8) == Key(b, y, UNROLLED + 8) }

  ghost predicate Repetitive(b: Block) { exists x: nat, y: nat :: RepeatsAt(b, x, y) }

  /**
   * mainGtU: greater or equal if it says so, less or equal if not; equal rotations may
   * come out either way once their quadrants differ. The budget pays for each group of eight
   * that agrees, up to once around the block, and for nothing else.
   */
  method MainGtU(block: array<byte>, quadrant: array<nat>, nblock: nat, i1: nat, i2: nat, budget0: int, ghost b: Block,
      ghost q: seq<nat>)
    returns (gt: bool, budget: int)
    requires Extends(block[..], b) && Extends(quadrant[..], q) && Quadrants(b, q) && nblock == |b|
    requires i1 < |b| + 15 && i2 < |b| + 15
    ensures Tells(b, gt, i1, i2) && budget <= budget0
    ensures budget < budget0 ==> Groups(b, q, Place(|b|, i1), Place(|b|, i2), budget0 - budget)
    ensures 8 * (budget0 - budget) <= nblock + 8 ==> !Groups(b, q, Place(|b|, i1), Place(|b|, i2), budget0 - budget + 1)
  {
    hide Key, Adv, Quadrants, Extends, Alike, Tells, Groups, SameQuads;
    budget := budget0;
    var decided;
    SizesOf(block[..], b);
    QuadrantsSized(b, q);
    decided, gt := CompareBytes(block, i1, i2, b);
    ghost var p1: nat, p2: nat, t: nat := Place(nblock, i1), Place(nblock, i2), UNROLLED;
    if decided {
      GroupsNone(b, q, p1, p2, 1);
      return;
    }
    NoGroups(b, q, p1, p2, i1 + UNROLLED, i2 + UNROLLED);
    var j1: nat, j2: nat := i1 + UNROLLED, i2 + UNROLLED;
    var k: int := nblock + 8;
    while true
      invariant j1 + 8 <= nblock + OVERSHOOT && j2 + 8 <= nblock + OVERSHOOT
      invariant Alike(b, p1, p2, t, j1, j2) && k + t == nblock + 20 && k % 8 == (nblock + 8) % 8
      invariant budget <= budget0 && k >= 0 && t == UNROLLED + 8 * (budget0 - budget)
        && Groups(b, q, p1, p2, budget0 - budget)
      decreases k
    {
      GroupsMore(b, q, p1, p2, budget0 - budget);
      decided, gt, j1, j2 := CompareEight(block, quadrant, nblock, j1, j2, b, q, p1, p2, t);
      if decided {
        TellsPlaces(b, gt, i1, i2);
        return;
      }
      t := t + 8;
      k := k - 8;
      budget := budget - 1;
      if k < 0 {
        break;
      }
    }
    AlikeLong(b, p1, p2, t, j1, j2);
    TellsPlaces(b, false, i1, i2);
    gt := false;
  }

  lemma {:induction false} NoGroups(b: Block, q: seq<nat>, p1: nat, p2: nat, i1: nat, i2: nat)
    requires Alike(b, p1, p2, UNROLLED, i1, i2) && |q| == |b|
    ensures Groups(b, q, p1, p2, 0)
  {
  }

  /** A common group tells of a longer common beginning. */
  lemma {:induction false} GroupsRepeat(b: Block, q: seq<nat>, p1: nat, p2: nat, m: nat)
    requires Groups(b, q, p1, p2, m) && m > 0 && p1 != p2
    ensures Repetitive(b)
  {
    hide Key;
    SharedLess(b, p1, p2, UNROLLED + 8 * m, UNROLLED + 8);
    assert RepeatsAt(b, p1, p2);
  }

  /** Longer common beginnings have equal first parts. */
  lemma {:induction false} SharedLess(b: Block, x: nat, y: nat, t: nat, m: nat)
    requires x < |b| && y < |b| && Key(b, x, t) == Key(b, y, t) && m <= t
    ensures Key(b, x, m) == Key(b, y, m)
  {
    KeyCompare(b, x, y, m, t - m);
    KeyCompare(b, y, x, m, t - m);
  }

  lemma {:induction false} SizesOf(a: seq<nat>, v: seq<nat>)
    requires Extends(a, v)
    ensures OVERSHOOT < |v| && |v| + OVERSHOOT <= |a|
  {
  }

  lemma {:induction false} AlikeLong(b: Block, p1: nat, p2: nat, t: nat, i1: nat, i2: nat)
    requires Alike(b, p1, p2, t, i1, i2) && t >= |b|
    ensures Tells(b, false, p1, p2)
  {
    EqualLong(b, p1, p2, t);
  }
}
