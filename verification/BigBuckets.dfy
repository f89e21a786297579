/**
 * What mainSort's pointer scanning relies on. The rotations that start with a byte ss, in
 * order, give those that precede them by one byte in order; so once the big bucket of ss is
 * sorted, every small bucket (c, ss) can be filled without comparing.
 */
module BigBuckets {
  import opened Prelude
  import opened Buckets
  import opened Rotations
  import opened BwtInverse
  import opened FallbackQuickSort
  import opened MainCompare

  function PairOf(c: byte, d: byte): (p: nat)
    ensures p < 65536 && p / 256 == c && p % 256 == d
  {
    var high: nat := c;
    256 * high + d
  }

  /** The first two bytes of every rotation. */
  function Pairs(b: Block): (p: seq<nat>)
    ensures |p| == |b|
    ensures forall i {:trigger p[i]} :: 0 <= i < |b| ==> p[i] == PairOf(b[i], b[Next(|b|, i)])
  {
    seq(|b|, i requires 0 <= i < |b| => PairOf(b[i], b[Next(|b|, i)]))
  }

  /** Where the small bucket v, or the big bucket 256 * c, begins. */
  function From(b: Block, v: nat): (s: nat)
    ensures s <= |b|
  {
    FromBelow(b, v);
    Start(Pairs(b), v)
  }

  lemma {:induction false} FromBelow(b: Block, v: nat)
    ensures Start(Pairs(b), v) <= |b| && Start(Pairs(b), 65536) == |b|
  {
    StartTotal(Pairs(b), 65536);
    if v <= 65536 {
      StartMonotone(Pairs(b), v, 65536);
    } else {
      StartTotal(Pairs(b), v);
    }
  }

  lemma {:induction false} FromMonotone(b: Block, v: nat, w: nat)
    requires v <= w
    ensures From(b, v) <= From(b, w)
    ensures From(b, v + 1) == From(b, v) + Count(Pairs(b), v, |b|)
  {
    StartMonotone(Pairs(b), v, w);
  }

  /** A permutation with every rotation in its small bucket. */
  ghost predicate Housed(b: Block, f: seq<nat>) {
    && IsPermutation(f, |b|)
    && forall k {:trigger f[k]} :: 0 <= k < |f| ==>
      f[k] < |b| && From(b, Pairs(b)[f[k]]) <= k < From(b, Pairs(b)[f[k]] + 1)
  }

  /** An entry between the ends of bucket v is in it. */
  lemma {:induction false} InBucket(b: Block, f: seq<nat>, k: nat, v: nat)
    requires Housed(b, f) && From(b, v) <= k < From(b, v + 1)
    ensures k < |f| && f[k] < |b| && Pairs(b)[f[k]] == v
  {
    var w := Pairs(b)[f[k]];
    if w < v {
      FromMonotone(b, w + 1, v);
    } else if v < w {
      FromMonotone(b, v + 1, w);
    }
  }

  /** Rotations of different small buckets are in the order of the buckets. */
  lemma {:induction false} PairDecides(b: Block, x: nat, y: nat)
    requires x < |b| && y < |b| && Pairs(b)[x] < Pairs(b)[y] && |b| >= 2
    ensures Key(b, x, |b|) < Key(b, y, |b|)
  {
    assert Key(b, x, 0) == Key(b, y, 0) && Adv(|b|, x, 0) == x && Adv(|b|, y, 0) == y;
    if b[x] < b[y] {
      ByteDecides(b, y, x, 0);
    } else {
      assert b[x] == b[y];
      assert Key(b, x, 1) == b[x] && Key(b, y, 1) == b[y];
      assert Adv(|b|, x, 1) == Next(|b|, x) && Adv(|b|, y, 1) == Next(|b|, y);
      ByteDecides(b, y, x, 1);
    }
  }

  // ----- one byte back

  lemma {:induction false} PrevNext(n: nat, x: nat)
    requires x < n
    ensures Prev(n, Next(n, x)) == x && Next(n, Prev(n, x)) == x
  {
  }

  /** Order one byte on is order, after equal bytes. */
  lemma {:induction false} BackOrder(b: Block, x: nat, y: nat)
    requires x < |b| && y < |b| && b[x] == b[y] && Key(b, Next(|b|, x), |b|) <= Key(b, Next(|b|, y), |b|)
    ensures Key(b, x, |b|) <= Key(b, y, |b|)
  {
    assert Key(b, x, 1) == b[x] && Key(b, y, 1) == b[y] by {
      assert Key(b, x, 0) == Key(b, y, 0) == 0 && Adv(|b|, x, 0) == x && Adv(|b|, y, 0) == y;
    }
    assert Adv(|b|, x, 1) == Next(|b|, x) && Adv(|b|, y, 1) == Next(|b|, y) by {
      assert Adv(|b|, x, 0) == x && Adv(|b|, y, 0) == y;
    }
    OrderCarries(b, y, x, 1);
  }

  /** The rotations one byte back from those in s that begin with c, in the order of s. */
  function Preds(b: Block, s: seq<nat>, c: nat): (r: seq<nat>)
    requires forall i {:trigger s[i]} :: 0 <= i < |s| ==> s[i] < |b|
    ensures |r| <= |s|
    ensures forall i {:trigger r[i]} :: 0 <= i < |r| ==> r[i] < |b| && b[r[i]] == c
  {
    if s == [] then []
    else
      var m := |s| - 1;
      var k := Prev(|b|, s[m]);
      Preds(b, s[..m], c) + if b[k] == c then [k] else []
  }

  ghost predicate Places(b: Block, s: seq<nat>) {
    forall i {:trigger s[i]} :: 0 <= i < |s| ==> s[i] < |b|
  }

  lemma {:induction false} PredsConcat(b: Block, s: seq<nat>, t: seq<nat>, c: nat)
    requires Places(b, s) && Places(b, t)
    ensures Places(b, s + t) && Preds(b, s + t, c) == Preds(b, s, c) + Preds(b, t, c)
    decreases |t|
  {
    if t == [] {
      assert s + t == s;
    } else {
      var m := |t| - 1;
      PredsConcat(b, s, t[..m], c);
      assert (s + t)[..|s + t| - 1] == s + t[..m];
    }
  }

  /** Each of them comes from an entry, in order. */
  lemma {:induction false} PredsFrom(b: Block, s: seq<nat>, c: nat, i: nat) returns (j: nat)
    requires Places(b, s) && i < |Preds(b, s, c)|
    ensures j < |s| && Preds(b, s, c)[i] == Prev(|b|, s[j]) && s[j] == Next(|b|, Preds(b, s, c)[i])
  {
    var m := |s| - 1;
    if i < |Preds(b, s[..m], c)| {
      j := PredsFrom(b, s[..m], c, i);
    } else {
      j := m;
    }
    PrevNext(|b|, s[j]);
  }

  /** And each entry gives one, if the byte before it is c. */
  lemma {:induction false} PredsHits(b: Block, s: seq<nat>, c: nat, j: nat)
    requires Places(b, s) && j < |s| && b[Prev(|b|, s[j])] == c
    ensures Prev(|b|, s[j]) in Preds(b, s, c)
  {
    var m := |s| - 1;
    if j < m {
      PredsHits(b, s[..m], c, j);
    }
  }

  lemma {:induction false} PredsDistinct(b: Block, s: seq<nat>, c: nat)
    requires Places(b, s) && Distinct(s)
    ensures Distinct(Preds(b, s, c))
  {
    if s != [] {
      var m := |s| - 1;
      PredsDistinct(b, s[..m], c);
      var r, k := Preds(b, s[..m], c), Prev(|b|, s[m]);
      forall i {:trigger r[i]} | 0 <= i < |r|
        ensures r[i] != k
      {
        var j := PredsFrom(b, s[..m], c, i);
        PrevNext(|b|, s[m]);
        assert s[j] != s[m];
      }
    }
  }

  ghost predicate KeysSorted(b: Block, s: seq<nat>) {
    Places(b, s) && forall i, j {:trigger s[i], s[j]} :: 0 <= i < j < |s| ==> Key(b, s[i], |b|) <= Key(b, s[j], |b|)
  }

  lemma {:induction false} PredsSorted(b: Block, s: seq<nat>, c: nat)
    requires KeysSorted(b, s)
    ensures KeysSorted(b, Preds(b, s, c))
  {
    hide Adv;
    if s != [] {
      var m := |s| - 1;
      PredsSorted(b, s[..m], c);
      var r, k := Preds(b, s[..m], c), Prev(|b|, s[m]);
      forall i {:trigger r[i]} | 0 <= i < |r| && b[k] == c
        ensures Key(b, r[i], |b|) <= Key(b, k, |b|)
      {
        var j := PredsFrom(b, s[..m], c, i);
        PrevNext(|b|, s[m]);
        assert Key(b, s[j], |b|) <= Key(b, s[m], |b|);
        BackOrder(b, r[i], k);
      }
    }
  }

  // ----- below and above an endless run of one byte

  /** m bytes c, and then a smaller one. */
  ghost predicate EndsLow(b: Block, c: nat, x: nat, m: nat) {
    x < |b| && m < |b| && Runs(b, c, x, m) && b[Adv(|b|, x, m)] < c
  }

  ghost predicate EndsHigh(b: Block, c: nat, x: nat, m: nat) {
    x < |b| && m < |b| && Runs(b, c, x, m) && b[Adv(|b|, x, m)] > c
  }

  ghost predicate Runs(b: Block, c: nat, x: nat, m: nat)
    requires x < |b|
  {
    forall t: nat {:trigger Adv(|b|, x, t)} :: t < m ==> b[Adv(|b|, x, t)] == c
  }

  ghost predicate Low(b: Block, c: nat, x: nat) { exists m: nat :: EndsLow(b, c, x, m) }
  ghost predicate High(b: Block, c: nat, x: nat) { exists m: nat :: EndsHigh(b, c, x, m) }

  lemma {:induction false} RunsKey(b: Block, c: nat, x: nat, y: nat, m: nat)
    requires x < |b| && y < |b| && Runs(b, c, x, m) && Runs(b, c, y, m)
    ensures Key(b, x, m) == Key(b, y, m)
  {
    if m > 0 {
      RunsKey(b, c, x, y, m - 1);
      assert b[Adv(|b|, x, m - 1)] == c && b[Adv(|b|, y, m - 1)] == c;
    }
  }

  lemma {:induction false} LowBelowHigh(b: Block, c: nat, x: nat, y: nat)
    requires Low(b, c, x) && High(b, c, y)
    ensures Key(b, x, |b|) < Key(b, y, |b|)
  {
    var m: nat :| EndsLow(b, c, x, m);
    var k: nat :| EndsHigh(b, c, y, k);
    var t := if m < k then m else k;
    RunsKey(b, c, x, y, t);
    assert b[Adv(|b|, x, t)] < b[Adv(|b|, y, t)];
    ByteDecides(b, y, x, t);
  }

  /** One byte c in front changes nothing of that. */
  lemma {:induction false} RunsLonger(b: Block, c: nat, x: nat, m: nat)
    requires x < |b| && b[x] == c && Runs(b, c, Next(|b|, x), m)
    ensures Runs(b, c, x, m + 1) && Adv(|b|, x, m + 1) == Adv(|b|, Next(|b|, x), m)
  {
    AdvFront(b, x, m);
    forall t: nat {:trigger Adv(|b|, x, t)} | t < m + 1
      ensures b[Adv(|b|, x, t)] == c
    {
      if t > 0 {
        AdvFront(b, x, t - 1);
      }
    }
  }

  lemma {:induction false} AdvFront(b: Block, x: nat, m: nat)
    requires x < |b|
    ensures Adv(|b|, x, m + 1) == Adv(|b|, Next(|b|, x), m)
  {
    assert Adv(|b|, x, 1) == Next(|b|, x) by {
      assert Adv(|b|, x, 0) == x;
    }
    AdvAdd(|b|, x, 1, m);
  }

  lemma {:induction false} LowBack(b: Block, c: nat, x: nat)
    requires x < |b| && b[x] == c && Low(b, c, Next(|b|, x))
    ensures Low(b, c, x)
  {
    var m: nat :| EndsLow(b, c, Next(|b|, x), m);
    RunsLonger(b, c, x, m);
    if m + 1 == |b| {
      AdvSmall(|b|, x, |b|);
    }
    assert EndsLow(b, c, x, m + 1);
  }

  lemma {:induction false} HighBack(b: Block, c: nat, x: nat)
    requires x < |b| && b[x] == c && High(b, c, Next(|b|, x))
    ensures High(b, c, x)
  {
    var m: nat :| EndsHigh(b, c, Next(|b|, x), m);
    RunsLonger(b, c, x, m);
    if m + 1 == |b| {
      AdvSmall(|b|, x, |b|);
    }
    assert EndsHigh(b, c, x, m + 1);
  }

  /** Two bytes already tell. */
  lemma {:induction false} TwoTell(b: Block, c: nat, x: nat)
    requires x < |b| && b[x] == c && |b| >= 2
    ensures b[Next(|b|, x)] < c ==> Low(b, c, x)
    ensures b[Next(|b|, x)] > c ==> High(b, c, x)
  {
    assert Adv(|b|, x, 0) == x && Adv(|b|, x, 1) == Next(|b|, x);
    if b[Next(|b|, x)] < c {
      assert EndsLow(b, c, x, 1);
    } else if b[Next(|b|, x)] > c {
      assert EndsHigh(b, c, x, 1);
    }
  }

  // ----- counting the members of a small bucket

  /** Distinct members of bucket v are at most as many as it has. */
  lemma {:induction false} AtMostCount(p: seq<nat>, v: nat, s: seq<nat>)
    requires Distinct(s) && forall i {:trigger s[i]} :: 0 <= i < |s| ==> s[i] < |p| && p[s[i]] == v
    ensures |s| <= Count(p, v, |p|)
  {
    DistinctSet(s);
    MembersCounted(p, v, |p|);
    SubsetSize(ToSet(s), Members(p, v, |p|));
  }

  /** If s has all of them, it is at least as long. */
  lemma {:induction false} AtLeastCount(p: seq<nat>, v: nat, s: seq<nat>)
    requires forall x: nat {:trigger p[x]} :: x < |p| && p[x] == v ==> x in s
    ensures |s| >= Count(p, v, |p|)
  {
    MembersCounted(p, v, |p|);
    SubsetSize(Members(p, v, |p|), ToSet(s));
    SetOfSeq(s);
  }

  lemma {:induction false} SetOfSeq(s: seq<nat>)
    ensures |ToSet(s)| <= |s|
  {
    if s != [] {
      var t, x := s[..|s| - 1], s[|s| - 1];
      SetOfSeq(t);
      assert ToSet(s) == ToSet(t) + {x};
    }
  }

  function Members(p: seq<nat>, v: nat, n: nat): (m: set<nat>)
    requires n <= |p|
    ensures forall x: nat :: x in m <==> x < n && p[x] == v
  {
    if n == 0 then {}
    else
      var k: nat := n - 1;
      Members(p, v, k) + if p[k] == v then {k} else {}
  }

  lemma {:induction false} MembersCounted(p: seq<nat>, v: nat, n: nat)
    requires n <= |p|
    ensures |Members(p, v, n)| == Count(p, v, n)
  {
    if n > 0 {
      MembersCounted(p, v, n - 1);
    }
  }
}
