/**
 * Joining the two lightest trees, again and again, gives the cheapest code there is: no lengths
 * that a prefix code can have weigh less. The argument goes backwards: any lengths for the trees
 * in hand can be changed, at no cost, to put the two lightest side by side at the bottom.
 */
module HuffmanOptimal {
  import opened Prelude
  import opened HuffmanForest
  import HuffmanCodes

  // ----- what is to be shown

  /** The total of the lengths, each as often as its weight says. */
  function Weighted(f: seq<nat>, l: seq<nat>): nat
    requires |f| == |l|
  {
    if f == [] then 0 else Weighted(f[..|f| - 1], l[..|l| - 1]) + f[|f| - 1] * l[|l| - 1]
  }

  /** Lengths that a prefix code for n symbols can have, none above the limit. */
  ghost predicate Possible(l: seq<nat>, n: nat, limit: nat) {
    && |l| == n && (forall i {:trigger l[i]} :: 0 <= i < n ==> l[i] <= limit)
    && HuffmanCodes.Kraft(l, limit) <= Pow2(limit)
  }

  /** No possible lengths, however long, have a smaller total. */
  ghost predicate Optimal(f: seq<nat>, lens: seq<nat>) {
    |f| == |lens| && forall l: seq<nat>, limit: nat {:trigger Possible(l, |f|, limit)} ::
      Possible(l, |f|, limit) ==> Weighted(f, lens) <= Weighted(f, l)
  }

  // ----- sums over some of the nodes

  function ActiveKraft(act: seq<bool>, l: seq<nat>, limit: nat, n: nat): nat
    requires n <= |act| == |l|
  {
    if n == 0 then 0
    else
      ActiveKraft(act, l, limit, n - 1)
        + if act[n - 1] && l[n - 1] <= limit then Pow2(limit - l[n - 1]) else 0
  }

  function ActiveCost(act: seq<bool>, w: seq<nat>, l: seq<nat>, n: nat): nat
    requires n <= |act| == |l| == |w|
  {
    if n == 0 then 0 else ActiveCost(act, w, l, n - 1) + if act[n - 1] then w[n - 1] * l[n - 1] else 0
  }

  predicate Within(act: seq<bool>, l: seq<nat>, m: nat) {
    |act| == |l| && forall i {:trigger l[i]} {:trigger act[i]} :: 0 <= i < |l| && act[i] ==> l[i] <= m
  }

  /** Lengths for the active nodes that fit a prefix code. */
  ghost predicate Fits(act: seq<bool>, l: seq<nat>, limit: nat) {
    Within(act, l, limit) && ActiveKraft(act, l, limit, |act|) <= Pow2(limit)
  }

  lemma {:induction false} KraftUpdate(act: seq<bool>, l: seq<nat>, limit: nat, n: nat, i: nat, v: nat)
    requires i < n <= |act| == |l| && act[i] && l[i] <= limit && v <= limit
    ensures ActiveKraft(act, l[i := v], limit, n) + Pow2(limit - l[i])
      == ActiveKraft(act, l, limit, n) + Pow2(limit - v)
  {
    if i < n - 1 {
      KraftUpdate(act, l, limit, n - 1, i, v);
    } else {
      KraftSame(act, l, limit, n - 1, i, v);
    }
  }

  lemma {:induction false} KraftSame(act: seq<bool>, l: seq<nat>, limit: nat, n: nat, i: nat, v: nat)
    requires n <= i < |act| == |l|
    ensures ActiveKraft(act, l[i := v], limit, n) == ActiveKraft(act, l, limit, n)
  {
    if n > 0 {
      KraftSame(act, l, limit, n - 1, i, v);
    }
  }

  lemma {:induction false} CostUpdate(act: seq<bool>, w: seq<nat>, l: seq<nat>, n: nat, i: nat, v: nat)
    requires i < n <= |act| == |l| == |w| && act[i]
    ensures ActiveCost(act, w, l[i := v], n) + w[i] * l[i] == ActiveCost(act, w, l, n) + w[i] * v
  {
    if i < n - 1 {
      CostUpdate(act, w, l, n - 1, i, v);
    } else {
      CostSame(act, w, l, n - 1, i, v);
    }
  }

  lemma {:induction false} CostSame(act: seq<bool>, w: seq<nat>, l: seq<nat>, n: nat, i: nat, v: nat)
    requires n <= i < |act| == |l| == |w|
    ensures ActiveCost(act, w, l[i := v], n) == ActiveCost(act, w, l, n)
  {
    if n > 0 {
      CostSame(act, w, l, n - 1, i, v);
    }
  }

  lemma {:induction false} KraftScaled(act: seq<bool>, l: seq<nat>, m: nat, extra: nat, n: nat)
    requires Within(act, l, m) && n <= |act|
    ensures ActiveKraft(act, l, m + extra, n) == Shl(ActiveKraft(act, l, m, n), extra)
  {
    if n == 0 {
      ShlZero(extra);
    } else {
      KraftScaled(act, l, m, extra, n - 1);
      if act[n - 1] {
        var x := l[n - 1];
        ShlAdd(ActiveKraft(act, l, m, n - 1), Pow2(m - x), extra);
        ShlOne(m - x);
        ShlOne(m - x + extra);
        ShlShl(1, m - x, extra);
      }
    }
  }

  /** With a single longest length the sum is odd at that precision. */
  lemma {:induction false} OddOne(act: seq<bool>, l: seq<nat>, m: nat, n: nat, i: nat)
    requires Within(act, l, m) && n <= |act| && i < |act| && act[i] && l[i] == m
    requires forall j {:trigger l[j]} :: 0 <= j < |l| && act[j] && j != i ==> l[j] < m
    ensures ActiveKraft(act, l, m, n) % 2 == if i < n then 1 else 0
  {
    if n > 0 {
      OddOne(act, l, m, n - 1, i);
      var j := n - 1;
      if act[j] && j != i {
        assert l[j] < m;
        assert Pow2(m - l[j]) == 2 * Pow2(m - l[j] - 1);
      }
    }
  }

  lemma {:induction false} ShlOrder(a: nat, b: nat, k: nat)
    ensures Shl(a, k) <= Shl(b, k) <==> a <= b
  {
    ShlMonotone(a, b, k);
    ShlMonotone(b, a, k);
  }

  /** A Kraft sum is within bounds at one precision if it is at another. */
  lemma {:induction false} Precise(act: seq<bool>, l: seq<nat>, m: nat, limit: nat)
    requires Within(act, l, m) && m <= limit
    ensures ActiveKraft(act, l, limit, |act|) <= Pow2(limit) <==> ActiveKraft(act, l, m, |act|) <= Pow2(m)
  {
    KraftScaled(act, l, m, limit - m, |act|);
    ShlOne(m);
    ShlOne(limit);
    ShlShl(1, m, limit - m);
    ShlOrder(ActiveKraft(act, l, m, |act|), Pow2(m), limit - m);
  }

  /** A single longest length can be made shorter. */
  lemma {:induction false} Shorten(act: seq<bool>, w: seq<nat>, l: seq<nat>, limit: nat, i: nat)
    requires Fits(act, l, limit) && |w| == |l| && i < |act| && act[i] && 1 <= l[i] && Within(act, l, l[i])
    requires forall j {:trigger l[j]} :: 0 <= j < |l| && act[j] && j != i ==> l[j] < l[i]
    ensures Fits(act, l[i := l[i] - 1], limit) && Within(act, l[i := l[i] - 1], l[i] - 1)
    ensures ActiveCost(act, w, l[i := l[i] - 1], |act|) <= ActiveCost(act, w, l, |act|)
  {
    hide ActiveKraft, ActiveCost, Pow2;
    var m, l' := l[i], l[i := l[i] - 1];
    assert m <= limit;
    Precise(act, l, m, limit);
    OddOne(act, l, m, |act|, i);
    KraftUpdate(act, l, m, |act|, i, m - 1);
    EvenPower(m);
    assert Within(act, l', m - 1);
    Precise(act, l', m, limit);
    CostUpdate(act, w, l, |act|, i, m - 1);
    OneLess(w[i], m);
  }

  lemma {:induction false} EvenPower(m: nat)
    requires m >= 1
    ensures Pow2(m) % 2 == 0 && Pow2(m - m) == 1 && Pow2(m - (m - 1)) == 2
  {
    assert Pow2(m) == 2 * Pow2(m - 1);
  }

  lemma {:induction false} OneLess(a: nat, m: nat)
    requires m >= 1
    ensures a * (m - 1) <= a * m
  {
  }

  /** A longest length among the active. */
  lemma {:induction false} Longest(act: seq<bool>, l: seq<nat>, n: nat, a: nat) returns (i: nat)
    requires a < n <= |act| == |l| && act[a]
    ensures i < n && act[i] && forall j {:trigger l[j]} :: 0 <= j < n && act[j] ==> l[j] <= l[i]
    decreases n
  {
    i := a;
    for k := 0 to n
      invariant i < n && act[i] && forall j {:trigger l[j]} :: 0 <= j < k && act[j] ==> l[j] <= l[i]
    {
      if act[k] && l[k] > l[i] {
        i := k;
      }
    }
  }

  lemma {:induction false} TwoShares(act: seq<bool>, l: seq<nat>, limit: nat, n: nat, i: nat, j: nat)
    requires i < j < n <= |act| == |l| && act[i] && act[j] && l[i] <= limit && l[j] <= limit
    ensures ActiveKraft(act, l, limit, n) >= Pow2(limit - l[i]) + Pow2(limit - l[j])
  {
    if j < n - 1 {
      TwoShares(act, l, limit, n - 1, i, j);
    } else {
      OneShare(act, l, limit, n - 1, i);
    }
  }

  lemma {:induction false} OneShare(act: seq<bool>, l: seq<nat>, limit: nat, n: nat, i: nat)
    requires i < n <= |act| == |l| && act[i] && l[i] <= limit
    ensures ActiveKraft(act, l, limit, n) >= Pow2(limit - l[i])
  {
    if i < n - 1 {
      OneShare(act, l, limit, n - 1, i);
    }
  }

  /** At no cost, two nodes share the longest length. */
  lemma {:induction false} TwoDeepest(act: seq<bool>, w: seq<nat>, l: seq<nat>, limit: nat, a: nat, b: nat, top: nat)
    returns (r: seq<nat>, i: nat, j: nat)
    requires Fits(act, l, limit) && |w| == |l| && a < |act| && b < |act| && a != b && act[a] && act[b]
    requires Within(act, l, top)
    ensures Fits(act, r, limit) && |r| == |l| && ActiveCost(act, w, r, |act|) <= ActiveCost(act, w, l, |act|)
    ensures i < |act| && j < |act| && i != j && act[i] && act[j] && r[i] == r[j] >= 1 && Within(act, r, r[i])
    decreases top
  {
    hide ActiveKraft, ActiveCost;
    i := Longest(act, l, |act|, a);
    if exists k {:trigger l[k]} :: 0 <= k < |l| && act[k] && k != i && l[k] == l[i] {
      var k :| 0 <= k < |l| && act[k] && k != i && l[k] == l[i];
      r, j := l, k;
      TwoShares(act, l, limit, |act|, if i < j then i else j, if i < j then j else i);
      assert l[i] <= limit;
      Positive(l[i], limit, ActiveKraft(act, l, limit, |act|));
    } else {
      var other := if i == a then b else a;
      assert l[other] <= l[i];
      assert l[i] <= top;
      Shorten(act, w, l, limit, i);
      r, i, j := TwoDeepest(act, w, l[i := l[i] - 1], limit, a, b, l[i] - 1);
    }
  }

  lemma {:induction false} Positive(x: nat, limit: nat, sum: nat)
    requires x <= limit && 2 * Pow2(limit - x) <= sum <= Pow2(limit)
    ensures x >= 1
  {
  }

  lemma {:induction false} Exchange(a: nat, b: nat, c: nat, d: nat)
    requires a <= b && c <= d
    ensures a * d + b * c <= a * c + b * d
  {
    assert (b - a) * (d - c) >= 0;
  }

  /** Giving a lighter node the longer of two lengths costs nothing. */
  lemma {:induction false} Swap(act: seq<bool>, w: seq<nat>, l: seq<nat>, limit: nat, x: nat, i: nat)
    returns (r: seq<nat>)
    requires Fits(act, l, limit) && |w| == |l| && x < |act| && i < |act| && x != i && act[x] && act[i]
    requires w[x] <= w[i] && l[x] <= l[i]
    ensures r == l[x := l[i]][i := l[x]] && Fits(act, r, limit)
    ensures ActiveCost(act, w, r, |act|) <= ActiveCost(act, w, l, |act|)
  {
    hide ActiveKraft, ActiveCost;
    var n, m := |act|, l[x := l[i]];
    r := m[i := l[x]];
    assert l[x] <= limit && l[i] <= limit;
    KraftUpdate(act, l, limit, n, x, l[i]);
    KraftUpdate(act, m, limit, n, i, l[x]);
    CostUpdate(act, w, l, n, x, l[i]);
    CostUpdate(act, w, m, n, i, l[x]);
    Exchange(w[x], w[i], l[x], l[i]);
    assert Within(act, r, limit);
  }

  /** At no cost, the two lightest nodes share a length, not 0. */
  lemma {:induction false} SideBySide(act: seq<bool>, w: seq<nat>, l: seq<nat>, limit: nat, x: nat, y: nat)
    returns (r: seq<nat>)
    requires Fits(act, l, limit) && |w| == |l| && x < |act| && y < |act| && x != y && act[x] && act[y]
    requires forall k {:trigger w[k]} :: 0 <= k < |w| && act[k] && k != x && k != y ==> w[x] <= w[k] && w[y] <= w[k]
    ensures Fits(act, r, limit) && |r| == |l| && r[x] == r[y] >= 1
    ensures ActiveCost(act, w, r, |act|) <= ActiveCost(act, w, l, |act|)
  {
    hide ActiveKraft, ActiveCost;
    var i, j;
    r, i, j := TwoDeepest(act, w, l, limit, x, y, limit);
    var m := r[i];
    assert r[x] <= m && r[y] <= m;
    if r[x] != m {
      var k := if i == y then j else i;
      r := Swap(act, w, r, limit, x, k);
      i, j := x, if i == y then i else j;
    }
    if r[y] != m {
      var k := if r[i] == m && i != x then i else j;
      assert r[k] == m && k != x && k != y && act[k];
      r := Swap(act, w, r, limit, y, k);
    }
  }

  // ----- one join

  lemma {:induction false} OffKraft(act: seq<bool>, l: seq<nat>, limit: nat, n: nat, i: nat)
    requires i < n <= |act| == |l| && act[i] && l[i] <= limit
    ensures ActiveKraft(act[i := false], l, limit, n) + Pow2(limit - l[i]) == ActiveKraft(act, l, limit, n)
  {
    if i < n - 1 {
      OffKraft(act, l, limit, n - 1, i);
    } else {
      OffKraftBelow(act, l, limit, n - 1, i);
    }
  }

  lemma {:induction false} OffKraftBelow(act: seq<bool>, l: seq<nat>, limit: nat, n: nat, i: nat)
    requires n <= i < |act| == |l|
    ensures ActiveKraft(act[i := false], l, limit, n) == ActiveKraft(act, l, limit, n)
  {
    if n > 0 {
      OffKraftBelow(act, l, limit, n - 1, i);
    }
  }

  lemma {:induction false} OffCost(act: seq<bool>, w: seq<nat>, l: seq<nat>, n: nat, i: nat)
    requires i < n <= |act| == |l| == |w| && act[i]
    ensures ActiveCost(act[i := false], w, l, n) + w[i] * l[i] == ActiveCost(act, w, l, n)
  {
    if i < n - 1 {
      OffCost(act, w, l, n - 1, i);
    } else {
      OffCostBelow(act, w, l, n - 1, i);
    }
  }

  lemma {:induction false} OffCostBelow(act: seq<bool>, w: seq<nat>, l: seq<nat>, n: nat, i: nat)
    requires n <= i < |act| == |l| == |w|
    ensures ActiveCost(act[i := false], w, l, n) == ActiveCost(act, w, l, n)
  {
    if n > 0 {
      OffCostBelow(act, w, l, n - 1, i);
    }
  }

  lemma {:induction false} MoreNodes(act: seq<bool>, w: seq<nat>, l: seq<nat>, limit: nat, n: nat, x: nat, y: nat)
    requires n <= |act| == |l| == |w|
    ensures ActiveKraft(act + [true], l + [x], limit, n) == ActiveKraft(act, l, limit, n)
    ensures ActiveCost(act + [true], w + [y], l + [x], n) == ActiveCost(act, w, l, n)
  {
    if n > 0 {
      MoreNodes(act, w, l, limit, n - 1, x, y);
    }
  }

  /** Two active nodes replaced by one that carries both weights. */
  function Joined(act: seq<bool>, x: nat, y: nat): seq<bool>
    requires x < |act| && y < |act|
  {
    act[x := false][y := false] + [true]
  }

  /** Nodes side by side make way for their parent, and each of the weights saves one step. */
  lemma {:induction false} JoinFits(act: seq<bool>, w: seq<nat>, l: seq<nat>, limit: nat, x: nat, y: nat)
    requires Fits(act, l, limit) && |w| == |l| && x < |act| && y < |act| && x != y && act[x] && act[y]
    requires l[x] == l[y] >= 1
    ensures var act', l', w' := Joined(act, x, y), l + [l[x] - 1], w + [w[x] + w[y]];
      && Fits(act', l', limit)
      && ActiveCost(act', w', l', |act'|) + w[x] + w[y] == ActiveCost(act, w, l, |act|)
  {
    hide ActiveKraft, ActiveCost;
    var n, d := |act|, l[x];
    var off := act[x := false][y := false];
    var act', l', w' := off + [true], l + [d - 1], w + [w[x] + w[y]];
    assert d <= limit;
    OffKraft(act, l, limit, n, x);
    OffKraft(act[x := false], l, limit, n, y);
    OffCost(act, w, l, n, x);
    OffCost(act[x := false], w, l, n, y);
    MoreNodes(off, w, l, limit, n, d - 1, w[x] + w[y]);
    LastNode(act', w', l', limit);
    assert Pow2(limit - (d - 1)) == 2 * Pow2(limit - d);
    Distribute(w[x], w[y], d);
    assert Within(act', l', limit);
  }

  lemma {:induction false} LastNode(act: seq<bool>, w: seq<nat>, l: seq<nat>, limit: nat)
    requires |act| == |l| == |w| > 0 && act[|act| - 1] && l[|l| - 1] <= limit
    ensures var n := |act| - 1;
      && ActiveKraft(act, l, limit, n + 1) == ActiveKraft(act, l, limit, n) + Pow2(limit - l[n])
      && ActiveCost(act, w, l, n + 1) == ActiveCost(act, w, l, n) + w[n] * l[n]
  {
  }

  lemma {:induction false} Distribute(a: nat, b: nat, d: nat)
    requires d >= 1
    ensures (a + b) * (d - 1) + a + b == a * d + b * d
  {
  }

  // ----- the forest

  /** Which of the nodes up to top are roots. */
  function Roots(p: Parents, top: nat): (act: seq<bool>)
    requires top < |p|
    ensures |act| == top + 1
  {
    seq(top + 1, n requires 0 <= n <= top => n >= 1 && IsRoot(p, n))
  }

  /** The weights in the upper 24 bits of the first words. */
  function NodeWeights(w: seq<nat>, top: nat): (r: seq<nat>)
    requires top < |w|
    ensures |r| == top + 1
  {
    seq(top + 1, n requires 0 <= n <= top => w[n] / 256)
  }

  /** The cost of the trees as they are: each leaf's weight times its depth. */
  function TreeCost(p: Parents, f: seq<nat>, i: nat): nat
    requires i < |f|
  {
    if i == 0 then 0 else TreeCost(p, f, i - 1) + f[i] * Depth(p, i)
  }

  /** The cost of lengths l for the leaves from 1 on. */
  function LeafCost(f: seq<nat>, l: seq<nat>, i: nat): nat
    requires i < |f| && i <= |l|
  {
    if i == 0 then 0 else LeafCost(f, l, i - 1) + f[i] * l[i - 1]
  }

  lemma {:induction false} JoinCost(p: Parents, f: seq<nat>, top: nat, x: nat, y: nat, i: nat)
    requires Closed(p, top) && top + 1 < |p| && i <= top && i < |f|
    requires x <= top && y <= top && x != y && IsRoot(p, x) && IsRoot(p, y)
    ensures TreeCost(Join(p, x, y, top + 1), f, i) == TreeCost(p, f, i) + Total(p, f, x, i) + Total(p, f, y, i)
  {
    if i > 0 {
      JoinCost(p, f, top, x, y, i - 1);
      JoinPaths(p, top, x, y, i);
      OneMore(f[i], Depth(p, i));
    }
  }

  lemma {:induction false} OneMore(a: nat, d: nat)
    ensures a * (d + 1) == a * d + a
  {
  }

  /** Lengths for the roots with which the leaves cost no more than with lengths l. */
  ghost predicate Beats(p: Parents, w: seq<nat>, f: seq<nat>, top: nat, l: seq<nat>, limit: nat, roots: seq<nat>) {
    && |f| >= 1 && top < |p| && top < |w| && |f| - 1 <= |l| && |roots| == top + 1
    && Fits(Roots(p, top), roots, limit)
    && ActiveCost(Roots(p, top), NodeWeights(w, top), roots, top + 1) + TreeCost(p, f, |f| - 1)
      <= LeafCost(f, l, |f| - 1)
  }

  /** Whatever lengths the leaves could have, the forest can still be made into a tree that costs no more. */
  ghost predicate NoneCheaper(p: Parents, w: seq<nat>, f: seq<nat>, top: nat) {
    |f| >= 1 && forall l: seq<nat>, limit: nat {:trigger Possible(l, |f| - 1, limit)} ::
      Possible(l, |f| - 1, limit) ==> exists roots {:trigger Beats(p, w, f, top, l, limit, roots)} ::
        Beats(p, w, f, top, l, limit, roots)
  }

  /** The two are the lightest of the roots. */
  predicate Lightest(p: Parents, w: seq<nat>, top: nat, x: nat, y: nat) {
    && top < |p| && top < |w| && 1 <= x <= top && 1 <= y <= top && x != y && IsRoot(p, x) && IsRoot(p, y)
    && forall r {:trigger IsRoot(p, r)} :: 1 <= r <= top && IsRoot(p, r) && r != x && r != y ==>
      w[x] / 256 <= w[r] / 256 && w[y] / 256 <= w[r] / 256
  }

  lemma {:induction false} JoinedRoots(p: Parents, w: seq<nat>, top: nat, x: nat, y: nat, z: nat)
    requires Closed(p, top) && top + 1 < |p| == |w| && Lightest(p, w, top, x, y) && z / 256 == w[x] / 256 + w[y] / 256
    ensures Roots(Join(p, x, y, top + 1), top + 1) == Joined(Roots(p, top), x, y)
    ensures var v := NodeWeights(w, top); NodeWeights(w[top + 1 := z], top + 1) == v + [v[x] + v[y]]
  {
    var q := Join(p, x, y, top + 1);
    var a, b := Roots(q, top + 1), Joined(Roots(p, top), x, y);
    forall n | 0 <= n <= top + 1
      ensures a[n] == b[n]
    {
      if n == x || n == y {
        assert q[n] == top + 1;
      } else if n <= top {
        assert q[n] == p[n];
      } else {
        assert q[n] == -1;
      }
    }
  }

  /** Joining the two lightest keeps every possibility. */
  lemma {:induction false} JoinKeeps(p: Parents, w: seq<nat>, f: seq<nat>, top: nat, x: nat, y: nat, z: nat)
    requires Closed(p, top) && top + 1 < |p| == |w| && 1 <= |f| <= top + 1 && Lightest(p, w, top, x, y)
    requires z / 256 == w[x] / 256 + w[y] / 256
    requires w[x] / 256 == Total(p, f, x, |f| - 1) && w[y] / 256 == Total(p, f, y, |f| - 1)
    requires NoneCheaper(p, w, f, top)
    ensures NoneCheaper(Join(p, x, y, top + 1), w[top + 1 := z], f, top + 1)
  {
    hide ActiveCost, Fits, Possible, TreeCost, LeafCost, Roots, NodeWeights, Closed;
    var q, w' := Join(p, x, y, top + 1), w[top + 1 := z];
    forall l: seq<nat>, limit: nat {:trigger Possible(l, |f| - 1, limit)} | Possible(l, |f| - 1, limit)
      ensures exists roots {:trigger Beats(q, w', f, top + 1, l, limit, roots)} ::
        Beats(q, w', f, top + 1, l, limit, roots)
    {
      var roots :| Beats(p, w, f, top, l, limit, roots);
      var r := JoinBeats(p, w, f, top, x, y, z, l, limit, roots);
    }
  }

  lemma {:induction false} JoinBeats(p: Parents, w: seq<nat>, f: seq<nat>, top: nat, x: nat, y: nat, z: nat,
      l: seq<nat>, limit: nat, roots: seq<nat>) returns (r: seq<nat>)
    requires Closed(p, top) && top + 1 < |p| == |w| && 1 <= |f| <= top + 1 && Lightest(p, w, top, x, y)
    requires z / 256 == w[x] / 256 + w[y] / 256
    requires w[x] / 256 == Total(p, f, x, |f| - 1) && w[y] / 256 == Total(p, f, y, |f| - 1)
    requires Beats(p, w, f, top, l, limit, roots)
    ensures Beats(Join(p, x, y, top + 1), w[top + 1 := z], f, top + 1, l, limit, r)
  {
    hide ActiveCost, ActiveKraft, TreeCost, LeafCost, Closed, Total;
    var act, v := Roots(p, top), NodeWeights(w, top);
    forall k {:trigger v[k]} | 0 <= k < |v| && act[k] && k != x && k != y
      ensures v[x] <= v[k] && v[y] <= v[k]
    {
      assert IsRoot(p, k);
    }
    assert act[x] && act[y];
    var s := SideBySide(act, v, roots, limit, x, y);
    JoinFits(act, v, s, limit, x, y);
    JoinedRoots(p, w, top, x, y, z);
    JoinCost(p, f, top, x, y, |f| - 1);
    r := s + [s[x] - 1];
  }

  // ----- the beginning and the end

  lemma {:induction false} LeavesFit(act: seq<bool>, w: seq<nat>, f: seq<nat>, l: seq<nat>, limit: nat, i: nat)
    requires |act| == |f| == |w| == |l| + 1 && i <= |l| && !act[0]
    requires forall n {:trigger act[n]} :: 1 <= n < |act| ==> act[n] && w[n] == f[n]
    ensures ActiveKraft(act, [0] + l, limit, i + 1) == HuffmanCodes.Kraft(l[..i], limit)
    ensures ActiveCost(act, w, [0] + l, i + 1) == LeafCost(f, l, i)
  {
    var r := [0] + l;
    assert r[0] == 0;
    if i == 0 {
      assert ActiveKraft(act, r, limit, 0) == 0 && ActiveCost(act, w, r, 0) == 0;
    } else {
      LeavesFit(act, w, f, l, limit, i - 1);
      assert r[i] == l[i - 1] && act[i];
      assert l[..i][..i - 1] == l[..i - 1];
    }
  }

  lemma {:induction false} LeavesCost(p: Parents, f: seq<nat>, i: nat)
    requires i < |f| <= |p| && forall n {:trigger p[n]} :: 1 <= n < |f| ==> p[n] < 0
    ensures TreeCost(p, f, i) == 0
  {
    if i > 0 {
      LeavesCost(p, f, i - 1);
      assert Depth(p, i) == 0 by { assert p[i] < 0; }
    }
  }

  /** To begin with the roots are the leaves. */
  lemma {:induction false} LeavesKeep(p: Parents, w: seq<nat>, f: seq<nat>)
    requires 1 <= |f| < |p| == |w|
    requires forall n {:trigger p[n]} {:trigger w[n]} :: 1 <= n < |f| ==> p[n] < 0 && w[n] / 256 == f[n]
    ensures NoneCheaper(p, w, f, |f| - 1)
  {
    var top := |f| - 1;
    var act, v := Roots(p, top), NodeWeights(w, top);
    forall n {:trigger act[n]} | 1 <= n < |act|
      ensures act[n] && v[n] == f[n]
    {
      assert p[n] < 0;
    }
    forall l: seq<nat>, limit: nat {:trigger Possible(l, |f| - 1, limit)} | Possible(l, |f| - 1, limit)
      ensures exists roots {:trigger Beats(p, w, f, top, l, limit, roots)} :: Beats(p, w, f, top, l, limit, roots)
    {
      LeavesFit(act, v, f, l, limit, top);
      LeavesCost(p, f, top);
      assert l[..top] == l;
      var roots := [0] + l;
      assert Within(act, roots, limit);
      assert Beats(p, w, f, top, l, limit, roots);
    }
  }

  lemma {:induction false} LeafCostIs(f: seq<nat>, l: seq<nat>, i: nat)
    requires i < |f| && i <= |l|
    ensures LeafCost(f, l, i) == Weighted(f[1..i + 1], l[..i])
  {
    if i > 0 {
      LeafCostIs(f, l, i - 1);
      assert f[1..i + 1][..i - 1] == f[1..i] && l[..i][..i - 1] == l[..i - 1];
      assert f[1..i + 1][i - 1] == f[i];
    }
  }

  lemma {:induction false} TreeCostIs(p: Parents, f: seq<nat>, lens: seq<nat>, i: nat)
    requires i < |f| && i <= |lens|
    requires forall n {:trigger lens[n]} :: 0 <= n < |lens| ==> lens[n] == Depth(p, n + 1)
    ensures TreeCost(p, f, i) == LeafCost(f, lens, i)
  {
    if i > 0 {
      TreeCostIs(p, f, lens, i - 1);
      assert lens[i - 1] == Depth(p, i);
    }
  }

  /** The depths in the last tree are the cheapest lengths there are. */
  lemma {:induction false} TreeIsOptimal(p: Parents, w: seq<nat>, f: seq<nat>, top: nat, lens: seq<nat>)
    requires NoneCheaper(p, w, f, top) && |lens| == |f| - 1
    requires forall n {:trigger lens[n]} :: 0 <= n < |lens| ==> lens[n] == Depth(p, n + 1)
    ensures Optimal(f[1..], lens)
  {
    hide Fits, ActiveCost, TreeCost, LeafCost, Weighted, HuffmanCodes.Kraft, Roots, NodeWeights;
    var a := |f| - 1;
    TreeCostIs(p, f, lens, a);
    LeafCostIs(f, lens, a);
    assert f[1..a + 1] == f[1..] && lens[..a] == lens;
    forall l: seq<nat>, limit: nat {:trigger Possible(l, |f[1..]|, limit)} | Possible(l, |f[1..]|, limit)
      ensures Weighted(f[1..], lens) <= Weighted(f[1..], l)
    {
      var roots :| Beats(p, w, f, top, l, limit, roots);
      LeafCostIs(f, l, a);
      assert l[..a] == l;
    }
  }

  // ----- what optimal lengths are like

  lemma {:induction false} WeightedUpdate(f: seq<nat>, l: seq<nat>, i: nat, v: nat)
    requires |f| == |l| && i < |f|
    ensures Weighted(f, l[i := v]) + f[i] * l[i] == Weighted(f, l) + f[i] * v
  {
    var n, m := |f| - 1, l[i := v];
    if i == n {
      assert m[..n] == l[..n];
    } else {
      WeightedUpdate(f[..n], l[..n], i, v);
      assert m[..n] == l[..n][i := v];
    }
  }

  lemma {:induction false} KraftOne(l: seq<nat>, limit: nat, i: nat, v: nat)
    requires i < |l| && l[i] <= limit && v <= limit
    ensures HuffmanCodes.Kraft(l[i := v], limit) + Pow2(limit - l[i]) == HuffmanCodes.Kraft(l, limit) + Pow2(limit - v)
  {
    var n, m := |l| - 1, l[i := v];
    if i == n {
      assert m[..n] == l[..n];
    } else {
      KraftOne(l[..n], limit, i, v);
      assert m[..n] == l[..n][i := v];
    }
  }

  /** A heavier symbol never has a longer code. */
  lemma {:induction false} HeavierNotLonger(f: seq<nat>, lens: seq<nat>, limit: nat, i: nat, j: nat)
    requires Optimal(f, lens) && Possible(lens, |f|, limit) && i < |f| && j < |f| && f[i] > f[j]
    ensures lens[i] <= lens[j]
  {
    hide Weighted, HuffmanCodes.Kraft;
    if lens[i] > lens[j] {
      var l := lens[i := lens[j]];
      var m := l[j := lens[i]];
      KraftOne(lens, limit, i, lens[j]);
      KraftOne(l, limit, j, lens[i]);
      WeightedUpdate(f, lens, i, lens[j]);
      WeightedUpdate(f, l, j, lens[i]);
      assert Possible(m, |f|, limit);
      StrictExchange(f[j], f[i], lens[j], lens[i]);
    }
  }

  lemma {:induction false} StrictExchange(a: nat, b: nat, c: nat, d: nat)
    requires a < b && c < d
    ensures a * d + b * c < a * c + b * d
  {
    assert (b - a) * (d - c) > 0;
  }
}
