/**
 * The forest of partial Huffman trees, as the parent array holds it: nodes 1..leaves
 * are the symbols, a root's parent is negative, and a parent has a larger number than
 * its children.
 */
module HuffmanForest {
  import opened Prelude

  type Parents = seq<int>

  /** Nodes up to top only point to larger nodes up to top. */
  predicate Closed(p: Parents, top: nat) {
    top < |p| && forall n {:trigger p[n]} :: 0 <= n <= top ==> p[n] < 0 || n < p[n] <= top
  }

  predicate IsRoot(p: Parents, n: nat) {
    n < |p| && !(n < p[n] < |p|)
  }

  function Root(p: Parents, n: nat): nat
    decreases |p| - n
  {
    if n < |p| && n < p[n] < |p| then Root(p, p[n]) else n
  }

  /** How many steps up from n the root is: the code length, for a leaf. */
  function Depth(p: Parents, n: nat): nat
    decreases |p| - n
  {
    if n < |p| && n < p[n] < |p| then 1 + Depth(p, p[n]) else 0
  }

  /** Make z the parent of x and y. */
  function Join(p: Parents, x: nat, y: nat, z: nat): (q: Parents)
    requires x < |p| && y < |p| && z < |p|
    ensures |q| == |p|
  {
    p[x := z][y := z][z := -1]
  }

  lemma {:induction false} RootInRange(p: Parents, top: nat, n: nat)
    requires Closed(p, top) && n <= top
    ensures n <= Root(p, n) <= top && IsRoot(p, Root(p, n))
    decreases top - n
  {
    if n < p[n] < |p| {
      RootInRange(p, top, p[n]);
    }
  }

  /** Joining two roots moves exactly their leaves under z, one level deeper. */
  lemma {:induction false} JoinPaths(p: Parents, top: nat, x: nat, y: nat, n: nat)
    requires Closed(p, top) && top + 1 < |p| && n <= top
    requires x <= top && y <= top && x != y && IsRoot(p, x) && IsRoot(p, y)
    ensures var q, r := Join(p, x, y, top + 1), Root(p, n);
            && Root(q, n) == (if r == x || r == y then top + 1 else r)
            && Depth(q, n) == Depth(p, n) + (if r == x || r == y then 1 else 0)
    decreases top - n
  {
    var q := Join(p, x, y, top + 1);
    if n == x || n == y {
      assert q[n] == top + 1 && q[top + 1] == -1;
      assert Root(q, top + 1) == top + 1 && Depth(q, top + 1) == 0;
    } else {
      assert q[n] == p[n];
      if n < p[n] < |p| {
        JoinPaths(p, top, x, y, p[n]);
      }
    }
  }

  /** Total of f over the first i leaves under root r. */
  function Total(p: Parents, f: seq<nat>, r: nat, i: nat): nat
    requires i < |f|
  {
    if i == 0 then 0 else Total(p, f, r, i - 1) + (if Root(p, i) == r then f[i] else 0)
  }

  /** Kraft sum of the first i leaves under root r, in units of 2^-limit. */
  function Mass(p: Parents, limit: nat, r: nat, i: nat): nat {
    if i == 0 then 0
    else Mass(p, limit, r, i - 1) +
         (if Root(p, i) == r && Depth(p, i) <= limit then Pow2(limit - Depth(p, i)) else 0)
  }

  lemma {:induction false} JoinTotal(p: Parents, f: seq<nat>, top: nat, x: nat, y: nat, r: nat, i: nat)
    requires Closed(p, top) && top + 1 < |p| && i <= top && i < |f|
    requires x <= top && y <= top && x != y && IsRoot(p, x) && IsRoot(p, y)
    requires r != x && r != y && r <= top + 1
    ensures Total(Join(p, x, y, top + 1), f, r, i)
         == if r == top + 1 then Total(p, f, x, i) + Total(p, f, y, i) else Total(p, f, r, i)
  {
    if i > 0 {
      JoinTotal(p, f, top, x, y, r, i - 1);
      JoinPaths(p, top, x, y, i);
      RootInRange(p, top, i);
    }
  }

  /** A joined tree's Kraft sum is the mean of its two halves'. */
  lemma {:induction false} JoinMass(p: Parents, limit: nat, top: nat, x: nat, y: nat, r: nat, i: nat)
    requires Closed(p, top) && top + 1 < |p| && i <= top
    requires x <= top && y <= top && x != y && IsRoot(p, x) && IsRoot(p, y)
    requires r != x && r != y && r <= top + 1
    requires forall n {:trigger Depth(p, n)} :: 1 <= n <= i ==> Depth(p, n) < limit
    ensures r == top + 1 ==>
              2 * Mass(Join(p, x, y, top + 1), limit, r, i) == Mass(p, limit, x, i) + Mass(p, limit, y, i)
    ensures r != top + 1 ==> Mass(Join(p, x, y, top + 1), limit, r, i) == Mass(p, limit, r, i)
  {
    if i > 0 {
      JoinMass(p, limit, top, x, y, r, i - 1);
      JoinPaths(p, top, x, y, i);
      RootInRange(p, top, i);
    }
  }

  /** Before any join every leaf is its own tree. */
  lemma {:induction false} SingletonTrees(p: Parents, f: seq<nat>, limit: nat, r: nat, i: nat)
    requires i < |p| && i < |f| && forall n {:trigger p[n]} :: 1 <= n <= i ==> p[n] < 0
    ensures Total(p, f, r, i) == if 1 <= r <= i then f[r] else 0
    ensures Mass(p, limit, r, i) == if 1 <= r <= i then Pow2(limit) else 0
  {
    if i > 0 {
      SingletonTrees(p, f, limit, r, i - 1);
      assert Root(p, i) == i && Depth(p, i) == 0;
    }
  }

  function Sum(f: seq<nat>, i: nat): nat
    requires i < |f|
  {
    if i == 0 then 0 else Sum(f, i - 1) + f[i]
  }

  lemma {:induction false} TotalAtMostSum(p: Parents, f: seq<nat>, r: nat, i: nat)
    requires i < |f|
    ensures Total(p, f, r, i) <= Sum(f, i)
  {
    if i > 0 {
      TotalAtMostSum(p, f, r, i - 1);
    }
  }

  function Fib(n: nat): nat {
    if n < 2 then n else Fib(n - 2) + Fib(n - 1)
  }

  lemma {:induction false} FibMonotone(m: nat, n: nat)
    requires m <= n
    ensures Fib(m) <= Fib(n)
  {
    if m < n {
      FibMonotone(m, n - 1);
    }
  }

  lemma {:induction false} FibFive(n: nat)
    ensures Fib(n + 5) == 3 * Fib(n) + 5 * Fib(n + 1)
    ensures Fib(n + 6) == 5 * Fib(n) + 8 * Fib(n + 1)
  {
    assert Fib(n + 3) == Fib(n) + 2 * Fib(n + 1);
    assert Fib(n + 5) == Fib(n + 3) + Fib(n + 4);
  }

  lemma {:induction false} FibPositive(n: nat)
    requires n >= 1
    ensures Fib(n) >= 1
  {
    FibMonotone(1, n);
  }

  /** A tree lighter than 6765 is less than 18 high. */
  lemma {:induction false} FibPast20(n: nat)
    requires n >= 20
    ensures Fib(n) >= 6765
  {
    hide Fib;
    FibPositive(n - 19);
    FibFive(n - 20);
    FibFive(n - 15);
    FibFive(n - 10);
    FibFive(n - 5);
  }

  /** A tree lighter than 2^23 is less than 33 high. */
  lemma {:induction false} FibPast35(n: nat)
    requires n >= 35
    ensures Fib(n) > 0x80_0000
  {
    FibPast20(n - 15);
    FibPast20(n - 14);
    FibFive(n - 15);
    FibFive(n - 10);
    FibFive(n - 5);
  }
}
