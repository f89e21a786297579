/**
 * BZ2_hbMakeCodeLengths: Huffman code lengths of at most maxLen bits, by rebuilding the
 * tree from coarser and coarser weights until it is shallow enough.
 */
module HuffmanLengths {
  import opened Prelude
  import opened HuffmanForest
  import opened HuffmanHeap
  import opened HuffmanOptimal
  import opened Bits
  import HuffmanCodes

  // A weight word holds a weight in its upper 24 bits and a height in its low 8.
  function WeightOf(word: nat): nat { word / 256 }
  function DepthOf(word: nat): nat { word % 256 }

  function AddWeights(x: nat, y: nat): nat {
    (WeightOf(x) + WeightOf(y)) * 256 + 1 + (if DepthOf(x) > DepthOf(y) then DepthOf(x) else DepthOf(y))
  }

  /** What is known of the tree under root r, when no root weighs less than floor. */
  ghost predicate Tree(p: Parents, w: seq<nat>, vals: seq<nat>, floor: nat, r: nat) {
    && r < |w| && |vals| >= 1
    && var a := |vals| - 1;
       && WeightOf(w[r]) == Total(p, vals, r, a)
       && Mass(p, a, r, a) == Pow2(a)
       && floor <= WeightOf(w[r])
       && Fib(DepthOf(w[r]) + 2) <= WeightOf(w[r])
       && Fib(DepthOf(w[r]) + 1) <= floor
       && (forall i {:trigger Depth(p, i)} :: 1 <= i <= a && Root(p, i) == r ==> Depth(p, i) <= DepthOf(w[r]))
  }

  /** Nodes 1..top form a forest over the leaves, and h holds its roots and the sentinel. */
  ghost predicate Forest(p: Parents, w: seq<nat>, h: multiset<nat>, vals: seq<nat>, top: nat, floor: nat) {
    && 2 <= |vals| - 1 <= top && |w| == |p| && Closed(p, top)
    && (forall n: nat {:trigger h[n]} :: h[n] == if n == 0 || (n <= top && IsRoot(p, n)) then 1 else 0)
    && (forall r {:trigger IsRoot(p, r)} :: 1 <= r <= top && IsRoot(p, r) ==> Tree(p, w, vals, floor, r))
    && (forall i {:trigger Depth(p, i)} :: 1 <= i < |vals| ==> Depth(p, i) <= top - (|vals| - 1))
  }

  lemma {:induction false} JoinedTree(p: Parents, w: seq<nat>, h: multiset<nat>, vals: seq<nat>, top: nat,
                                      floor: nat, x: nat, y: nat, z: nat)
    requires Forest(p, w, h, vals, top, floor) && top + 1 < |p| && top < 2 * (|vals| - 1) - 1
    requires 1 <= x <= top && 1 <= y <= top && x != y && IsRoot(p, x) && IsRoot(p, y)
    requires WeightOf(z) == WeightOf(w[x]) + WeightOf(w[y])
    requires DepthOf(z) > DepthOf(w[x]) && DepthOf(z) > DepthOf(w[y])
    requires Fib(DepthOf(z) + 2) <= WeightOf(z) && Fib(DepthOf(z) + 1) <= WeightOf(w[y])
    ensures Tree(Join(p, x, y, top + 1), w[top + 1 := z], vals, WeightOf(w[y]), top + 1)
  {
    hide Fib, Pow2, Total, Mass, Root, Depth, Join;
    JoinedSums(p, w, h, vals, top, floor, x, y);
    JoinedDepths(p, w, h, vals, top, floor, x, y, z);
  }

  lemma {:induction false} JoinedSums(p: Parents, w: seq<nat>, h: multiset<nat>, vals: seq<nat>, top: nat,
                                      floor: nat, x: nat, y: nat)
    requires Forest(p, w, h, vals, top, floor) && top + 1 < |p| && top < 2 * (|vals| - 1) - 1
    requires 1 <= x <= top && 1 <= y <= top && x != y && IsRoot(p, x) && IsRoot(p, y)
    ensures var a, q := |vals| - 1, Join(p, x, y, top + 1);
            && Total(q, vals, top + 1, a) == WeightOf(w[x]) + WeightOf(w[y])
            && Mass(q, a, top + 1, a) == Pow2(a)
  {
    var a := |vals| - 1;
    assert Tree(p, w, vals, floor, x) && Tree(p, w, vals, floor, y);
    JoinTotal(p, vals, top, x, y, top + 1, a);
    JoinMass(p, a, top, x, y, top + 1, a);
  }

  lemma {:induction false} JoinedDepths(p: Parents, w: seq<nat>, h: multiset<nat>, vals: seq<nat>, top: nat,
                                        floor: nat, x: nat, y: nat, z: nat)
    requires Forest(p, w, h, vals, top, floor) && top + 1 < |p|
    requires 1 <= x <= top && 1 <= y <= top && x != y && IsRoot(p, x) && IsRoot(p, y)
    requires DepthOf(z) > DepthOf(w[x]) && DepthOf(z) > DepthOf(w[y])
    ensures var q := Join(p, x, y, top + 1);
            forall i {:trigger Depth(q, i)} :: 1 <= i < |vals| && Root(q, i) == top + 1 ==>
              Depth(q, i) <= DepthOf(z)
  {
    var q := Join(p, x, y, top + 1);
    assert Tree(p, w, vals, floor, x) && Tree(p, w, vals, floor, y);
    forall i {:trigger Depth(q, i)} | 1 <= i < |vals| && Root(q, i) == top + 1
      ensures Depth(q, i) <= DepthOf(z)
    {
      RootInRange(p, top, i);
      JoinPaths(p, top, x, y, i);
      assert Depth(p, i) >= 0;
    }
  }

  lemma {:induction false} OtherTree(p: Parents, w: seq<nat>, h: multiset<nat>, vals: seq<nat>, top: nat,
                                     floor: nat, x: nat, y: nat, r: nat, word: nat)
    requires Forest(p, w, h, vals, top, floor) && top + 1 < |p| && top < 2 * (|vals| - 1) - 1
    requires 1 <= x <= top && 1 <= y <= top && x != y && IsRoot(p, x) && IsRoot(p, y)
    requires 1 <= r <= top && IsRoot(p, r) && r != x && r != y && w[y] <= w[r]
    ensures Tree(Join(p, x, y, top + 1), w[top + 1 := word], vals, WeightOf(w[y]), r)
  {
    hide Closed, Depth, DepthOf;
    var a := |vals| - 1;
    var q := Join(p, x, y, top + 1);
    assert Tree(p, w, vals, floor, r) && Tree(p, w, vals, floor, y);
    JoinTotal(p, vals, top, x, y, r, a);
    JoinMass(p, a, top, x, y, r, a);
    forall i {:trigger Depth(q, i)} | 1 <= i <= a && Root(q, i) == r
      ensures Depth(q, i) <= DepthOf(w[r])
    {
      RootInRange(p, top, i);
      JoinPaths(p, top, x, y, i);
      assert Depth(p, i) >= 0;
    }
  }

  /** The Fibonacci bound survives a join, and keeps the height within its byte. */
  lemma {:induction false} HeightOfSum(x: nat, y: nat, floor: nat, total: nat)
    requires x <= y && floor <= WeightOf(x)
    requires WeightOf(x) + WeightOf(y) <= total < 0x80_0000
    requires Fib(DepthOf(x) + 2) <= WeightOf(x) && Fib(DepthOf(x) + 1) <= floor
    requires Fib(DepthOf(y) + 2) <= WeightOf(y) && Fib(DepthOf(y) + 1) <= floor
    ensures var z := AddWeights(x, y);
            && WeightOf(z) == WeightOf(x) + WeightOf(y)
            && DepthOf(z) > DepthOf(x) && DepthOf(z) > DepthOf(y)
            && z < 0x8000_0000
            && Fib(DepthOf(z) + 2) <= WeightOf(z)
            && Fib(DepthOf(z) + 1) <= WeightOf(y)
  {
    var d := if DepthOf(x) > DepthOf(y) then DepthOf(x) else DepthOf(y);
    HeightBounded(d, total);
    SplitWord(WeightOf(x) + WeightOf(y), 1 + d);
    FibStep(d);
  }

  lemma {:induction false} FibStep(d: nat)
    ensures Fib(d + 3) == Fib(d + 1) + Fib(d + 2)
  {
  }

  lemma {:induction false} HeightBounded(d: nat, total: nat)
    requires Fib(d + 2) <= total < 0x80_0000
    ensures d <= 32
  {
    if d >= 33 {
      FibPast35(d + 2);
    }
  }

  lemma {:induction false} SplitWord(weight: nat, depth: nat)
    requires depth < 256
    ensures WeightOf(weight * 256 + depth) == weight && DepthOf(weight * 256 + depth) == depth
  {
  }

  lemma {:induction false} HeightOfRoots(p: Parents, w: seq<nat>, h: multiset<nat>, vals: seq<nat>, top: nat,
                                         floor: nat, x: nat, y: nat)
    requires Forest(p, w, h, vals, top, floor) && top + 1 < |p| && top < 2 * (|vals| - 1) - 1
    requires 1 <= x <= top && 1 <= y <= top && x != y && IsRoot(p, x) && IsRoot(p, y)
    requires w[x] <= w[y] && Sum(vals, |vals| - 1) < 0x80_0000
    ensures var z := AddWeights(w[x], w[y]);
            && WeightOf(z) == WeightOf(w[x]) + WeightOf(w[y])
            && DepthOf(z) > DepthOf(w[x]) && DepthOf(z) > DepthOf(w[y])
            && z < 0x8000_0000
            && Fib(DepthOf(z) + 2) <= WeightOf(z)
            && Fib(DepthOf(z) + 1) <= WeightOf(w[y])
  {
    hide Sum, Fib, AddWeights, WeightOf, DepthOf, Join;
    assert Tree(p, w, vals, floor, x) && Tree(p, w, vals, floor, y);
    JoinedSums(p, w, h, vals, top, floor, x, y);
    TotalAtMostSum(Join(p, x, y, top + 1), vals, top + 1, |vals| - 1);
    HeightOfSum(w[x], w[y], floor, Sum(vals, |vals| - 1));
  }

  lemma {:induction false} JoinStep(p: Parents, w: seq<nat>, h: multiset<nat>, vals: seq<nat>, top: nat,
                                    floor: nat, x: nat, y: nat, h': multiset<nat>)
    requires Forest(p, w, h, vals, top, floor) && top + 1 < |p| && top < 2 * (|vals| - 1) - 1
    requires x >= 1 && y >= 1 && h' + multiset{x, y} == h
    requires x < |w| && y < |w| && w[x] <= w[y] && Sum(vals, |vals| - 1) < 0x80_0000
    requires forall r {:trigger h'[r]} :: r >= 1 && r in h' ==> r < |w| && w[y] <= w[r]
    ensures AddWeights(w[x], w[y]) < 0x8000_0000
    ensures Forest(Join(p, x, y, top + 1), w[top + 1 := AddWeights(w[x], w[y])],
                   h' + multiset{top + 1}, vals, top + 1, WeightOf(w[y]))
  {
    hide Tree, Sum, Fib, AddWeights, WeightOf, DepthOf, Depth;
    assert h[x] >= 1 && h[y] >= 1 && (x == y ==> h[x] >= 2);
    var q, w' := Join(p, x, y, top + 1), w[top + 1 := AddWeights(w[x], w[y])];
    HeightOfRoots(p, w, h, vals, top, floor, x, y);
    JoinedTree(p, w, h, vals, top, floor, x, y, AddWeights(w[x], w[y]));
    forall r {:trigger IsRoot(q, r)} | 1 <= r <= top + 1 && IsRoot(q, r)
      ensures Tree(q, w', vals, WeightOf(w[y]), r)
    {
      assert r == top + 1 || IsRoot(p, r);
      if r <= top {
        assert h[r] == 1 && h'[r] == 1;
        OtherTree(p, w, h, vals, top, floor, x, y, r, AddWeights(w[x], w[y]));
      }
    }
    forall n: nat {:trigger (h' + multiset{top + 1})[n]}
      ensures (h' + multiset{top + 1})[n] == if n == 0 || (n <= top + 1 && IsRoot(q, n)) then 1 else 0
    {
      assert h[n] == h'[n] + (multiset{x, y})[n];
      assert n <= top ==> (IsRoot(q, n) <==> IsRoot(p, n) && n != x && n != y);
    }
    forall i {:trigger Depth(q, i)} | 1 <= i < |vals|
      ensures Depth(q, i) <= top + 1 - (|vals| - 1)
    {
      JoinPaths(p, top, x, y, i);
    }
  }

  /** One tree left: every leaf's depth is its code length, and the code is full. */
  lemma {:induction false} OneTree(p: Parents, w: seq<nat>, h: multiset<nat>, vals: seq<nat>, top: nat,
                                   floor: nat, r: nat, i: nat)
    requires Forest(p, w, h, vals, top, floor) && top > |vals| - 1
    requires r >= 1 && h == multiset{0, r} && 1 <= i < |vals|
    ensures Root(p, i) == r && r <= top && Depth(p, i) >= 1
    ensures Fib(Depth(p, i) + 2) <= Sum(vals, |vals| - 1)
  {
    RootInRange(p, top, i);
    assert h[Root(p, i)] == 1;
    assert h[r] == 1 && IsRoot(p, r);
    assert Tree(p, w, vals, floor, r);
    TotalAtMostSum(p, vals, r, |vals| - 1);
    FibMonotone(Depth(p, i) + 2, DepthOf(w[r]) + 2);
    RootInRange(p, top, top);
    assert h[top] == 1;
  }

  /** The Kraft sum of the single tree is that of the length table read off it. */
  lemma {:induction false} MassIsKraft(p: Parents, lens: seq<nat>, limit: nat, r: nat, i: nat)
    requires i <= |lens|
    requires forall n {:trigger Depth(p, n)} {:trigger Root(p, n)} ::
               1 <= n <= i ==> Root(p, n) == r && Depth(p, n) == lens[n - 1]
    ensures Mass(p, limit, r, i) == HuffmanCodes.Kraft(lens[..i], limit)
  {
    if i > 0 {
      MassIsKraft(p, lens, limit, r, i - 1);
      assert lens[..i][..i - 1] == lens[..i - 1];
      assert Depth(p, i) == lens[i - 1];
    }
  }

  /** Kraft sums at two precisions that both cover every length agree. */
  lemma {:induction false} KraftScale(lens: seq<nat>, limit: nat, extra: nat)
    requires forall n :: 0 <= n < |lens| ==> lens[n] <= limit
    ensures HuffmanCodes.Kraft(lens, limit + extra) == Shl(HuffmanCodes.Kraft(lens, limit), extra)
  {
    if lens == [] {
      ShlZero(extra);
    } else {
      var t, x := lens[..|lens| - 1], lens[|lens| - 1];
      KraftScale(t, limit, extra);
      ShlAdd(HuffmanCodes.Kraft(t, limit), Pow2(limit - x), extra);
      ShlOne(limit - x);
      ShlOne(limit - x + extra);
      ShlShl(1, limit - x, extra);
    }
  }

  lemma {:induction false} KraftFull(lens: seq<nat>, from: nat, to: nat)
    requires forall n :: 0 <= n < |lens| ==> lens[n] <= from && lens[n] <= to
    requires HuffmanCodes.Kraft(lens, from) == Pow2(from)
    ensures HuffmanCodes.Kraft(lens, to) == Pow2(to)
  {
    ShlOne(from);
    ShlOne(to);
    if from <= to {
      KraftScale(lens, from, to - from);
      ShlShl(1, from, to - from);
    } else {
      KraftScale(lens, to, from - to);
      ShlShl(1, to, from - to);
      ShlMonotone(HuffmanCodes.Kraft(lens, to), Pow2(to), from - to);
      ShlMonotone(Pow2(to), HuffmanCodes.Kraft(lens, to), from - to);
    }
  }

  const NODES := 2 * HuffmanCodes.MAX_ALPHA_SIZE

  /** The leaf weights are the first words, each of height 0. */
  ghost predicate LeafWords(w: seq<nat>, vals: seq<nat>) {
    && |vals| <= |w|
    && forall i {:trigger w[i]} {:trigger vals[i]} :: 1 <= i < |vals| ==> vals[i] >= 1 && w[i] == vals[i] * 256
  }

  /** Nodes below k have no parent. */
  ghost predicate Orphans(p: Parents, k: nat) {
    1 <= k <= |p| && p[0] == -2 && forall n {:trigger p[n]} :: 1 <= n < k ==> p[n] == -1
  }

  lemma {:induction false} LeafTree(p: Parents, w: seq<nat>, vals: seq<nat>, r: nat)
    requires Orphans(p, |vals|) && LeafWords(w, vals) && 1 <= r < |vals|
    ensures Tree(p, w, vals, 1, r)
  {
    SingletonTrees(p, vals, |vals| - 1, r, |vals| - 1);
    SplitWord(vals[r], 0);
    assert w[r] == vals[r] * 256;
    forall i {:trigger Depth(p, i)} | 1 <= i < |vals| && Root(p, i) == r
      ensures Depth(p, i) <= DepthOf(w[r])
    {
      assert p[i] == -1;
    }
  }

  ghost predicate FirstNumbers(h: multiset<nat>, k: nat) {
    forall n: nat {:trigger h[n]} :: h[n] == if n < k then 1 else 0
  }

  lemma {:induction false} LeafForest(p: Parents, w: seq<nat>, h: multiset<nat>, vals: seq<nat>)
    requires 3 <= |vals| < |p| && |w| == |p| && LeafWords(w, vals) && Orphans(p, |vals|)
    requires FirstNumbers(h, |vals|)
    ensures Forest(p, w, h, vals, |vals| - 1, 1)
  {
    forall r {:trigger IsRoot(p, r)} | 1 <= r < |vals|
      ensures Tree(p, w, vals, 1, r)
    {
      LeafTree(p, w, vals, r);
    }
    forall i {:trigger Depth(p, i)} | 1 <= i < |vals|
      ensures Depth(p, i) == 0
    {
      assert p[i] == -1;
    }
  }

  /** The one-leaf trees, queued by weight. */
  method QueueLeaves(w: seq<nat>, p: Parents, alphaSize: nat, ghost vals: seq<nat>)
    returns (heap: seq<nat>, weight: seq<nat>, parent: Parents)
    requires |w| == |p| == NODES && 2 <= alphaSize <= HuffmanCodes.MAX_ALPHA_SIZE && |vals| == alphaSize + 1
    requires LeafWords(w, vals)
    ensures |weight| == |parent| == NODES && LeafWords(weight, vals)
    ensures Ordered(heap, weight) && |heap| == alphaSize + 1
    ensures Forest(parent, weight, multiset(heap), vals, alphaSize, 1)
    ensures NoneCheaper(parent, weight, vals, alphaSize)
  {
    hide NoneCheaper;
    heap, weight, parent := [0], w[0 := 0], p[0 := -2];
    assert LeafWords(weight, vals);
    for i := 1 to alphaSize + 1
      invariant |heap| == i && Ordered(heap, weight) && FirstNumbers(multiset(heap), i)
      invariant |parent| == NODES && Orphans(parent, i)
    {
      parent := parent[i := -1];
      ghost var h := heap;
      heap := Push(heap, weight, i);
      assert |multiset(heap)| == |heap| && |multiset(h)| == |h|;
    }
    assert FirstNumbers(multiset(heap), |vals|);
    LeafForest(parent, weight, multiset(heap), vals);
    LeavesOptimal(parent, weight, vals);
  }

  lemma {:induction false} LeavesOptimal(p: Parents, w: seq<nat>, vals: seq<nat>)
    requires 1 <= |vals| < |p| == |w| && LeafWords(w, vals) && Orphans(p, |vals|)
    ensures NoneCheaper(p, w, vals, |vals| - 1)
  {
    hide NoneCheaper;
    forall n {:trigger p[n]} {:trigger w[n]} | 1 <= n < |vals|
      ensures p[n] < 0 && w[n] / 256 == vals[n]
    {
      assert w[n] == vals[n] * 256;
    }
    LeavesKeep(p, w, vals);
  }

  lemma {:induction false} TwoLightest(h2: seq<nat>, w: seq<nat>, n2: nat)
    requires NoneLess(h2, w, n2) && |h2| >= 1 && h2[0] == 0
    ensures forall r: nat {:trigger multiset(h2)[r]} :: r >= 1 && r in multiset(h2) ==> r < |w| && w[n2] <= w[r]
  {
    forall r: nat {:trigger multiset(h2)[r]} | r >= 1 && r in multiset(h2)
      ensures r < |w| && w[n2] <= w[r]
    {
      var j :| 0 <= j < |h2| && h2[j] == r;
    }
  }

  lemma {:induction false} NewNode(p: Parents, w: seq<nat>, h: multiset<nat>, vals: seq<nat>, top: nat, floor: nat,
      word: nat)
    requires Forest(p, w, h, vals, top, floor) && LeafWords(w, vals) && top + 1 < |w|
    ensures h[top + 1] == 0 && LeafWords(w[top + 1 := word], vals)
  {
  }

  /** The two nodes taken from the queue are the lightest roots. */
  lemma {:induction false} JoinOptimal(p: Parents, w: seq<nat>, h: multiset<nat>, vals: seq<nat>, top: nat,
                                       floor: nat, x: nat, y: nat, h': multiset<nat>)
    requires Forest(p, w, h, vals, top, floor) && top + 1 < |p| && top < 2 * (|vals| - 1) - 1
    requires x >= 1 && y >= 1 && h' + multiset{x, y} == h
    requires x < |w| && y < |w| && w[x] <= w[y] && Sum(vals, |vals| - 1) < 0x80_0000
    requires forall r {:trigger h'[r]} :: r >= 1 && r in h' ==> r < |w| && w[y] <= w[r]
    requires NoneCheaper(p, w, vals, top)
    ensures NoneCheaper(Join(p, x, y, top + 1), w[top + 1 := AddWeights(w[x], w[y])], vals, top + 1)
  {
    hide Tree, Sum, Fib, AddWeights, DepthOf, Depth, NoneCheaper;
    assert h[x] >= 1 && h[y] >= 1 && (x == y ==> h[x] >= 2);
    forall r {:trigger IsRoot(p, r)} | 1 <= r <= top && IsRoot(p, r) && r != x && r != y
      ensures w[x] / 256 <= w[r] / 256 && w[y] / 256 <= w[r] / 256
    {
      assert h[r] == h'[r] + (multiset{x, y})[r] && h[r] == 1;
    }
    HeightOfRoots(p, w, h, vals, top, floor, x, y);
    assert Tree(p, w, vals, floor, x) && Tree(p, w, vals, floor, y);
    TreeTotal(p, w, vals, floor, x);
    TreeTotal(p, w, vals, floor, y);
    JoinKeeps(p, w, vals, top, x, y, AddWeights(w[x], w[y]));
  }

  lemma {:induction false} TreeTotal(p: Parents, w: seq<nat>, vals: seq<nat>, floor: nat, r: nat)
    requires Tree(p, w, vals, floor, r)
    ensures |vals| >= 1 && r < |w| && w[r] / 256 == Total(p, vals, r, |vals| - 1)
  {
  }

  /** One join: the two lightest trees become one, which goes back in the queue. */
  method JoinTwo(h: seq<nat>, w: seq<nat>, p: Parents, nNodes: nat, ghost vals: seq<nat>, ghost floor: nat)
    returns (heap: seq<nat>, weight: seq<nat>, parent: Parents, ghost floor': nat)
    requires |w| == |p| == NODES && |vals| <= nNodes + 1
    requires |h| >= 3 && nNodes + 1 < |w| && nNodes < 2 * (|vals| - 1) - 1
    requires Ordered(h, w) && LeafWords(w, vals) && Sum(vals, |vals| - 1) < 0x80_0000
    requires Forest(p, w, multiset(h), vals, nNodes, floor) && NoneCheaper(p, w, vals, nNodes)
    ensures |weight| == |parent| == NODES && |heap| == |h| - 1
    ensures Ordered(heap, weight) && LeafWords(weight, vals) && weight[nNodes + 1] < 0x8000_0000
    ensures Forest(parent, weight, multiset(heap), vals, nNodes + 1, floor')
    ensures NoneCheaper(parent, weight, vals, nNodes + 1)
  {
    hide Forest, Ordered, LeafWords, Sum, AddWeights, NoneCheaper;
    OrderedNodes(h, w);
    var n1, n2, node;
    n1, heap := PopMin(h, w);
    n2, heap := PopMin(heap, w);
    ghost var h2 := heap;
    assert multiset(h2) + multiset{n1, n2} == multiset(h);
    TwoLightest(h2, w, n2);
    JoinStep(p, w, multiset(h), vals, nNodes, floor, n1, n2, multiset(h2));
    JoinOptimal(p, w, multiset(h), vals, nNodes, floor, n1, n2, multiset(h2));
    floor' := WeightOf(w[n2]);
    node := nNodes + 1;
    NewNode(p, w, multiset(h), vals, nNodes, floor, AddWeights(w[n1], w[n2]));
    OrderedFrame(h2, w, node, AddWeights(w[n1], w[n2]));
    parent := p[n1 := node][n2 := node];
    weight := w[node := AddWeights(w[n1], w[n2])];
    parent := parent[node := -1];
    heap := Push(heap, weight, node);
    assert |multiset(heap)| == |heap| && |multiset(h2)| == |h2|;
  }

  /** Join the two lightest trees until one is left. */
  method JoinAll(h: seq<nat>, w: seq<nat>, p: Parents, alphaSize: nat, ghost vals: seq<nat>)
    returns (weight: seq<nat>, parent: Parents, ghost root: nat, ghost floor: nat)
    requires 2 <= alphaSize <= HuffmanCodes.MAX_ALPHA_SIZE && |vals| == |h| == alphaSize + 1
    requires |w| == |p| == NODES
    requires Ordered(h, w) && LeafWords(w, vals) && Sum(vals, alphaSize) < 0x80_0000
    requires Forest(p, w, multiset(h), vals, alphaSize, 1) && NoneCheaper(p, w, vals, alphaSize)
    ensures |weight| == |parent| == NODES && LeafWords(weight, vals) && root >= 1
    ensures Forest(parent, weight, multiset{0, root}, vals, 2 * alphaSize - 1, floor)
    ensures NoneCheaper(parent, weight, vals, 2 * alphaSize - 1)
  {
    hide NoneCheaper;
    var heap, nNodes := h, alphaSize;
    weight, parent, floor := w, p, 1;
    while |heap| > 2
      invariant |weight| == |parent| == NODES
      invariant 2 <= |heap| <= alphaSize + 1 && nNodes + |heap| == 2 * alphaSize + 1
      invariant Ordered(heap, weight) && LeafWords(weight, vals)
      invariant Forest(parent, weight, multiset(heap), vals, nNodes, floor)
      invariant NoneCheaper(parent, weight, vals, nNodes)
    {
      heap, weight, parent, floor := JoinTwo(heap, weight, parent, nNodes, vals, floor);
      nNodes := nNodes + 1;
    }
    root := heap[1];
    assert heap == [0, root];
  }

  /** len[i-1] := the number of steps from leaf i to the root. */
  method ReadLengths(len: array<nat>, parent: Parents, alphaSize: nat, maxLen: nat, ghost top: nat)
    returns (tooLong: bool, ghost at: nat)
    requires alphaSize <= len.Length && alphaSize <= top && Closed(parent, top)
    modifies len
    ensures forall i {:trigger len[i]} :: 0 <= i < alphaSize ==> len[i] == Depth(parent, i + 1)
    ensures forall i {:trigger len[i]} :: alphaSize <= i < len.Length ==> len[i] == old(len[i])
    ensures tooLong ==> at < alphaSize && len[at] > maxLen
    ensures !tooLong ==> forall i {:trigger len[i]} :: 0 <= i < alphaSize ==> len[i] <= maxLen
  {
    tooLong, at := false, 0;
    for i := 1 to alphaSize + 1
      invariant forall n {:trigger len[n]} :: 0 <= n < i - 1 ==> len[n] == Depth(parent, n + 1)
      invariant forall n {:trigger len[n]} :: alphaSize <= n < len.Length ==> len[n] == old(len[n])
      invariant tooLong ==> at < i - 1 && len[at] > maxLen
      invariant !tooLong ==> forall n {:trigger len[n]} :: 0 <= n < i - 1 ==> len[n] <= maxLen
    {
      var j, k: nat := 0, i;
      while parent[k] >= 0
        invariant k <= top && Depth(parent, i) == j + Depth(parent, k)
        decreases top - k
      {
        k := parent[k];
        j := j + 1;
      }
      len[i - 1] := j;
      if j > maxLen {
        tooLong, at := true, i - 1;
      }
    }
  }

  function Halved(vals: seq<nat>): (r: seq<nat>)
    ensures |r| == |vals|
  {
    seq(|vals|, i requires 0 <= i < |vals| => if i == 0 then vals[0] else 1 + vals[i] / 2)
  }

  lemma {:induction false} HalvedSum(vals: seq<nat>, i: nat)
    requires i < |vals| && forall n {:trigger vals[n]} :: 1 <= n < |vals| ==> vals[n] >= 1
    ensures Sum(Halved(vals), i) <= Sum(vals, i)
    ensures Sum(vals, i) > 2 * i ==> Sum(Halved(vals), i) < Sum(vals, i)
  {
    if i > 0 {
      HalvedSum(vals, i - 1);
      assert Halved(vals)[i] == 1 + vals[i] / 2;
      assert vals[i] >= 1;
    }
  }

  /** Coarser weights: each is halved, rounding up past zero. */
  method ScaleWeights(w: seq<nat>, alphaSize: nat, ghost vals: seq<nat>) returns (weight: seq<nat>)
    requires |vals| == alphaSize + 1 <= |w| && LeafWords(w, vals)
    ensures |weight| == |w| && LeafWords(weight, Halved(vals))
  {
    weight := w;
    for i := 1 to alphaSize + 1
      invariant |weight| == |w|
      invariant forall n {:trigger weight[n]} :: 1 <= n < |vals| ==>
                  weight[n] == if n < i then Halved(vals)[n] * 256 else vals[n] * 256
    {
      assert w[i] == vals[i] * 256;
      var j := weight[i] / 256;
      j := 1 + j / 2;
      weight := weight[i := j * 256];
    }
    forall i {:trigger weight[i]} | 1 <= i < |vals|
      ensures Halved(vals)[i] >= 1 && weight[i] == Halved(vals)[i] * 256
    {
    }
  }

  /** The weight of each leaf, in place 1 and up. */
  function Weights(freq: seq<nat>): (r: seq<nat>)
    ensures |r| == |freq| + 1
  {
    [0] + seq(|freq|, i requires 0 <= i < |freq| => if freq[i] == 0 then 1 else freq[i])
  }

  /** A cheapest code for these weights has a length above the limit. */
  ghost predicate Overlong(f: seq<nat>, maxLen: nat) {
    exists l: seq<nat>, i: nat {:trigger Optimal(f, l), l[i]} :: Optimal(f, l) && i < |l| && l[i] > maxLen
  }

  lemma {:induction false} TooLong(f: seq<nat>, l: seq<nat>, i: nat, maxLen: nat)
    requires Optimal(f, l) && i < |l| && l[i] > maxLen
    ensures Overlong(f, maxLen)
  {
  }

  /** One tree for the current weights, and its code lengths. */
  method BuildTree(len: array<nat>, w: seq<nat>, p: Parents, alphaSize: nat, maxLen: nat, ghost vals: seq<nat>)
    returns (weight: seq<nat>, parent: Parents, tooLong: bool)
    requires 2 <= alphaSize <= HuffmanCodes.MAX_ALPHA_SIZE && alphaSize <= len.Length && |vals| == alphaSize + 1
    requires |w| == |p| == NODES && LeafWords(w, vals) && Sum(vals, alphaSize) < 0x80_0000
    requires 17 <= maxLen
    modifies len
    ensures |weight| == |parent| == NODES && LeafWords(weight, vals)
    ensures forall i {:trigger len[i]} :: alphaSize <= i < len.Length ==> len[i] == old(len[i])
    ensures tooLong ==> Sum(vals, alphaSize) >= 6765
    ensures !tooLong ==> forall i {:trigger len[i]} :: 0 <= i < alphaSize ==>
      1 <= len[i] <= maxLen && len[i] <= alphaSize
    ensures !tooLong ==> HuffmanCodes.Kraft(len[..alphaSize], alphaSize) == Pow2(alphaSize)
    ensures Optimal(vals[1..], len[..alphaSize])
    ensures tooLong ==> Overlong(vals[1..], maxLen)
  {
    hide Sum, LeafWords, HuffmanCodes.Kraft, HuffmanForest.Fib, NoneCheaper, Optimal, Overlong;
    var heap;
    heap, weight, parent := QueueLeaves(w, p, alphaSize, vals);
    ghost var root, floor, at;
    weight, parent, root, floor := JoinAll(heap, weight, parent, alphaSize, vals);
    tooLong, at := ReadLengths(len, parent, alphaSize, maxLen, 2 * alphaSize - 1);
    ghost var lens := len[..alphaSize];
    TreeLengths(parent, weight, vals, 2 * alphaSize - 1, floor, root, lens);
    TreeIsOptimal(parent, weight, vals, 2 * alphaSize - 1, lens);
    if tooLong {
      assert lens[at] == len[at];
      TooLong(vals[1..], lens, at, maxLen);
      FibPast20(len[at] + 2);
    } else {
      forall i {:trigger len[i]} | 0 <= i < alphaSize
        ensures 1 <= len[i] <= maxLen && len[i] <= alphaSize
      {
        assert lens[i] == len[i];
      }
    }
  }

  /** What a frequency counts as after k halvings: never as nothing. */
  function Scaled(x: nat, k: nat): nat {
    if k > 0 then 1 + Scaled(x, k - 1) / 2 else if x == 0 then 1 else x
  }

  function AllScaled(freq: seq<nat>, k: nat): (r: seq<nat>)
    ensures |r| == |freq|
  {
    seq(|freq|, i requires 0 <= i < |freq| => Scaled(freq[i], k))
  }

  /** A frequency halved k times is within two of its quotient, and a larger one stays as large. */
  lemma {:induction false} ScaledBounds(x: nat, y: nat, k: nat)
    ensures 1 <= Scaled(x, k) && Shr(x, k) <= Scaled(x, k) <= Shr(x, k) + 2
    ensures x <= y ==> Scaled(x, k) <= Scaled(y, k)
  {
    if k > 0 {
      ScaledBounds(x, y, k - 1);
      ShrLast(x, k - 1);
    }
  }

  lemma {:induction false} ShrLast(x: nat, k: nat)
    ensures Shr(x, k + 1) == Shr(x, k) / 2
  {
    if k > 0 {
      ShrLast(x / 2, k - 1);
    }
  }

  lemma {:induction false} HalvedScaled(vals: seq<nat>, freq: seq<nat>, k: nat)
    requires |vals| == |freq| + 1 && vals[1..] == AllScaled(freq, k)
    ensures Halved(vals)[1..] == AllScaled(freq, k + 1)
  {
    forall i | 0 <= i < |freq|
      ensures Halved(vals)[1..][i] == AllScaled(freq, k + 1)[i]
    {
      assert vals[1..][i] == vals[i + 1];
    }
  }

  /** Up to the k-th halving a code would be too long. */
  ghost predicate MustHalve(freq: seq<nat>, k: nat, maxLen: nat) {
    forall n: nat {:trigger AllScaled(freq, n)} :: n < k ==> Overlong(AllScaled(freq, n), maxLen)
  }

  lemma {:induction false} NoHalvings(freq: seq<nat>, maxLen: nat)
    ensures MustHalve(freq, 0, maxLen)
  {
  }

  lemma {:induction false} HalvedAgain(freq: seq<nat>, k: nat, maxLen: nat)
    requires MustHalve(freq, k, maxLen) && Overlong(AllScaled(freq, k), maxLen)
    ensures MustHalve(freq, k + 1, maxLen)
  {
    hide Overlong, AllScaled;
  }

  /**
   * Terminates, with every length in 1..maxLen and the code space used up exactly, for any
   * frequencies whose total fits a weight word. The lengths are the cheapest that any prefix
   * code could have, for the frequencies as they are after some number of halvings, before each
   * of which a cheapest code was too long; and for those given, unless their total is 6765 or more.
   */
  method MakeCodeLengths(len: array<nat>, freq: seq<nat>, maxLen: nat) returns (ghost halvings: nat)
    requires 2 <= |freq| <= HuffmanCodes.MAX_ALPHA_SIZE && |freq| <= len.Length
    requires 17 <= maxLen <= HuffmanCodes.LONGEST
    requires Sum(Weights(freq), |freq|) < 0x80_0000
    modifies len
    ensures forall i :: 0 <= i < |freq| ==> 1 <= len[i] <= maxLen
    ensures HuffmanCodes.Kraft(len[..|freq|], HuffmanCodes.LONGEST) == Pow2(HuffmanCodes.LONGEST)
    ensures Optimal(AllScaled(freq, halvings), len[..|freq|]) && MustHalve(freq, halvings, maxLen)
    ensures Sum(Weights(freq), |freq|) < 6765 ==> halvings == 0
    ensures forall i :: |freq| <= i < len.Length ==> len[i] == old(len[i])
  {
    hide Halved, HuffmanCodes.Kraft, Pow2, HuffmanCodes.Share, Optimal, Sum, Scaled, Weights, Overlong,
      MustHalve;
    var alphaSize := |freq|;
    var weight, parent, tooLong := seq(NODES, _ => 0), seq(NODES, _ => 0), true;
    ghost var vals := Weights(freq);
    WeightsAre(freq);
    for i := 0 to alphaSize
      invariant |weight| == NODES
      invariant forall n {:trigger weight[n]} :: 1 <= n <= i ==> weight[n] == vals[n] * 256
    {
      weight := weight[i + 1 := (if freq[i] == 0 then 1 else freq[i]) * 256];
    }
    halvings := 0;
    NoHalvings(freq, maxLen);
    while true
      invariant |weight| == |parent| == NODES && |vals| == alphaSize + 1 && LeafWords(weight, vals)
      invariant Sum(vals, alphaSize) < 0x80_0000 && vals[1..] == AllScaled(freq, halvings)
      invariant MustHalve(freq, halvings, maxLen) && (halvings == 0 ==> vals == Weights(freq))
      invariant halvings > 0 ==> Sum(Weights(freq), alphaSize) >= 6765
      invariant forall n {:trigger len[n]} :: alphaSize <= n < len.Length ==> len[n] == old(len[n])
      decreases Sum(vals, alphaSize)
    {
      weight, parent, tooLong := BuildTree(len, weight, parent, alphaSize, maxLen, vals);
      if !tooLong {
        break;
      }
      LeafWeights(weight, vals);
      HalvedSum(vals, alphaSize);
      weight := ScaleWeights(weight, alphaSize, vals);
      HalvedScaled(vals, freq, halvings);
      HalvedAgain(freq, halvings, maxLen);
      vals, halvings := Halved(vals), halvings + 1;
    }
    KraftFull(len[..alphaSize], alphaSize, HuffmanCodes.LONGEST);
  }

  lemma {:induction false} WeightsAre(freq: seq<nat>)
    ensures forall n {:trigger Weights(freq)[n]} :: 1 <= n <= |freq| ==>
      Weights(freq)[n] == (if freq[n - 1] == 0 then 1 else freq[n - 1]) >= 1
    ensures Weights(freq)[1..] == AllScaled(freq, 0)
  {
  }

  lemma {:induction false} LeafWeights(w: seq<nat>, vals: seq<nat>)
    requires LeafWords(w, vals)
    ensures forall n {:trigger vals[n]} :: 1 <= n < |vals| ==> vals[n] >= 1
  {
    forall n {:trigger vals[n]} | 1 <= n < |vals|
      ensures vals[n] >= 1
    {
      assert w[n] == vals[n] * 256;
    }
  }

  /** What one tree over all the leaves says about the lengths read off it. */
  lemma {:induction false} TreeLengths(p: Parents, w: seq<nat>, vals: seq<nat>, top: nat, floor: nat, root: nat,
      lens: seq<nat>)
    requires root >= 1 && Forest(p, w, multiset{0, root}, vals, top, floor) && top == 2 * (|vals| - 1) - 1
    requires |lens| == |vals| - 1
    requires forall i {:trigger lens[i]} :: 0 <= i < |lens| ==> lens[i] == Depth(p, i + 1)
    ensures forall i {:trigger lens[i]} :: 0 <= i < |lens| ==>
              1 <= lens[i] <= |lens| && Fib(lens[i] + 2) <= Sum(vals, |vals| - 1)
    ensures HuffmanCodes.Kraft(lens, |lens|) == Pow2(|lens|)
  {
    forall i {:trigger lens[i]} | 0 <= i < |lens|
      ensures 1 <= lens[i] <= |lens| && Fib(lens[i] + 2) <= Sum(vals, |vals| - 1)
    {
      OneTree(p, w, multiset{0, root}, vals, top, floor, root, i + 1);
    }
    forall n {:trigger Depth(p, n)} {:trigger Root(p, n)} | 1 <= n <= |lens|
      ensures Root(p, n) == root && Depth(p, n) == lens[n - 1]
    {
      OneTree(p, w, multiset{0, root}, vals, top, floor, root, n);
    }
    OneTree(p, w, multiset{0, root}, vals, top, floor, root, 1);
    assert multiset{0, root}[root] == 1 && IsRoot(p, root);
    assert Tree(p, w, vals, floor, root);
    MassIsKraft(p, lens, |lens|, root, |lens|);
    assert lens[..|lens|] == lens;
  }
}
