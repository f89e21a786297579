/**
 * The priority queue of MakeCodeLengths: node numbers in heap[1..], ordered by
 * weight, with a weightless sentinel in heap[0]. The queue and the node table are
 * locals of one function, so they are sequences that the methods here update.
 */
module HuffmanHeap {

  /** Entry i weighs no less than its parent entry. */
  predicate Edge(h: seq<nat>, w: seq<nat>, i: nat) {
    && i < |h| && h[i] < |w| && h[i / 2] < |w|
    && w[h[i / 2]] <= w[h[i]]
  }

  /** Entry i weighs no less than its grandparent entry. */
  predicate Grand(h: seq<nat>, w: seq<nat>, i: nat) {
    && i < |h| && h[i] < |w| && h[i / 2 / 2] < |w|
    && w[h[i / 2 / 2]] <= w[h[i]]
  }

  ghost predicate Ordered(h: seq<nat>, w: seq<nat>) {
    && |h| >= 1 && h[0] == 0 && |w| >= 1 && w[0] == 0
    && (forall i {:trigger h[i]} :: 1 <= i < |h| ==> 1 <= h[i] < |w|)
    && (forall i {:trigger Edge(h, w, i)} :: 2 <= i < |h| ==> Edge(h, w, i))
  }

  /** Every entry from the second on is in order, except below z. */
  ghost predicate OrderedButBelow(h: seq<nat>, w: seq<nat>, z: nat) {
    && 1 <= z && |h| >= 1 && h[0] == 0 && |w| >= 1 && w[0] == 0
    && (forall i {:trigger h[i]} :: 1 <= i < |h| ==> 1 <= h[i] < |w|)
    && (forall i {:trigger Edge(h, w, i)} :: 2 <= i < |h| && i / 2 != z ==> Edge(h, w, i))
    && (forall i {:trigger Grand(h, w, i)} :: 2 <= i < |h| && i / 2 == z ==> Grand(h, w, i))
  }

  /** Every entry from the second on is in order, except z itself. */
  ghost predicate OrderedButAt(h: seq<nat>, w: seq<nat>, z: nat) {
    && 1 <= z < |h| && h[0] == 0 && |w| >= 1 && w[0] == 0
    && (forall i {:trigger h[i]} :: 1 <= i < |h| ==> 1 <= h[i] < |w|)
    && (forall i {:trigger Edge(h, w, i)} :: 2 <= i < |h| && i != z ==> Edge(h, w, i))
    && (forall i {:trigger Grand(h, w, i)} :: 2 <= i < |h| && i / 2 == z ==> Grand(h, w, i))
  }

  /** No entry weighs less than node x. */
  ghost predicate NoneLess(h: seq<nat>, w: seq<nat>, x: nat) {
    x < |w| && forall i {:trigger h[i]} :: 1 <= i < |h| ==> h[i] < |w| && w[x] <= w[h[i]]
  }

  /** The order speaks of the entries' weights only. */
  lemma {:induction false} OrderedFrame(h: seq<nat>, w: seq<nat>, top: nat, word: nat)
    requires Ordered(h, w) && 1 <= top < |w| && top !in multiset(h)
    ensures Ordered(h, w[top := word])
  {
    forall i {:trigger Edge(h, w[top := word], i)} | 2 <= i < |h|
      ensures Edge(h, w[top := word], i)
    {
      assert Edge(h, w, i);
      assert h[i] in multiset(h) && h[i / 2] in multiset(h);
    }
  }

  function Swap(h: seq<nat>, i: nat, j: nat): (g: seq<nat>)
    requires i < |h| && j < |h|
    ensures |g| == |h| && multiset(g) == multiset(h)
  {
    h[i := h[j]][j := h[i]]
  }

  lemma {:induction false} SwapUp(h: seq<nat>, w: seq<nat>, z: nat)
    requires OrderedButAt(h, w, z) && z >= 2 && w[h[z]] < w[h[z / 2]]
    ensures OrderedButAt(Swap(h, z, z / 2), w, z / 2)
  {
    var g, y := Swap(h, z, z / 2), z / 2;
    forall i {:trigger Edge(g, w, i)} | 2 <= i < |g| && i != y
      ensures Edge(g, w, i)
    {
      if i / 2 == z {
        assert Grand(h, w, i);
      } else {
        assert i != z ==> Edge(h, w, i);
      }
    }
    forall i {:trigger Grand(g, w, i)} | 2 <= i < |g| && i / 2 == y
      ensures Grand(g, w, i)
    {
      assert i != z ==> Edge(h, w, i);
      if y >= 2 {
        assert Edge(h, w, y);
      }
    }
  }

  lemma {:induction false} AppendHole(h: seq<nat>, w: seq<nat>, x: nat)
    requires Ordered(h, w) && 1 <= x < |w|
    ensures OrderedButAt(h + [x], w, |h|)
  {
    var g := h + [x];
    forall i {:trigger Edge(g, w, i)} | 2 <= i < |g| && i != |h|
      ensures Edge(g, w, i)
    {
      assert Edge(h, w, i);
    }
  }

  lemma {:induction false} SettledUp(h: seq<nat>, w: seq<nat>, z: nat)
    requires OrderedButAt(h, w, z) && w[h[z]] >= w[h[z / 2]]
    ensures Ordered(h, w)
  {
    forall i {:trigger Edge(h, w, i)} | 2 <= i < |h|
      ensures Edge(h, w, i)
    {
    }
  }

  lemma {:induction false} SwapDown(h: seq<nat>, w: seq<nat>, z: nat, y: nat)
    requires OrderedButBelow(h, w, z) && y < |h| && y / 2 == z && w[h[y]] <= w[h[z]]
    requires w[h[2 * z]] >= w[h[y]] && (2 * z + 1 < |h| ==> w[h[2 * z + 1]] >= w[h[y]])
    ensures OrderedButBelow(Swap(h, z, y), w, y)
  {
    var g := Swap(h, z, y);
    forall i {:trigger Edge(g, w, i)} | 2 <= i < |g| && i / 2 != y
      ensures Edge(g, w, i)
    {
      if i == z {
        assert Grand(h, w, y);
      } else if i / 2 != z {
        assert Edge(h, w, i);
      } else {
        assert i == 2 * z || i == 2 * z + 1;
      }
    }
    forall i {:trigger Grand(g, w, i)} | 2 <= i < |g| && i / 2 == y
      ensures Grand(g, w, i)
    {
      assert Edge(h, w, i);
    }
  }

  lemma {:induction false} SettledDown(h: seq<nat>, w: seq<nat>, z: nat)
    requires OrderedButBelow(h, w, z) && (z < |h| || |h| == 1)
    requires 2 * z < |h| ==> w[h[2 * z]] >= w[h[z]]
    requires 2 * z + 1 < |h| ==> w[h[2 * z + 1]] >= w[h[z]]
    ensures Ordered(h, w)
  {
    forall i {:trigger Edge(h, w, i)} | 2 <= i < |h|
      ensures Edge(h, w, i)
    {
      assert h[i] < |w|;
      assert i / 2 == z ==> i == 2 * z || i == 2 * z + 1;
    }
  }

  lemma {:induction false} OrderedNodes(h: seq<nat>, w: seq<nat>)
    requires Ordered(h, w)
    ensures h[0] == 0 && w[0] == 0 && forall i {:trigger h[i]} :: 1 <= i < |h| ==> 1 <= h[i] < |w|
  {
  }

  lemma {:induction false} RootIsLeast(h: seq<nat>, w: seq<nat>, i: nat)
    requires Ordered(h, w) && 1 <= i < |h|
    ensures w[h[1]] <= w[h[i]]
  {
    if i >= 2 {
      RootIsLeast(h, w, i / 2);
      assert Edge(h, w, i);
    }
  }

  /** Swapping entries z and y of the full heap is moving the hole from z to y. */
  lemma {:induction false} HoleMoves(heap: seq<nat>, full: seq<nat>, z: nat, y: nat, tmp: nat)
    requires z < |heap| && y < |heap| && z != y && full == heap[z := tmp]
    ensures Swap(full, z, y) == heap[z := heap[y]][y := tmp]
  {
    var g, k := Swap(full, z, y), heap[z := heap[y]][y := tmp];
    assert |g| == |k| && forall i :: 0 <= i < |g| ==> g[i] == k[i];
  }

  lemma {:induction false} NodesButAt(h: seq<nat>, w: seq<nat>, z: nat)
    requires OrderedButAt(h, w, z)
    ensures 1 <= z < |h| && forall i {:trigger h[i]} :: 0 <= i < |h| ==> h[i] < |w|
  {
  }

  /** What is lighter than its parent entry is below the first. */
  lemma {:induction false} NotAtTop(h: seq<nat>, w: seq<nat>, z: nat)
    requires OrderedButAt(h, w, z) && h[z / 2] < |w| && h[z] < |w| && w[h[z]] < w[h[z / 2]]
    ensures z >= 2
  {
  }

  /** Append node x and sift it up (UPHEAP of the new last entry). */
  method Push(h: seq<nat>, w: seq<nat>, x: nat) returns (heap: seq<nat>)
    requires Ordered(h, w) && 1 <= x < |w|
    ensures Ordered(heap, w) && multiset(heap) == multiset(h) + multiset{x}
  {
    hide OrderedButAt, Ordered, Swap;
    heap := h + [x];
    var zz, tmp := |h|, x;
    AppendHole(h, w, x);
    ghost var full := heap;  // heap with tmp back in the hole at zz
    NodesButAt(full, w, zz);
    while w[tmp] < w[heap[zz / 2]]
      invariant 1 <= zz < |heap| == |full| && full == heap[zz := tmp]
      invariant heap[zz / 2] == full[zz / 2] && full[zz / 2] < |w|
      invariant multiset(full) == multiset(h + [x])
      invariant OrderedButAt(full, w, zz)
      decreases zz
    {
      NotAtTop(full, w, zz);
      SwapUp(full, w, zz);
      HoleMoves(heap, full, zz, zz / 2, tmp);
      full := Swap(full, zz, zz / 2);
      heap := heap[zz := heap[zz / 2]];
      zz := zz / 2;
      NodesButAt(full, w, zz);
    }
    SettledUp(full, w, zz);
    heap := heap[zz := tmp];
  }

  lemma {:induction false} NodesBelow(h: seq<nat>, w: seq<nat>, z: nat)
    requires OrderedButBelow(h, w, z)
    ensures forall i {:trigger h[i]} :: 1 <= i < |h| ==> 1 <= h[i] < |w|
  {
  }

  /** DOWNHEAP(1): sift the first entry down. */
  method DownHeap(h: seq<nat>, w: seq<nat>) returns (heap: seq<nat>)
    requires |h| >= 2 && OrderedButBelow(h, w, 1)
    ensures Ordered(heap, w) && multiset(heap) == multiset(h)
  {
    hide OrderedButBelow, Ordered, Swap;
    heap := h;
    var nHeap, zz, tmp := |h| - 1, 1, h[1];
    ghost var full := heap;
    while true
      invariant |heap| == |full| == nHeap + 1 && 1 <= zz <= nHeap && full == heap[zz := tmp]
      invariant multiset(full) == multiset(h)
      invariant OrderedButBelow(full, w, zz)
      decreases nHeap - zz
    {
      NodesBelow(full, w, zz);
      var yy := 2 * zz;
      if yy > nHeap {
        break;
      }
      assert heap[yy] == full[yy] && full[yy] < |w|;
      if yy < nHeap {
        assert heap[yy + 1] == full[yy + 1] && full[yy + 1] < |w|;
        if w[heap[yy + 1]] < w[heap[yy]] {
          yy := yy + 1;
        }
      }
      assert heap[yy] == full[yy] && full[yy] < |w| && full[zz] == tmp;
      if w[tmp] < w[heap[yy]] {
        break;
      }
      SwapDown(full, w, zz, yy);
      HoleMoves(heap, full, zz, yy, tmp);
      full := Swap(full, zz, yy);
      heap := heap[zz := heap[yy]];
      zz := yy;
    }
    SettledDown(full, w, zz);
    heap := heap[zz := tmp];
  }

  /** Take heap[1]: the last entry replaces it and is sifted down. */
  method PopMin(h: seq<nat>, w: seq<nat>) returns (least: nat, heap: seq<nat>)
    requires |h| >= 2 && Ordered(h, w)
    ensures least == h[1] >= 1 && |heap| == |h| - 1
    ensures Ordered(heap, w) && NoneLess(heap, w, least)
    ensures multiset(heap) + multiset{least} == multiset(h)
  {
    least := h[1];
    LastToTop(h, w);
    heap := h[1 := h[|h| - 1]][..|h| - 1];
    if |heap| > 1 {
      heap := DownHeap(heap, w);
    } else {
      SettledDown(heap, w, 1);
    }
    assert |multiset(heap)| == |heap| && |multiset(h)| == |h|;
    RestNoLess(h, heap, w);
  }

  lemma {:induction false} RestNoLess(h: seq<nat>, h': seq<nat>, w: seq<nat>)
    requires |h| >= 2 && Ordered(h, w) && Ordered(h', w)
    requires multiset(h') + multiset{h[1]} == multiset(h)
    ensures NoneLess(h', w, h[1])
  {
    forall i {:trigger h'[i]} | 1 <= i < |h'|
      ensures h'[i] < |w| && w[h[1]] <= w[h'[i]]
    {
      assert h'[i] in multiset(h') + multiset{h[1]};
      LeastOf(h, w, h'[i]);
    }
  }

  lemma {:induction false} LastToTop(h: seq<nat>, w: seq<nat>)
    requires |h| >= 2 && Ordered(h, w)
    ensures var g := h[1 := h[|h| - 1]][..|h| - 1];
            OrderedButBelow(g, w, 1) && multiset(g) + multiset{h[1]} == multiset(h)
  {
    var n := |h| - 1;
    var g := h[1 := h[n]][..n];
    assert Swap(h, 1, n) == g + [h[1]];
    assert multiset(g + [h[1]]) == multiset(g) + multiset{h[1]};
    forall i {:trigger Edge(g, w, i)} | 2 <= i < |g| && i / 2 != 1
      ensures Edge(g, w, i)
    {
      assert Edge(h, w, i);
    }
    forall i {:trigger Grand(g, w, i)} | 2 <= i < |g| && i / 2 == 1
      ensures Grand(g, w, i)
    {
      assert g[i] < |w|;
    }
  }

  lemma {:induction false} LeastOf(h: seq<nat>, w: seq<nat>, x: nat)
    requires Ordered(h, w) && x in multiset(h) && x >= 1 && |h| >= 2
    ensures x < |w| && h[1] < |w| && w[h[1]] <= w[x]
  {
    var j :| 0 <= j < |h| && h[j] == x;
    RootIsLeast(h, w, j);
  }
}
