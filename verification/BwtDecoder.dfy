/**
 * The decoder's inverse transform, in its two forms: one word per byte holding byte and
 * link (FAST), or twenty-bit links reversed in place along one cycle (SMALL). Both
 * fetch the same bytes.
 */
module BwtDecoder {
  import opened Prelude
  import opened Bits
  import opened Buckets
  import opened BwtInverse

  const MAX_BLOCK := 900_000

  // ----- cftab

  /** cftab[v] is where the bucket of byte v begins. */
  ghost predicate Starts(cftab: array<nat>, l: seq<byte>)
    reads cftab
  {
    cftab.Length == 257 && forall v: nat {:trigger cftab[v]} :: v < 257 ==> cftab[v] == Start(l, v)
  }

  /** Bucket starts from byte counts; the range checks on the way never fail. */
  method BuildCftab(unzftab: array<nat>, cftab: array<nat>, nblock: nat, ghost l: seq<byte>) returns (ok: bool)
    requires nblock == |l| && unzftab != cftab && unzftab.Length == 256 && cftab.Length == 257
    requires forall v: nat {:trigger unzftab[v]} {:trigger Count(l, v, |l|)} :: v < 256 ==>
      unzftab[v] == Count(l, v, |l|)
    modifies cftab
    ensures ok && Starts(cftab, l)
  {
    var fine := CheckUnzftab(unzftab, nblock, l);
    cftab[0] := 0;
    for i := 1 to 257
      invariant cftab[0] == 0 && forall v {:trigger cftab[v]} :: 1 <= v < i ==> cftab[v] == unzftab[v - 1]
    {
      cftab[i] := unzftab[i - 1];
    }
    for i: nat := 1 to 257
      invariant forall v: nat {:trigger cftab[v]} :: v < i ==> cftab[v] == Start(l, v)
      invariant forall v: nat {:trigger cftab[v]} :: i <= v < 257 ==> cftab[v] == unzftab[v - 1]
    {
      assert Start(l, i) == Start(l, i - 1) + Count(l, i - 1, |l|);
      cftab[i] := cftab[i] + cftab[i - 1];
    }
    ok := CheckCftab(cftab, nblock, l);
    ok := ok && fine;
  }

  /** No count is larger than the block. */
  method CheckUnzftab(unzftab: array<nat>, nblock: nat, ghost l: seq<byte>) returns (ok: bool)
    requires nblock == |l| && unzftab.Length == 256
    requires forall v: nat {:trigger unzftab[v]} {:trigger Count(l, v, |l|)} :: v < 256 ==>
      unzftab[v] == Count(l, v, |l|)
    ensures ok
  {
    ok := true;
    for i: nat := 0 to 256
      invariant ok
    {
      CountAtMost(l, i, |l|);
      if unzftab[i] > nblock {
        ok := false;
      }
    }
  }

  lemma {:induction false} CountAtMost(l: seq<byte>, v: nat, i: nat)
    requires i <= |l|
    ensures Count(l, v, i) <= i
  {
    if i > 0 {
      CountAtMost(l, v, i - 1);
    }
  }

  /** The entries lie in the block, and none descends. */
  method CheckCftab(cftab: array<nat>, nblock: nat, ghost l: seq<byte>) returns (ok: bool)
    requires Starts(cftab, l) && nblock == |l|
    ensures ok
  {
    ok := true;
    for i: nat := 0 to 257
      invariant ok
    {
      StartMonotone(l, i, 256);
      ColumnStart(l);
      if cftab[i] > nblock {
        ok := false;
      }
    }
    for i: nat := 1 to 257
      invariant ok
    {
      StartMonotone(l, i - 1, i);
      if cftab[i - 1] > cftab[i] {
        ok := false;
      }
    }
  }

  // ----- FAST

  /**
   * Entry k holds its byte in the low eight bits and above them, for links below m,
   * the link.
   */
  ghost predicate Linked(tt: seq<nat>, l: seq<byte>, m: nat) {
    |l| <= |tt| && forall k {:trigger tt[k]} :: 0 <= k < |l| ==>
      tt[k] == (if Back(l, k) < m then 256 * Back(l, k) else 0) + l[k]
  }

  lemma {:induction false} BackSlot(l: seq<byte>, i: nat)
    requires i < |l|
    ensures Slot(l, i) < |l| && Back(l, Slot(l, i)) == i
  {
    ColumnStart(l);
    AtSlot(l, 256, i);
  }

  lemma {:induction false} SlotBack(l: seq<byte>, k: nat)
    requires k < |l|
    ensures Slot(l, Back(l, k)) == k
  {
    ColumnStart(l);
  }

  lemma {:induction false} LinkStep(tt: seq<nat>, l: seq<byte>, i: nat)
    requires Linked(tt, l, i) && i < |l|
    ensures var k := Slot(l, i);
            k < |l| && Linked(tt[k := Or(256 * i, tt[k])], l, i + 1)
  {
    BackSlot(l, i);
    var k := Slot(l, i);
    OrByte(i, l[k]);
    assert tt[k] == l[k];
    var tt' := tt[k := Or(256 * i, tt[k])];
    forall q {:trigger tt'[q]} | 0 <= q < |l|
      ensures tt'[q] == (if Back(l, q) < i + 1 then 256 * Back(l, q) else 0) + l[q]
    {
      SlotBack(l, q);
      assert tt[q] == (if Back(l, q) < i then 256 * Back(l, q) else 0) + l[q];
    }
  }

  /** The T^(-1) vector, above the bytes in the same words. */
  method BuildLinks(tt: array<nat>, cftab: array<nat>, nblock: nat, ghost l: seq<byte>) returns (ghost t: seq<nat>)
    requires tt != cftab && nblock == |l| <= tt.Length && nblock <= MAX_BLOCK && Starts(cftab, l)
    requires forall i {:trigger tt[i]} :: 0 <= i < nblock ==> tt[i] == l[i]
    modifies tt, cftab
    ensures tt[..] == t && Linked(t, l, nblock)
    ensures forall k {:trigger tt[k]} :: 0 <= k < nblock ==> tt[k] < 0x1_0000_0000
  {
    hide Back;
    t := tt[..];
    for i := 0 to nblock
      invariant tt[..] == t && Linked(t, l, i) && cftab.Length == 257
      invariant forall v: nat {:trigger cftab[v]} :: v < 256 ==> cftab[v] == Start(l, v) + Count(l, v, i)
    {
      assert tt[i] == t[i];
      var uc: nat := tt[i] % 256;
      assert uc == l[i];
      LinkStep(t, l, i);
      assert cftab[uc] == Slot(l, i);
      t := t[cftab[uc] := Or(256 * i, t[cftab[uc]])];
      tt[cftab[uc]] := Or(256 * i, tt[cftab[uc]]);
      cftab[uc] := cftab[uc] + 1;
    }
    forall k {:trigger tt[k]} | 0 <= k < nblock
      ensures tt[k] < 0x1_0000_0000
    {
      assert tt[k] == t[k];
    }
  }

  // ----- SMALL: twenty-bit entries as sixteen bits and a nibble

  predicate Packs(ll16: seq<nat>, ll4: seq<nat>, n: nat) {
    && |ll16| >= n && |ll4| >= (1 + n) / 2
    && (forall k {:trigger ll16[k]} :: 0 <= k < |ll16| ==> ll16[k] < 0x1_0000)
    && (forall k {:trigger ll4[k]} :: 0 <= k < |ll4| ==> ll4[k] < 0x100)
  }

  function GetNibble(x: nat, i: nat): nat {
    if i % 2 == 0 then x % 16 else x / 16 % 16
  }

  function SetNibble(x: nat, i: nat, v: nat): nat {
    if i % 2 == 0 then x / 16 * 16 + v else x % 16 + 16 * v
  }

  lemma {:induction false} NibbleSet(x: nat, i: nat, v: nat)
    requires x < 256 && v < 16
    ensures SetNibble(x, i, v) < 256
    ensures forall k: nat {:trigger GetNibble(SetNibble(x, i, v), k)} ::
              GetNibble(SetNibble(x, i, v), k) == if k % 2 == i % 2 then v else GetNibble(x, k)
  {
  }

  function GetLL(ll16: seq<nat>, ll4: seq<nat>, i: nat): nat
    requires Packs(ll16, ll4, i + 1)
  {
    ll16[i] + 0x1_0000 * GetNibble(ll4[i / 2], i)
  }

  /** The first |t| entries are those of t. */
  ghost predicate Holds(ll16: seq<nat>, ll4: seq<nat>, t: seq<nat>) {
    Packs(ll16, ll4, |t|) && forall k {:trigger t[k]} :: 0 <= k < |t| ==> GetLL(ll16, ll4, k) == t[k]
  }

  /** Twenty bits are enough for any position in a block. */
  lemma {:induction false} SetGet(ll16: seq<nat>, ll4: seq<nat>, n: nat, i: nat, v: nat, k: nat)
    requires Packs(ll16, ll4, n) && i < n && k < n && v < MAX_BLOCK
    ensures var a, b := ll16[i := v % 0x1_0000], ll4[i / 2 := SetNibble(ll4[i / 2], i, v / 0x1_0000)];
            Packs(a, b, n) && GetLL(a, b, k) == if k == i then v else GetLL(ll16, ll4, k)
  {
    NibbleSet(ll4[i / 2], i, v / 0x1_0000);
    var x := SetNibble(ll4[i / 2], i, v / 0x1_0000);
    if k / 2 == i / 2 {
      assert GetNibble(x, k) == if k % 2 == i % 2 then v / 0x1_0000 else GetNibble(ll4[i / 2], k);
    }
  }

  method SetLL(ll16: array<nat>, ll4: array<nat>, i: nat, v: nat, ghost t: seq<nat>) returns (ghost t': seq<nat>)
    requires ll16 != ll4 && Packs(ll16[..], ll4[..], i + 1) && v < MAX_BLOCK
    requires Holds(ll16[..], ll4[..], t) && i <= |t|
    modifies ll16, ll4
    ensures t' == (if i < |t| then t[i := v] else t + [v]) && Holds(ll16[..], ll4[..], t')
    ensures forall k {:trigger ll16[k]} :: 0 <= k < ll16.Length && k != i ==> ll16[k] == old(ll16[k])
    ensures Packs(ll16[..], ll4[..], |t'|)
  {
    ghost var a, b := ll16[..], ll4[..];
    t' := if i < |t| then t[i := v] else t + [v];
    var low: nat, nibble := v % 0x1_0000, SetNibble(ll4[i / 2], i, v / 0x1_0000);
    ll16[i] := low;
    ll4[i / 2] := nibble;
    assert ll16[..] == a[i := low];
    assert ll4[..] == b[i / 2 := nibble];
    HoldsAfter(a, b, t, i, v, t');
  }

  lemma {:induction false} HoldsAfter(a: seq<nat>, b: seq<nat>, t: seq<nat>, i: nat, v: nat, t': seq<nat>)
    requires Packs(a, b, i + 1) && Holds(a, b, t) && i <= |t| && v < MAX_BLOCK
    requires t' == if i < |t| then t[i := v] else t + [v]
    ensures Holds(a[i := v % 0x1_0000], b[i / 2 := SetNibble(b[i / 2], i, v / 0x1_0000)], t')
  {
    var n := |t'|;
    SetGet(a, b, n, i, v, i);
    var a', b' := a[i := v % 0x1_0000], b[i / 2 := SetNibble(b[i / 2], i, v / 0x1_0000)];
    forall k {:trigger t'[k]} | 0 <= k < n
      ensures GetLL(a', b', k) == t'[k]
    {
      SetGet(a, b, n, i, v, k);
      if k < |t| {
        assert GetLL(a, b, k) == t[k];
      }
    }
  }

  /** The T vector: entry i is the slot of position i. */
  ghost predicate Forward(t: seq<nat>, l: seq<byte>) {
    |t| <= |l| && forall i {:trigger t[i]} :: 0 <= i < |t| ==> t[i] == Slot(l, i)
  }

  /** Counting is stepped on by the entry just taken; slots are block positions. */
  lemma {:induction false} ForwardStep(l: seq<byte>, i: nat, t: seq<nat>)
    requires i < |l| <= MAX_BLOCK && |t| == i && Forward(t, l)
    ensures Slot(l, i) == Start(l, l[i]) + Count(l, l[i], i) && Slot(l, i) < MAX_BLOCK
    ensures Forward(t + [Slot(l, i)], l)
    ensures forall v: nat {:trigger Count(l, v, i + 1)} :: Count(l, v, i + 1) == Count(l, v, i) + if v == l[i] then 1
      else 0
  {
    BackSlot(l, i);
  }

  lemma {:induction false} ForwardStarts(ll16: seq<nat>, ll4: seq<nat>, l: seq<byte>)
    requires Packs(ll16, ll4, |l|)
    ensures Holds(ll16, ll4, []) && Forward([], l)
    ensures forall v: nat {:trigger Count(l, v, 0)} :: Count(l, v, 0) == 0
  {
  }

  lemma {:induction false} PacksRoom(ll16: seq<nat>, ll4: seq<nat>, n: nat)
    requires Packs(ll16, ll4, n)
    ensures n <= |ll16| && (1 + n) / 2 <= |ll4|
  {
  }

  lemma {:induction false} PacksAlso(ll16: seq<nat>, ll4: seq<nat>, n: nat, m: nat)
    requires Packs(ll16, ll4, n) && m <= |ll16| && (1 + m) / 2 <= |ll4|
    ensures Packs(ll16, ll4, m)
  {
  }

  method BuildForward(ll16: array<nat>, ll4: array<nat>, cftab: array<nat>, nblock: nat, ghost l: seq<byte>)
    returns (ghost t: seq<nat>)
    requires ll16 != ll4 && ll16 != cftab && ll4 != cftab
    requires nblock == |l| <= MAX_BLOCK && Packs(ll16[..], ll4[..], nblock) && Starts(cftab, l)
    requires forall i {:trigger ll16[i]} :: 0 <= i < nblock ==> ll16[i] == l[i]
    modifies ll16, ll4
    ensures Holds(ll16[..], ll4[..], t) && |t| == nblock && Forward(t, l)
  {
    hide Packs, Holds, Forward, Count, Start, Slot;
    PacksRoom(ll16[..], ll4[..], nblock);
    ghost var a, b := ll16[..], ll4[..];
    var cftabCopy := new nat[257];
    for v := 0 to 257
      invariant forall u {:trigger cftabCopy[u]} :: 0 <= u < v ==> cftabCopy[u] == cftab[u]
      modifies cftabCopy
    {
      cftabCopy[v] := cftab[v];
    }
    t := [];
    assert ll16[..] == a && ll4[..] == b;
    ForwardStarts(ll16[..], ll4[..], l);
    assert forall v: nat {:trigger cftabCopy[v]} :: v < 256 ==> cftabCopy[v] == Start(l, v) + Count(l, v, 0);
    for i := 0 to nblock
      invariant Packs(ll16[..], ll4[..], nblock) && Holds(ll16[..], ll4[..], t) && |t| == i && Forward(t, l)
      invariant forall k {:trigger ll16[k]} :: i <= k < nblock ==> ll16[k] == l[k]
      invariant forall v: nat {:trigger cftabCopy[v]} :: v < 256 ==> cftabCopy[v] == Start(l, v) + Count(l, v, i)
    {
      ForwardStep(l, i, t);
      assert ll16[i] == l[i];
      var uc: nat := ll16[i] % 256;
      assert cftabCopy[uc] == Slot(l, i);
      PacksAlso(ll16[..], ll4[..], nblock, i + 1);
      t := SetLL(ll16, ll4, i, cftabCopy[uc], t);
      PacksAlso(ll16[..], ll4[..], i + 1, nblock);
      cftabCopy[uc] := cftabCopy[uc] + 1;
      assert forall v: nat {:trigger cftabCopy[v]} :: v < 256 ==>
        Count(l, v, i + 1) == Count(l, v, i) + if v == uc then 1 else 0;
    }
  }

  // ----- SMALL: pointer reversal

  predicate Follows(l: seq<byte>, path: seq<nat>, k: nat)
    requires k < |path|
  {
    k > 0 ==> path[k - 1] < |l| && path[k] == Slot(l, path[k - 1])
  }

  predicate PointsBack(path: seq<nat>, t: seq<nat>, k: nat)
    requires k < |path|
  {
    k > 0 ==> path[k] < |t| && t[path[k]] == path[k - 1]
  }

  /** The positions from o along T, none twice. */
  ghost predicate Path(l: seq<byte>, o: nat, path: seq<nat>) {
    && path != [] && path[0] == o && Distinct(path)
    && (forall k {:trigger path[k]} :: 0 <= k < |path| ==> path[k] < |l|)
    && (forall k: nat {:trigger Follows(l, path, k)} :: k < |path| ==> Follows(l, path, k))
  }

  /** Links along the path have been turned round; the others still run forward. */
  ghost predicate Turned(l: seq<byte>, path: seq<nat>, t: seq<nat>) {
    && |t| == |l| && path != []
    && (forall k: nat {:trigger PointsBack(path, t, k)} :: k < |path| ==> PointsBack(path, t, k))
    && (forall p: nat {:trigger t[p]} :: p < |l| && p !in path[1..] ==> t[p] == Slot(l, p))
  }

  /** Every link on the cycle runs backward along it. */
  ghost predicate Reversed(l: seq<byte>, cycle: seq<nat>, t: seq<nat>) {
    |t| == |l| && forall p: nat {:trigger t[p]} :: p < |l| && p in cycle ==> t[p] == Back(l, p) && Back(l, p) in cycle
  }

  lemma {:induction false} SlotsDiffer(l: seq<byte>, p: nat, q: nat)
    requires p < |l| && q < |l| && p != q
    ensures Slot(l, p) != Slot(l, q)
  {
    BackSlot(l, p);
    BackSlot(l, q);
  }

  /** The next position is new, unless the path closes. */
  lemma {:induction false} PathGrows(l: seq<byte>, o: nat, path: seq<nat>)
    requires Path(l, o, path)
    ensures var j := Slot(l, path[|path| - 1]);
            && j < |l| && j !in path[1..]
            && (j != o ==> Path(l, o, path + [j]))
  {
    var m := |path| - 1;
    var j := Slot(l, path[m]);
    BackSlot(l, path[m]);
    forall a {:trigger path[a]} | 1 <= a < |path|
      ensures path[a] != j
    {
      assert path[a - 1] != path[m] && Follows(l, path, a);
      SlotsDiffer(l, path[a - 1], path[m]);
    }
    var path' := path + [j];
    forall k: nat {:trigger Follows(l, path', k)} | k < |path'|
      ensures Follows(l, path', k)
    {
      assert k < |path| ==> Follows(l, path, k);
    }
  }

  lemma {:induction false} InSnoc(s: seq<nat>, j: nat, p: nat)
    ensures p in s + [j] <==> p in s || p == j
  {
    assert (s + [j])[|s|] == j;
  }

  lemma {:induction false} TurnNext(l: seq<byte>, o: nat, path: seq<nat>, t: seq<nat>, j: nat)
    requires Path(l, o, path) && Turned(l, path, t) && j == Slot(l, path[|path| - 1]) && j != o && j < |l|
      && j !in path[1..]
    ensures Turned(l, path + [j], t[j := path[|path| - 1]])
  {
    hide Slot, Path;
    var path', t' := path + [j], t[j := path[|path| - 1]];
    var tail := path[1..];
    assert path'[1..] == tail + [j];
    forall k: nat {:trigger PointsBack(path', t', k)} | k < |path'|
      ensures PointsBack(path', t', k)
    {
      if 0 < k < |path| {
        assert PointsBack(path, t, k);
        assert path[k] == tail[k - 1] && path[k] != j;
      }
    }
    forall p: nat {:trigger t'[p]} | p < |l| && p !in path'[1..]
      ensures t'[p] == Slot(l, p)
    {
      InSnoc(tail, j, p);
      assert t'[p] == t[p];
    }
  }

  lemma {:induction false} TurnLast(l: seq<byte>, o: nat, path: seq<nat>, t: seq<nat>)
    requires Path(l, o, path) && Turned(l, path, t) && o == Slot(l, path[|path| - 1])
    ensures Reversed(l, path, t[o := path[|path| - 1]])
  {
    var t' := t[o := path[|path| - 1]];
    forall p: nat {:trigger t'[p]} {:trigger Back(l, p)} | p < |l| && p in path
      ensures t'[p] == Back(l, p) && Back(l, p) in path
    {
      var k: nat :| k < |path| && path[k] == p;
      TurnedBack(l, o, path, t, k);
    }
  }

  lemma {:induction false} TurnedBack(l: seq<byte>, o: nat, path: seq<nat>, t: seq<nat>, k: nat)
    requires Path(l, o, path) && Turned(l, path, t) && o == Slot(l, path[|path| - 1]) && k < |path|
    ensures path[k] < |l| && Back(l, path[k]) in path
    ensures Back(l, path[k]) == if k == 0 then path[|path| - 1] else t[path[k]]
    ensures k > 0 ==> path[k] != o
  {
    if k == 0 {
      BackSlot(l, path[|path| - 1]);
    } else {
      assert path[k] != path[0] && Follows(l, path, k) && PointsBack(path, t, k);
      BackSlot(l, path[k - 1]);
      assert path[k - 1] in path;
    }
  }

  /** Reverse the cycle through origPtr, and only that one. */
  method ReverseCycle(ll16: array<nat>, ll4: array<nat>, origPtr: nat, ghost l: seq<byte>, ghost t0: seq<nat>)
    returns (ghost t: seq<nat>, ghost cycle: seq<nat>)
    requires ll16 != ll4 && origPtr < |l| == |t0| <= MAX_BLOCK && Holds(ll16[..], ll4[..], t0) && Forward(t0, l)
    modifies ll16, ll4
    ensures Holds(ll16[..], ll4[..], t) && origPtr in cycle && Reversed(l, cycle, t)
  {
    t, cycle := t0, [origPtr];
    var i := origPtr;
    assert t[i] == Slot(l, i);
    var j := GetLL(ll16[..], ll4[..], i);
    while true
      invariant Holds(ll16[..], ll4[..], t) && Path(l, origPtr, cycle) && Turned(l, cycle, t)
      invariant i == cycle[|cycle| - 1] && j == Slot(l, i)
      invariant |cycle| <= |l|
      decreases |l| - |cycle|
    {
      PathGrows(l, origPtr, cycle);
      assert t[j] == Slot(l, j);
      var tmp := GetLL(ll16[..], ll4[..], j);
      ghost var was := t;
      t := SetLL(ll16, ll4, j, i, t);
      if j == origPtr {
        TurnLast(l, origPtr, cycle, was);
        break;
      }
      TurnNext(l, origPtr, cycle, was, j);
      cycle := cycle + [j];
      Pigeonhole(cycle, |l|);
      i := j;
      j := tmp;
    }
  }

  // ----- SMALL: the first column

  /** The byte whose bucket holds a row. */
  method IndexIntoF(indx: nat, cftab: array<nat>, ghost l: seq<byte>) returns (nb: byte)
    requires Starts(cftab, l) && indx < |l|
    ensures nb == l[Back(l, indx)]
  {
    nb := 0;
    var lo, na := 0, 256;
    ColumnStart(l);
    while true
      invariant 0 <= lo < na <= 256 && Start(l, lo) <= indx < Start(l, na) && na - lo > 1
      decreases na - lo
    {
      var mid: nat := (lo + na) / 2;
      if indx >= cftab[mid] {
        lo := mid;
      } else {
        na := mid;
      }
      if na - lo == 1 {
        break;
      }
    }
    BucketOf(l, indx, lo);
    nb := lo;
  }

  lemma {:induction false} BucketOf(l: seq<byte>, k: nat, v: nat)
    requires k < |l| && v < 256 && Start(l, v) <= k < Start(l, v + 1)
    ensures v == l[Back(l, k)]
  {
    var p := Back(l, k);
    SlotBack(l, k);
    CountMonotone(l, l[p], p, |l|);
    if v < l[p] {
      StartMonotone(l, v + 1, l[p]);
    } else if l[p] < v {
      StartMonotone(l, l[p] + 1, v);
    }
  }
}
