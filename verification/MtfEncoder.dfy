/**
 * generateMTFValues: the last column of the sorted rotations, move-to-front coded into
 * the very array that holds the sorted order.
 */
module MtfEncoder {
  import opened Prelude
  import opened MoveToFront

  type InUse = s: seq<bool> | |s| == 256 witness seq(256, _ => false)

  /** How many byte values below c are in use: unseqToSeq[c]. */
  function Rank(u: InUse, c: nat): (r: nat)
    requires c <= 256
    ensures r <= c
  {
    if c == 0 then 0 else Rank(u, c - 1) + (if u[c - 1] then 1 else 0)
  }

  /** The byte values below c that are in use, ascending: seqToUnseq. */
  function UsedBelow(u: InUse, c: nat): (r: seq<byte>)
    requires c <= 256
    ensures |r| == Rank(u, c)
  {
    if c == 0 then [] else UsedBelow(u, c - 1) + (if u[c - 1] then [c - 1] else [])
  }

  function UsedBytes(u: InUse): seq<byte> { UsedBelow(u, 256) }

  lemma {:induction false} UsedFew(u: InUse)
    ensures |UsedBytes(u)| <= 256
  {
  }

  lemma {:induction false} UsedPrefix(u: InUse, c: nat, d: nat)
    requires c <= d <= 256
    ensures UsedBelow(u, c) <= UsedBelow(u, d)
  {
    if c < d {
      UsedPrefix(u, c, d - 1);
    }
  }

  /** seqToUnseq undoes unseqToSeq. */
  lemma {:induction false} UsedOfRank(u: InUse, c: byte)
    requires u[c]
    ensures Rank(u, c) < |UsedBytes(u)| && UsedBytes(u)[Rank(u, c)] == c && c in UsedBytes(u)
  {
    UsedPrefix(u, c + 1, 256);
    var s := UsedBelow(u, c + 1);
    assert s[Rank(u, c)] == c;
  }

  /** And the other way round. */
  lemma {:induction false} RankOfUsed(u: InUse, c: nat, k: nat)
    requires c <= 256 && k < Rank(u, c)
    ensures var b := UsedBelow(u, c)[k]; b < c && u[b] && Rank(u, b) == k
  {
    if k < Rank(u, c - 1) {
      RankOfUsed(u, c - 1, k);
    }
  }

  ghost predicate MapsRanks(u: InUse, unseqToSeq: array<nat>)
    reads unseqToSeq
  {
    unseqToSeq.Length == 256 && forall c {:trigger unseqToSeq[c]} :: 0 <= c < 256 && u[c] ==>
      unseqToSeq[c] == Rank(u, c)
  }

  method MakeMaps(u: InUse) returns (unseqToSeq: array<nat>, nInUse: nat)
    ensures fresh(unseqToSeq) && MapsRanks(u, unseqToSeq)
    ensures nInUse == |UsedBytes(u)|
  {
    unseqToSeq := new nat[256];
    nInUse := 0;
    for i := 0 to 256
      invariant nInUse == Rank(u, i)
      invariant forall c {:trigger unseqToSeq[c]} :: 0 <= c < i && u[c] ==> unseqToSeq[c] == Rank(u, c)
    {
      if u[i] {
        unseqToSeq[i] := nInUse;
        nInUse := nInUse + 1;
      }
    }
  }

  // ----- the last column

  /** A permutation's worth of row starts; only their range matters here. */
  predicate Rows(order: seq<nat>, n: nat) {
    |order| == n && forall i :: 0 <= i < n ==> order[i] < n
  }

  function LastByte(block: seq<byte>, start: nat): byte
    requires start < |block|
  {
    if start == 0 then block[|block| - 1] else block[start - 1]
  }

  function LastColumn(block: seq<byte>, order: seq<nat>): (l: seq<byte>)
    requires Rows(order, |block|)
    ensures |l| == |block|
    ensures forall i {:trigger l[i]} :: 0 <= i < |l| ==> l[i] == LastByte(block, order[i])
  {
    seq(|block|, i requires 0 <= i < |block| => LastByte(block, order[i]))
  }

  predicate Covers(u: InUse, block: seq<byte>) {
    forall i :: 0 <= i < |block| ==> u[block[i]]
  }

  /** The map with just the values that occur. */
  function Occurring(s: seq<byte>): InUse { seq(256, k requires 0 <= k < 256 => k in s) }

  lemma {:induction false} OccurringCovers(s: seq<byte>)
    ensures Covers(Occurring(s), s)
  {
    forall i | 0 <= i < |s|
      ensures Occurring(s)[s[i]]
    {
      assert s[i] in s;
    }
  }

  lemma {:induction false} ColumnInUse(u: InUse, block: seq<byte>, order: seq<nat>)
    requires block != [] && Rows(order, |block|) && Covers(u, block)
    ensures AllIn(LastColumn(block, order), UsedBytes(u))
  {
    var l := LastColumn(block, order);
    forall i | 0 <= i < |l|
      ensures l[i] in UsedBytes(u)
    {
      assert u[l[i]];
      UsedOfRank(u, l[i]);
    }
    assert l[0] in UsedBytes(u);
  }

  // ----- the encoder

  /** The 32-bit entry k of an array seen as 16-bit halves. */
  function Word(a: seq<nat>, k: nat): nat
    requires 2 * k + 1 < |a|
  {
    a[2 * k] + 0x1_0000 * a[2 * k + 1]
  }

  /** The entries from i on still hold the sorted order. */
  ghost predicate Unread(a: seq<nat>, order: seq<nat>, i: nat) {
    2 * |order| <= |a| && forall k {:trigger Word(a, k)} :: i <= k < |order| ==> Word(a, k) == order[k]
  }

  /** a with s written from w on. */
  function Overwrite(a: seq<nat>, w: nat, s: seq<nat>): (r: seq<nat>)
    requires w + |s| <= |a|
    ensures |r| == |a|
  {
    seq(|a|, k requires 0 <= k < |a| => if w <= k < w + |s| then s[k - w] else a[k])
  }

  lemma {:induction false} UnreadAfter(a: seq<nat>, order: seq<nat>, i: nat, w: nat, s: seq<nat>)
    requires Unread(a, order, i) && w + |s| <= 2 * i && w + |s| <= |a|
    ensures Unread(Overwrite(a, w, s), order, i)
  {
    forall k {:trigger Word(Overwrite(a, w, s), k)} | i <= k < |order|
      ensures Word(Overwrite(a, w, s), k) == order[k]
    {
      assert Word(a, k) == order[k];
    }
  }

  function HalfRun(z: nat): nat
    requires z >= 2
  {
    (z - 2) / 2
  }

  lemma {:induction false} NextDigit(done: seq<nat>, z: nat, total: seq<nat>)
    requires done + RunSyms(z + 1) == total
    ensures z < 2 ==> done + [z % 2] == total
    ensures z >= 2 ==> done + [z % 2] + RunSyms(HalfRun(z) + 1) == total && HalfRun(z) + 2 <= z
  {
    assert RunSyms(z + 1) == [z % 2] + RunSyms(z / 2);
    assert done + [z % 2] + RunSyms(z / 2) == done + ([z % 2] + RunSyms(z / 2));
    if z < 2 {
      assert RunSyms(z / 2) == [];
    }
  }

  /** The digits of a run of z, written from w on. */
  method WriteRun(arr1: array<nat>, w: nat, z: nat) returns (wr: nat)
    requires w + z <= arr1.Length
    modifies arr1
    ensures wr == w + |RunSyms(z)|
    ensures arr1[..] == Overwrite(old(arr1[..]), w, RunSyms(z))
  {
    hide RunSyms;
    wr := w;
    ghost var a, total := arr1[..], RunSyms(z);
    ghost var done: seq<nat> := [];
    if z == 0 {
      NoRun(a, w);
      return;
    }
    hide Overwrite, HalfRun;
    var zPend := z - 1;
    while true
      invariant 0 <= zPend && done + RunSyms(zPend + 1) == total
      invariant wr == w + |done| && wr + zPend + 1 <= w + z
      invariant arr1[..] == Overwrite(a, w, done)
      decreases zPend
    {
      NextDigit(done, zPend, total);
      var d: nat := zPend % 2;
      OverwriteMore(a, w, done, d);
      arr1[wr] := if d == 1 then RUNB else RUNA;
      done := done + [d];
      wr := wr + 1;
      if zPend < 2 {
        break;
      }
      zPend := HalfRun(zPend);
    }
  }

  lemma {:induction false} NoRun(a: seq<nat>, w: nat)
    requires w <= |a|
    ensures RunSyms(0) == [] && Overwrite(a, w, []) == a
  {
  }

  lemma {:induction false} OverwriteMore(a: seq<nat>, w: nat, s: seq<nat>, x: nat)
    requires w + |s| + 1 <= |a|
    ensures Overwrite(a, w, s)[w + |s| := x] == Overwrite(a, w, s + [x])
  {
  }

  lemma {:induction false} IndexOfFirst<T>(s: seq<T>, v: T, j: nat)
    requires j < |s| && s[j] == v && forall k {:trigger s[k]} :: 0 <= k < j ==> s[k] != v
    ensures v in s && IndexOf(s, v) == j
  {
    if j > 0 {
      assert s[0] != v;
      IndexOfFirst(s[1..], v, j - 1);
    }
  }

  /** Find v past the front of the list, carrying the entries before it one place up. */
  method MoveToFrontOf(yy: array<nat>, n: nat, v: nat, ghost at: nat) returns (j: nat)
    requires 1 <= at < n <= yy.Length && yy[at] == v && yy[0] != v
    modifies yy
    ensures 1 <= j <= at && old(yy[j]) == v && forall k {:trigger old(yy[k])} :: 0 <= k < j ==> old(yy[k]) != v
    ensures yy[..n] == MoveFront(old(yy[..n]), j)
  {
    ghost var y := yy[..];
    var rtmp := yy[1];
    yy[1] := yy[0];
    j := 1;
    while v != rtmp
      invariant 1 <= j <= at && rtmp == y[j]
      invariant forall k {:trigger y[k]} :: 0 <= k < j ==> y[k] != v
      invariant forall k {:trigger yy[k]} :: 0 <= k < yy.Length ==> yy[k] == if 1 <= k <= j then y[k - 1] else y[k]
      decreases at - j
    {
      j := j + 1;
      var rtmp2 := rtmp;
      rtmp := yy[j];
      yy[j] := rtmp2;
    }
    yy[0] := rtmp;
    assert yy[..n] == MoveFront(y[..n], j);
  }

  /** The encoder's list of ranks stands for this list of bytes. */
  predicate Names(u: InUse, yy: seq<nat>, list: seq<byte>) {
    && |yy| == |list| == |UsedBytes(u)|
    && forall k {:trigger yy[k]} {:trigger list[k]} :: 0 <= k < |yy| ==>
      yy[k] < |list| && UsedBytes(u)[yy[k]] == list[k]
  }

  lemma {:induction false} NamesMatch(u: InUse, yy: seq<nat>, list: seq<byte>, k: nat, c: byte)
    requires Names(u, yy, list) && k < |yy| && u[c]
    ensures yy[k] == Rank(u, c) <==> list[k] == c
  {
    UsedOfRank(u, c);
    RankOfUsed(u, 256, yy[k]);
  }

  lemma {:induction false} NamesMoved(u: InUse, yy: seq<nat>, list: seq<byte>, j: nat, c: byte)
    requires Names(u, yy, list) && j < |yy| && u[c] && yy[j] == Rank(u, c)
    requires forall k {:trigger yy[k]} :: 0 <= k < j ==> yy[k] != Rank(u, c)
    ensures c in list && IndexOf(list, c) == j && Names(u, MoveFront(yy, j), MoveFront(list, j))
  {
    NamesMatch(u, yy, list, j, c);
    forall k {:trigger list[k]} | 0 <= k < j
      ensures list[k] != c
    {
      NamesMatch(u, yy, list, k, c);
    }
    IndexOfFirst(list, c, j);
  }

  /** What is written so far, and what the rest of the column will add to it. */
  ghost predicate Progress(done: seq<nat>, l: seq<byte>, list: seq<byte>, zPend: nat, all: seq<nat>) {
    AllIn(l, list) && done + Symbols(l, list, zPend) == all
  }

  lemma {:induction false} ProgressZero(done: seq<nat>, l: seq<byte>, list: seq<byte>, zPend: nat, all: seq<nat>)
    requires Progress(done, l, list, zPend, all) && l != [] && l[0] == list[0]
    ensures Progress(done, l[1..], list, zPend + 1, all)
  {
    AllInMoved(l, list, 0);
    assert MoveFront(list, 0) == list;
  }

  lemma {:induction false} ProgressMove(done: seq<nat>, l: seq<byte>, list: seq<byte>, zPend: nat, j: nat,
      all: seq<nat>)
    requires Progress(done, l, list, zPend, all) && l != [] && l[0] != list[0]
    requires l[0] in list && j == IndexOf(list, l[0])
    ensures Progress(done + RunSyms(zPend) + [j + 1], l[1..], MoveFront(list, j), 0, all)
  {
    AllInMoved(l, list, j);
    var rest := Symbols(l[1..], MoveFront(list, j), 0);
    assert Symbols(l, list, zPend) == RunSyms(zPend) + [j + 1] + rest;
    assert done + (RunSyms(zPend) + [j + 1] + rest) == done + RunSyms(zPend) + [j + 1] + rest;
  }

  /** Write out the run, then the symbol, in front of the entries still to be read. */
  method WriteMove(arr1: array<nat>, w: nat, z: nat, j: nat, i: nat, ghost order: seq<nat>, ghost done: seq<nat>)
    returns (wr: nat)
    requires w + z < i <= |order| && Unread(arr1[..], order, i) && 2 * |order| <= arr1.Length
    requires arr1[..w] == done
    modifies arr1
    ensures wr == w + |RunSyms(z)| + 1
    ensures arr1[..wr] == done + RunSyms(z) + [j + 1] && Unread(arr1[..], order, i)
  {
    ghost var a := arr1[..];
    wr := WriteRun(arr1, w, z);
    arr1[wr] := j + 1;
    ghost var s := RunSyms(z) + [j + 1];
    OverwriteMore(a, w, RunSyms(z), j + 1);
    UnreadAfter(a, order, i, w, s);
    assert arr1[..] == Overwrite(a, w, s);
    wr := wr + 1;
    assert arr1[..wr] == Overwrite(a, w, s)[..wr] == a[..w] + s;
    assert a[..w] == done;
  }

  /** Part-way through the column: i entries read, wr symbols written, zPend zeros pending. */
  ghost predicate Encoding(a: seq<nat>, u: InUse, yy: seq<nat>, l: seq<byte>, order: seq<nat>, i: nat, wr: nat,
                           zPend: nat, list: seq<byte>, all: seq<nat>)
  {
    && i <= |l| == |order| && wr + zPend <= i && wr <= |a|
    && Unread(a, order, i) && Names(u, yy, list) && Progress(a[..wr], l[i..], list, zPend, all)
  }

  /** Entry i of the order, coded. */
  method EncodeEntry(arr1: array<nat>, block: seq<byte>, u: InUse, unseqToSeq: array<nat>, yy: array<nat>, nInUse: nat,
                     i: nat, w: nat, z: nat, ghost order: seq<nat>, ghost list: seq<byte>, ghost all: seq<nat>)
    returns (wr: nat, zPend: nat, ghost list': seq<byte>)
    requires Rows(order, |block|) && Covers(u, block) && i < |block|
    requires MapsRanks(u, unseqToSeq)
    requires nInUse == |UsedBytes(u)| <= yy.Length && arr1 != yy && arr1 != unseqToSeq && yy != unseqToSeq
    requires Encoding(arr1[..], u, yy[..nInUse], LastColumn(block, order), order, i, w, z, list, all)
    modifies arr1, yy
    ensures Encoding(arr1[..], u, yy[..nInUse], LastColumn(block, order), order, i + 1, wr, zPend, list', all)
  {
    hide IndexOf, LastColumn, MoveFront, RunSyms, Symbols, UsedBelow;
    ghost var l := LastColumn(block, order);
    ghost var a, y := arr1[..], yy[..nInUse];
    assert Word(a, i) == order[i];
    var start: int := arr1[2 * i] + 0x1_0000 * arr1[2 * i + 1];
    var j: int := start - 1;
    if j < 0 {
      j := j + |block|;
    }
    var c := block[j];
    assert c == l[i] == l[i..][0] && u[c];
    var ll := unseqToSeq[c];
    assert l[i..][1..] == l[i + 1..];
    NamesMatch(u, y, list, 0, c);
    if yy[0] == ll {
      ProgressZero(a[..w], l[i..], list, z, all);
      wr, zPend, list' := w, z + 1, list;
    } else {
      ghost var at := PlaceOf(u, y, list, c);
      var m := MoveToFrontOf(yy, nInUse, ll, at);
      NamesMoved(u, y, list, m, c);
      ProgressMove(a[..w], l[i..], list, z, m, all);
      assert arr1[..] == a;
      wr := WriteMove(arr1, w, z, m, i + 1, order, a[..w]);
      zPend, list' := 0, MoveFront(list, m);
    }
  }

  /**
   * On return arr1 holds the column's symbols and EOB, although it held the order they
   * were computed from: no entry is overwritten before it is read.
   */
  method GenerateMTFValues(arr1: array<nat>, block: seq<byte>, u: InUse, ghost order: seq<nat>) returns (nMTF: nat)
    requires block != [] && Rows(order, |block|) && Covers(u, block)
    requires 2 * |block| <= arr1.Length && Unread(arr1[..], order, 0)
    modifies arr1
    ensures AllIn(LastColumn(block, order), UsedBytes(u))
    ensures nMTF <= |block| + 1 && nMTF <= arr1.Length
    ensures arr1[..nMTF] == Symbols(LastColumn(block, order), UsedBytes(u), 0) + [|UsedBytes(u)| + 1]
  {
    hide AllIn, Covers, MapsRanks, RunSyms, Unread, UsedBelow;
    ghost var a := arr1[..];
    var unseqToSeq, nInUse := MakeMaps(u);
    var EOB := nInUse + 1;
    var yy := new nat[256];
    RankBound(u, 256);
    for i := 0 to nInUse
      invariant arr1[..] == a && MapsRanks(u, unseqToSeq)
      invariant forall k {:trigger yy[k]} :: 0 <= k < i ==> yy[k] == k
    {
      yy[i] := i;
    }
    ghost var l, list := LastColumn(block, order), UsedBytes(u);
    ColumnInUse(u, block, order);
    ghost var all := Symbols(l, list, 0);
    assert arr1[..] == a && a[..0] + all == all && l[0..] == l;
    var wr: nat, zPend: nat := 0, 0;
    for i := 0 to |block|
      invariant MapsRanks(u, unseqToSeq)
      invariant Encoding(arr1[..], u, yy[..nInUse], l, order, i, wr, zPend, list, all)
    {
      wr, zPend, list := EncodeEntry(arr1, block, u, unseqToSeq, yy, nInUse, i, wr, zPend, order, list, all);
    }
    ghost var done := arr1[..wr];
    assert l[|block|..] == [];
    wr := WriteRun(arr1, wr, zPend);
    assert arr1[..wr] == all;
    arr1[wr] := EOB;
    nMTF := wr + 1;
    assert arr1[..nMTF] == all + [EOB];
  }

  /** Where a byte in use stands in the encoder's list. */
  lemma {:induction false} PlaceOf(u: InUse, yy: seq<nat>, list: seq<byte>, c: byte) returns (at: nat)
    requires Names(u, yy, list) && u[c] && c in list
    ensures at < |yy| && yy[at] == Rank(u, c)
  {
    at := IndexOf(list, c);
    NamesMatch(u, yy, list, at, c);
  }

  lemma {:induction false} RankBound(u: InUse, c: nat)
    requires c <= 256
    ensures Rank(u, c) <= c
  {
  }
}
