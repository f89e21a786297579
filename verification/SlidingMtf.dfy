/**
 * The decoder's fast move-to-front list: 256 entries in sixteen 16-entry windows that
 * slide down through a 4096-entry array, packed back to its end when they reach 0.
 */
module SlidingMtf {
  import opened Prelude
  import opened MoveToFront

  const MTFA_SIZE := 4096
  const MTFL_SIZE := 16

  /** The list index of entry o of window l. */
  function Pos(l: nat, o: nat): nat { 16 * l + o }

  predicate Sized(a: seq<byte>, b: seq<nat>, list: seq<byte>) {
    |a| == MTFA_SIZE && |b| == MTFL_SIZE && |list| == 256
  }

  predicate Entry(a: seq<byte>, b: seq<nat>, list: seq<byte>, l: nat, o: nat)
    requires Sized(a, b, list)
  {
    l < 16 && o < 16 && b[l] + o < MTFA_SIZE && a[b[l] + o] == list[Pos(l, o)]
  }

  /** Window l of the array holds its part of the list, from entry lo up to hi. */
  ghost predicate Window(a: seq<byte>, b: seq<nat>, list: seq<byte>, l: nat, lo: nat, hi: nat)
    requires Sized(a, b, list)
  {
    forall o {:trigger Entry(a, b, list, l, o)} :: lo <= o < hi ==> Entry(a, b, list, l, o)
  }

  ghost predicate Windows(a: seq<byte>, b: seq<nat>, list: seq<byte>, from: nat, to: nat)
    requires Sized(a, b, list)
  {
    forall l {:trigger Window(a, b, list, l, 0, 16)} :: from <= l < to ==> Window(a, b, list, l, 0, 16)
  }

  const PACKED := MTFA_SIZE - 256

  /** The windows lie in order, apart from each other, and no higher than the packed layout. */
  predicate Apart(b: seq<nat>) {
    && |b| == MTFL_SIZE
    && (forall l {:trigger b[l]} :: 0 <= l < 16 ==> b[l] <= PACKED + 16 * l)
    && (forall l, m {:trigger b[l], b[m]} :: 0 <= l < m < 16 ==> b[l] + 16 <= b[m])
  }

  ghost predicate Represents(a: seq<byte>, b: seq<nat>, list: seq<byte>) {
    Sized(a, b, list) && Apart(b) && b[0] >= 1 && Windows(a, b, list, 0, 16)
  }

  /** a is c with the entries past lo, up to hi, moved up by one over those before them. */
  predicate Shifted(a: seq<byte>, c: seq<byte>, lo: nat, hi: nat) {
    && lo <= hi < |c| == |a|
    && forall k {:trigger a[k]} :: 0 <= k < |a| ==> a[k] == if lo < k <= hi then c[k - 1] else c[k]
  }

  lemma {:induction false} ShiftOne(a: seq<byte>, c: seq<byte>, lo: nat, hi: nat)
    requires Shifted(a, c, lo, hi) && lo >= 1
    ensures Shifted(a[lo := a[lo - 1]], c, lo - 1, hi)
  {
  }

  /** Writing outside a window leaves what it holds. */
  lemma {:induction false} WriteElsewhere(a: seq<byte>, b: seq<nat>, list: seq<byte>, l: nat, lo: nat, hi: nat, k: nat,
      v: byte)
    requires Sized(a, b, list) && k < MTFA_SIZE && l < 16
    requires Window(a, b, list, l, lo, hi)
    requires k < b[l] + lo || k >= b[l] + hi || a[k] == v
    ensures Window(a[k := v], b, list, l, lo, hi)
  {
    forall o {:trigger Entry(a[k := v], b, list, l, o)} | lo <= o < hi
      ensures Entry(a[k := v], b, list, l, o)
    {
      assert Entry(a, b, list, l, o);
    }
  }

  /** Moving an entry of the first window to the front stays inside that window. */
  lemma {:induction false} MovedWithin(a: seq<byte>, c: seq<byte>, b: seq<nat>, list: seq<byte>, nn: nat)
    requires Represents(c, b, list) && nn < 16 && Shifted(a, c, b[0], b[0] + nn)
    ensures Represents(a[b[0] := c[b[0] + nn]], b, MoveFront(list, nn)) && c[b[0] + nn] == list[nn]
  {
    var list', a' := MoveFront(list, nn), a[b[0] := c[b[0] + nn]];
    assert Window(c, b, list, 0, 0, 16) && Entry(c, b, list, 0, nn);
    forall l {:trigger Window(a', b, list', l, 0, 16)} | 0 <= l < 16
      ensures Window(a', b, list', l, 0, 16)
    {
      forall o {:trigger Entry(a', b, list', l, o)} | 0 <= o < 16
        ensures Entry(a', b, list', l, o)
      {
        assert Window(c, b, list, l, 0, 16) && Entry(c, b, list, l, o);
        assert o > 0 ==> Entry(c, b, list, l, o - 1);
      }
    }
  }

  /** Window lno with its first cell free and the entries before off moved up. */
  lemma {:induction false} Opened(a: seq<byte>, c: seq<byte>, b: seq<nat>, list: seq<byte>, lno: nat, off: nat)
    requires Represents(c, b, list) && 1 <= lno < 16 && off < 16
    requires Shifted(a, c, b[lno], b[lno] + off)
    ensures var list' := MoveFront(list, Pos(lno, off));
            && c[b[lno] + off] == list[Pos(lno, off)]
            && Windows(a, b, list, 0, lno) && Windows(a, b, list', lno + 1, 16)
            && Window(a, b, list', lno, 1, 16)
  {
    var list' := MoveFront(list, Pos(lno, off));
    assert Window(c, b, list, lno, 0, 16) && Entry(c, b, list, lno, off);
    forall l {:trigger Window(a, b, list, l, 0, 16)} | 0 <= l < lno
      ensures Window(a, b, list, l, 0, 16)
    {
      SameWindow(a, c, b, list, list, l);
    }
    forall l {:trigger Window(a, b, list', l, 0, 16)} | lno < l < 16
      ensures Window(a, b, list', l, 0, 16)
    {
      SameWindow(a, c, b, list, list', l);
    }
    forall o {:trigger Entry(a, b, list', lno, o)} | 1 <= o < 16
      ensures Entry(a, b, list', lno, o)
    {
      assert Entry(c, b, list, lno, o) && Entry(c, b, list, lno, o - 1);
    }
  }

  lemma {:induction false} SameWindow(a: seq<byte>, c: seq<byte>, b: seq<nat>, list: seq<byte>, list': seq<byte>,
      l: nat)
    requires Sized(a, b, list) && Sized(c, b, list') && l < 16 && b[l] + 16 <= MTFA_SIZE
    requires Window(c, b, list, l, 0, 16)
    requires forall k {:trigger a[k]} :: b[l] <= k < b[l] + 16 ==> a[k] == c[k]
    requires forall k {:trigger list[k]} :: Pos(l, 0) <= k < Pos(l, 16) ==> list[k] == list'[k]
    ensures Window(a, b, list', l, 0, 16)
  {
    forall o {:trigger Entry(a, b, list', l, o)} | 0 <= o < 16
      ensures Entry(a, b, list', l, o)
    {
      assert Entry(c, b, list, l, o);
    }
  }

  /** Bases b part-way through a move: those past l, up to lno, have gone down by one. */
  predicate Sliding(b: seq<nat>, b0: seq<nat>, l: nat, lno: nat) {
    && |b| == |b0| == MTFL_SIZE
    && forall m {:trigger b[m]} :: 0 <= m < 16 ==>
         b[m] + 1 == if m == l == lno then b0[m] + 2 else if l < m < lno then b0[m] else b0[m] + 1
  }

  /** Part-way through: the windows below l are the old list's, those above the new one's. */
  ghost predicate HalfMoved(a: seq<byte>, b: seq<nat>, b0: seq<nat>, list: seq<byte>, list': seq<byte>, l: nat,
      lno: nat) {
    && Sized(a, b, list) && |list'| == 256 && l <= lno < 16 && Apart(b0) && b0[0] >= 1
    && Sliding(b, b0, l, lno) && b[l] >= 1
    && Windows(a, b, list, 0, l) && Windows(a, b, list', l + 1, 16)
    && Window(a, b[l := b[l] - 1], list', l, 1, 16)
  }

  lemma {:induction false} SlideOne(a: seq<byte>, b: seq<nat>, b0: seq<nat>, list: seq<byte>, lno: nat, off: nat,
      l: nat)
    requires off < 16 && 1 <= l <= lno < 16 && |list| == 256
    requires HalfMoved(a, b, b0, list, MoveFront(list, Pos(lno, off)), l, lno)
    ensures var b' := b[l := b[l] - 1];
            && b'[l - 1] + 15 < MTFA_SIZE && b'[l] < MTFA_SIZE
            && HalfMoved(a[b'[l] := a[b'[l - 1] + 15]], b', b0, list, MoveFront(list, Pos(lno, off)), l - 1, lno)
  {
    var list' := MoveFront(list, Pos(lno, off));
    var b' := b[l := b[l] - 1];
    assert |b'| == MTFL_SIZE && |list'| == 256;
    assert Window(a, b, list, l - 1, 0, 16) && Entry(a, b, list, l - 1, 15);
    var v := a[b'[l - 1] + 15];
    var a' := a[b'[l] := v];
    assert b0[l - 1] + 16 <= b0[l];
    forall m {:trigger Window(a', b', list, m, 0, 16)} | 0 <= m < l - 1
      ensures Window(a', b', list, m, 0, 16)
    {
      assert b0[m] + 16 <= b0[l - 1];
      Rebased(a, b, b', list, m, 0);
      WriteElsewhere(a, b', list, m, 0, 16, b'[l], v);
    }
    forall m {:trigger Window(a', b', list', m, 0, 16)} | l <= m < 16
      ensures Window(a', b', list', m, 0, 16)
    {
      if m > l {
        assert b0[l] + 16 <= b0[m];
        Rebased(a, b, b', list', m, 0);
        WriteElsewhere(a, b', list', m, 0, 16, b'[l], v);
      } else {
        WriteElsewhere(a, b', list', l, 1, 16, b'[l], v);
        forall o {:trigger Entry(a', b', list', l, o)} | 0 <= o < 16
          ensures Entry(a', b', list', l, o)
        {
          if o == 0 {
            assert Pos(l - 1, 15) + 1 == Pos(l, 0);
          }
        }
      }
    }
    var b'' := b'[l - 1 := b'[l - 1] - 1];
    forall o {:trigger Entry(a', b'', list', l - 1, o)} | 1 <= o < 16
      ensures Entry(a', b'', list', l - 1, o)
    {
      assert Entry(a, b, list, l - 1, o - 1);
    }
  }

  /** A window's contents depend on its own base only. */
  lemma {:induction false} Rebased(a: seq<byte>, b: seq<nat>, b': seq<nat>, list: seq<byte>, l: nat, lo: nat)
    requires Sized(a, b, list) && |b'| == MTFL_SIZE && l < 16 && b[l] == b'[l]
    requires Window(a, b, list, l, lo, 16)
    ensures Window(a, b', list, l, lo, 16)
  {
    forall o {:trigger Entry(a, b', list, l, o)} | lo <= o < 16
      ensures Entry(a, b', list, l, o)
    {
      assert Entry(a, b, list, l, o);
    }
  }

  lemma {:induction false} FirstSlot(a: seq<byte>, b: seq<nat>, b0: seq<nat>, list: seq<byte>, lno: nat, off: nat)
    requires off < 16 && 1 <= lno < 16 && |list| == 256
    requires HalfMoved(a, b, b0, list, MoveFront(list, Pos(lno, off)), 0, lno)
    ensures var list', b' := MoveFront(list, Pos(lno, off)), b[0 := b[0] - 1];
            && b'[0] < MTFA_SIZE && Apart(b') && Windows(a[b'[0] := list[Pos(lno, off)]], b', list', 0, 16)
  {
    var list', b' := MoveFront(list, Pos(lno, off)), b[0 := b[0] - 1];
    var a' := a[b'[0] := list[Pos(lno, off)]];
    assert Sized(a', b', list');
    forall m {:trigger Window(a', b', list', m, 0, 16)} | 0 <= m < 16
      ensures Window(a', b', list', m, 0, 16)
    {
      if m > 0 {
        assert b0[0] + 16 <= b0[m];
        Rebased(a, b, b', list', m, 0);
        WriteElsewhere(a, b', list', m, 0, 16, b'[0], list[Pos(lno, off)]);
      } else {
        WriteElsewhere(a, b', list', 0, 1, 16, b'[0], list[Pos(lno, off)]);
        forall o {:trigger Entry(a', b', list', 0, o)} | 0 <= o < 16
          ensures Entry(a', b', list', 0, o)
        {
        }
      }
    }
    assert Apart(b') by {
      forall l, m {:trigger b'[l], b'[m]} | 0 <= l < m < 16
        ensures b'[l] + 16 <= b'[m]
      {
        assert b0[l] + 16 <= b0[m];
      }
    }
  }

  // ----- repacking

  /** The windows from ii up are packed at the end, and of window ii the entries from jj up are copied there. */
  ghost predicate Repacking(a: seq<byte>, b: seq<nat>, list: seq<byte>, ii: nat, jj: nat) {
    && Sized(a, b, list) && Apart(b) && ii < 16 && jj <= 16
    && (forall l {:trigger b[l]} :: ii < l < 16 ==> b[l] == PACKED + 16 * l)
    && Windows(a, b, list, 0, ii) && Windows(a, b, list, ii + 1, 16)
    && Window(a, b, list, ii, 0, jj)
    && Window(a, b[ii := PACKED + 16 * ii], list, ii, jj, 16)
  }

  lemma {:induction false} CopyOne(a: seq<byte>, b: seq<nat>, list: seq<byte>, ii: nat, jj: nat)
    requires Repacking(a, b, list, ii, jj) && jj >= 1
    ensures b[ii] + jj - 1 <= PACKED + 16 * ii + jj - 1 < MTFA_SIZE
    ensures Repacking(a[PACKED + 16 * ii + jj - 1 := a[b[ii] + jj - 1]], b, list, ii, jj - 1)
  {
    var k := PACKED + 16 * ii + jj - 1;
    var v := a[b[ii] + jj - 1];
    var a', c := a[k := v], b[ii := PACKED + 16 * ii];
    assert Entry(a, b, list, ii, jj - 1);
    forall l {:trigger Window(a', b, list, l, 0, 16)} | 0 <= l < 16 && l != ii
      ensures Window(a', b, list, l, 0, 16)
    {
      if l < ii {
        assert b[l] + 16 <= b[ii];
      }
      WriteElsewhere(a, b, list, l, 0, 16, k, v);
    }
    assert Window(a, b, list, ii, 0, jj - 1) by {
      forall o {:trigger Entry(a, b, list, ii, o)} | 0 <= o < jj - 1
        ensures Entry(a, b, list, ii, o)
      {
      }
    }
    WriteElsewhere(a, b, list, ii, 0, jj - 1, k, v);
    WriteElsewhere(a, c, list, ii, jj, 16, k, v);
    forall o {:trigger Entry(a', c, list, ii, o)} | jj - 1 <= o < 16
      ensures Entry(a', c, list, ii, o)
    {
      if o == jj - 1 {
        assert a'[c[ii] + o] == v;
      }
    }
  }

  lemma {:induction false} WindowPacked(a: seq<byte>, b: seq<nat>, list: seq<byte>, ii: nat)
    requires Repacking(a, b, list, ii, 0)
    ensures var b' := b[ii := PACKED + 16 * ii];
            && Apart(b') && Windows(a, b', list, 0, 16)
            && (forall l {:trigger b'[l]} :: ii <= l < 16 ==> b'[l] == PACKED + 16 * l)
  {
    var b' := b[ii := PACKED + 16 * ii];
    forall l {:trigger Window(a, b', list, l, 0, 16)} | 0 <= l < 16
      ensures Window(a, b', list, l, 0, 16)
    {
      if l != ii {
        Rebased(a, b, b', list, l, 0);
      }
    }
    forall l, m {:trigger b'[l], b'[m]} | 0 <= l < m < 16
      ensures b'[l] + 16 <= b'[m]
    {
      assert b[l] + 16 <= b[m] && b[l] <= PACKED + 16 * l;
    }
  }

  lemma {:induction false} StartWindow(a: seq<byte>, b: seq<nat>, list: seq<byte>, ii: nat)
    requires Sized(a, b, list) && Apart(b) && ii < 16 && Windows(a, b, list, 0, 16)
    requires forall l {:trigger b[l]} :: ii < l < 16 ==> b[l] == PACKED + 16 * l
    ensures Repacking(a, b, list, ii, 16)
  {
    assert Window(a, b, list, ii, 0, 16);
  }

  class MtfList {
    const mtfa: array<byte>
    const mtfbase: array<nat>

    /** The arrays hold this list. */
    ghost predicate Holds(list: seq<byte>)
      reads this, mtfa, mtfbase
    {
      mtfa as object != mtfbase as object && Represents(mtfa[..], mtfbase[..], list)
    }

    constructor ()
      ensures fresh(mtfa) && fresh(mtfbase) && mtfa.Length == MTFA_SIZE && mtfbase.Length == MTFL_SIZE
      ensures mtfa as object != mtfbase as object
    {
      mtfa, mtfbase := new byte[MTFA_SIZE], new nat[MTFL_SIZE];
    }

    /** The list starts as 0, 1, ..., 255. */
    method Init()
      requires mtfa.Length == MTFA_SIZE && mtfbase.Length == MTFL_SIZE && mtfa as object != mtfbase as object
      modifies mtfa, mtfbase
      ensures Holds(seq(256, k => k))
    {
      var kk := MTFA_SIZE - 1;
      var ii := 15;
      while ii >= 0
        invariant -1 <= ii <= 15 && kk == PACKED + 15 + 16 * ii
        invariant forall l {:trigger mtfbase[l]} :: ii < l < 16 ==> mtfbase[l] == PACKED + 16 * l
        invariant forall k {:trigger mtfa[k]} :: kk < k < MTFA_SIZE ==> mtfa[k] == k - PACKED
      {
        var jj := 15;
        while jj >= 0
          invariant -1 <= jj <= 15 && kk == PACKED + 16 * ii + jj
          invariant forall l {:trigger mtfbase[l]} :: ii < l < 16 ==> mtfbase[l] == PACKED + 16 * l
          invariant forall k {:trigger mtfa[k]} :: kk < k < MTFA_SIZE ==> mtfa[k] == k - PACKED
        {
          mtfa[kk] := ii * MTFL_SIZE + jj;
          kk := kk - 1;
          jj := jj - 1;
        }
        mtfbase[ii] := kk + 1;
        ii := ii - 1;
      }
      ghost var a, b, list: seq<byte> := mtfa[..], mtfbase[..], seq(256, k => k);
      forall l, o {:trigger Entry(a, b, list, l, o)} | 0 <= l < 16 && 0 <= o < 16
        ensures Entry(a, b, list, l, o)
      {
        assert mtfbase[l] == PACKED + 16 * l;
        assert mtfa[mtfbase[l] + o] == mtfbase[l] + o - PACKED;
      }
      assert mtfbase[0] == PACKED;
    }

    method Front(ghost list: seq<byte>) returns (uc: byte)
      requires Holds(list)
      ensures uc == list[0]
    {
      assert Window(mtfa[..], mtfbase[..], list, 0, 0, 16);
      assert Entry(mtfa[..], mtfbase[..], list, 0, 0);
      uc := mtfa[mtfbase[0]];
    }

    /** Read entry nn and move it to the front. */
    method MoveToFront(nn: nat, ghost list: seq<byte>) returns (uc: byte)
      requires Holds(list) && nn < 256
      modifies mtfa, mtfbase
      ensures uc == list[nn] && Holds(MoveFront(list, nn))
    {
      if nn < MTFL_SIZE {
        uc := MoveWithinFirst(nn, list);
      } else {
        uc := MoveAcross(nn / MTFL_SIZE, nn % MTFL_SIZE, list);
        if mtfbase[0] == 0 {
          Repack(MoveFront(list, nn));
        }
      }
    }

    method MoveWithinFirst(nn: nat, ghost list: seq<byte>) returns (uc: byte)
      requires Holds(list) && nn < MTFL_SIZE
      modifies mtfa
      ensures uc == list[nn] && Holds(MoveFront(list, nn))
    {
      hide MoveFront;
      var pp, n := mtfbase[0], nn;
      ghost var c, a, b := mtfa[..], mtfa[..], mtfbase[..];
      uc := mtfa[pp + nn];
      while n > 3
        invariant 0 <= n <= nn && mtfbase[..] == b
        invariant mtfa[..] == a && Shifted(a, c, pp + n, pp + nn)
      {
        var z := pp + n;
        ShiftFour(a, c, z, pp + nn);
        a := a[z := a[z - 1]][z - 1 := a[z - 2]][z - 2 := a[z - 3]][z - 3 := a[z - 4]];
        mtfa[z] := mtfa[z - 1];
        mtfa[z - 1] := mtfa[z - 2];
        mtfa[z - 2] := mtfa[z - 3];
        mtfa[z - 3] := mtfa[z - 4];
        n := n - 4;
      }
      while n > 0
        invariant 0 <= n <= nn && mtfbase[..] == b
        invariant mtfa[..] == a && Shifted(a, c, pp + n, pp + nn)
      {
        ShiftOne(a, c, pp + n, pp + nn);
        a := a[pp + n := a[pp + n - 1]];
        mtfa[pp + n] := mtfa[pp + n - 1];
        n := n - 1;
      }
      MovedWithin(a, c, b, list, nn);
      mtfa[pp] := uc;
      assert mtfa[..] == a[pp := uc];
    }

    /** The general case, up to the repacking: bases may come down to 0. */
    method MoveAcross(lno: nat, off: nat, ghost list: seq<byte>) returns (uc: byte)
      requires Holds(list) && 1 <= lno < 16 && off < 16
      modifies mtfa, mtfbase
      ensures uc == list[Pos(lno, off)]
      ensures var list' := MoveFront(list, Pos(lno, off));
              Sized(mtfa[..], mtfbase[..], list') && Apart(mtfbase[..]) && Windows(mtfa[..], mtfbase[..], list', 0, 16)
    {
      hide Sliding, Window, Windows;
      ghost var list' := MoveFront(list, Pos(lno, off));
      ghost var c, a, b0 := mtfa[..], mtfa[..], mtfbase[..];
      var pp := mtfbase[lno] + off;
      uc := mtfa[pp];
      while pp > mtfbase[lno]
        invariant mtfbase[..] == b0 && b0[lno] <= pp <= b0[lno] + off
        invariant mtfa[..] == a && Shifted(a, c, pp, b0[lno] + off)
      {
        ShiftOne(a, c, pp, b0[lno] + off);
        a := a[pp := a[pp - 1]];
        mtfa[pp] := mtfa[pp - 1];
        pp := pp - 1;
      }
      Opened(a, c, b0, list, lno, off);
      mtfbase[lno] := mtfbase[lno] + 1;
      ghost var b := b0[lno := b0[lno] + 1];
      StartSliding(a, b0, list, lno, off);
      var l := lno;
      while l > 0
        invariant 0 <= l <= lno
        invariant mtfa[..] == a && mtfbase[..] == b && HalfMoved(a, b, b0, list, list', l, lno)
      {
        SlideOne(a, b, b0, list, lno, off, l);
        b := b[l := b[l] - 1];
        a := a[b[l] := a[b[l - 1] + 15]];
        mtfbase[l] := mtfbase[l] - 1;
        mtfa[mtfbase[l]] := mtfa[mtfbase[l - 1] + MTFL_SIZE - 1];
        l := l - 1;
      }
      FirstSlot(a, b, b0, list, lno, off);
      mtfbase[0] := mtfbase[0] - 1;
      mtfa[mtfbase[0]] := uc;
      assert mtfbase[..] == b[0 := b[0] - 1];
      assert mtfa[..] == a[b[0] - 1 := uc];
    }

    /** Copy all windows to the end of the array, highest entry first. */
    method Repack(ghost list: seq<byte>)
      requires mtfa as object != mtfbase as object
      requires Sized(mtfa[..], mtfbase[..], list) && Apart(mtfbase[..]) && Windows(mtfa[..], mtfbase[..], list, 0, 16)
      modifies mtfa, mtfbase
      ensures Holds(list)
    {
      ghost var a, b := mtfa[..], mtfbase[..];
      var kk := MTFA_SIZE - 1;
      var ii := 15;
      while ii >= 0
        invariant -1 <= ii <= 15 && kk == PACKED + 15 + 16 * ii
        invariant mtfa[..] == a && mtfbase[..] == b && Sized(a, b, list) && Apart(b) && Windows(a, b, list, 0, 16)
        invariant forall l {:trigger b[l]} :: ii < l < 16 ==> b[l] == PACKED + 16 * l
      {
        StartWindow(a, b, list, ii);
        var jj := 15;
        while jj >= 0
          invariant -1 <= jj <= 15 && kk == PACKED + 16 * ii + jj
          invariant mtfa[..] == a && mtfbase[..] == b && Repacking(a, b, list, ii, jj + 1)
        {
          CopyOne(a, b, list, ii, jj + 1);
          a := a[kk := a[b[ii] + jj]];
          mtfa[kk] := mtfa[mtfbase[ii] + jj];
          kk := kk - 1;
          jj := jj - 1;
        }
        WindowPacked(a, b, list, ii);
        b := b[ii := PACKED + 16 * ii];
        mtfbase[ii] := kk + 1;
        ii := ii - 1;
      }
    }
  }

  lemma {:induction false} ShiftFour(a: seq<byte>, c: seq<byte>, z: nat, hi: nat)
    requires Shifted(a, c, z, hi) && z >= 4
    ensures Shifted(a[z := a[z - 1]][z - 1 := a[z - 2]][z - 2 := a[z - 3]][z - 3 := a[z - 4]], c, z - 4, hi)
  {
  }

  lemma {:induction false} StartSliding(a: seq<byte>, b0: seq<nat>, list: seq<byte>, lno: nat, off: nat)
    requires off < 16 && 1 <= lno < 16 && Sized(a, b0, list) && Apart(b0) && b0[0] >= 1
    requires var list' := MoveFront(list, Pos(lno, off));
             && Windows(a, b0, list, 0, lno) && Windows(a, b0, list', lno + 1, 16)
             && Window(a, b0, list', lno, 1, 16)
    ensures HalfMoved(a, b0[lno := b0[lno] + 1], b0, list, MoveFront(list, Pos(lno, off)), lno, lno)
  {
    var list' := MoveFront(list, Pos(lno, off));
    var b := b0[lno := b0[lno] + 1];
    forall m {:trigger Window(a, b, list, m, 0, 16)} | 0 <= m < lno
      ensures Window(a, b, list, m, 0, 16)
    {
      Rebased(a, b0, b, list, m, 0);
    }
    forall m {:trigger Window(a, b, list', m, 0, 16)} | lno < m < 16
      ensures Window(a, b, list', m, 0, 16)
    {
      Rebased(a, b0, b, list', m, 0);
    }
    assert b[lno := b[lno] - 1] == b0;
  }
}
