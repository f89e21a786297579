/**
 * The symbol half of the decoder on arrays: runs and moves to the front, written out as
 * the last column of a block, with a count kept of every byte value.
 */
module ColumnReader {
  import opened Prelude
  import opened MoveToFront
  import opened SlidingMtf
  import opened OutputStage
  import Buckets

  // ----- the two lists

  /** The list of byte values is the list of their ranks, looked up. */
  ghost predicate ListIs(full: seq<byte>, list: seq<byte>, used: seq<byte>) {
    && |full| == 256 && |list| == |used| <= 256
    && forall k {:trigger full[k]} {:trigger list[k]} :: 0 <= k < |list| ==>
      full[k] < |used| && list[k] == used[full[k]]
  }

  lemma {:induction false} ListStarts(used: seq<byte>)
    requires |used| <= 256
    ensures ListIs(seq(256, k => k), used, used)
  {
  }

  lemma {:induction false} ListMoves(full: seq<byte>, list: seq<byte>, used: seq<byte>, j: nat)
    requires ListIs(full, list, used) && j < |list|
    ensures ListIs(MoveFront(full, j), MoveFront(list, j), used)
  {
    var f, l := MoveFront(full, j), MoveFront(list, j);
    forall k {:trigger f[k]} {:trigger l[k]} | 0 <= k < |l|
      ensures f[k] < |used| && l[k] == used[f[k]]
    {
      var from := if k == 0 then j else if k <= j then k - 1 else k;
      assert f[k] == full[from] && l[k] == list[from];
    }
  }

  // ----- byte counts

  ghost predicate Counts(unzftab: seq<nat>, l: seq<byte>) {
    |unzftab| == 256 && forall v: nat {:trigger unzftab[v]} {:trigger Buckets.Count(l, v, |l|)} :: v < 256 ==>
      unzftab[v] == Buckets.Count(l, v, |l|)
  }

  lemma {:induction false} CountRun(l: seq<byte>, c: byte, x: nat, v: nat)
    ensures Buckets.Count(l + Repeat(c, x), v, |l| + x) == Buckets.Count(l, v, |l|) + (if v == c then x else 0)
  {
    if x == 0 {
      assert l + Repeat(c, 0) == l;
    } else {
      var s, t := l + Repeat(c, x), l + Repeat(c, x - 1);
      CountRun(l, c, x - 1, v);
      Buckets.CountOfPrefix(t, s, v, |t|);
    }
  }

  lemma {:induction false} CountsRun(unzftab: seq<nat>, l: seq<byte>, c: byte, x: nat)
    requires Counts(unzftab, l)
    ensures Counts(unzftab[c := unzftab[c] + x], l + Repeat(c, x))
  {
    var s := l + Repeat(c, x);
    forall v: nat {:trigger Buckets.Count(s, v, |s|)} | v < 256
      ensures unzftab[c := unzftab[c] + x][v] == Buckets.Count(s, v, |s|)
    {
      CountRun(l, c, x, v);
    }
  }

  lemma {:induction false} CountsOne(unzftab: seq<nat>, l: seq<byte>, c: byte)
    requires Counts(unzftab, l)
    ensures Counts(unzftab[c := unzftab[c] + 1], l + [c])
  {
    CountsRun(unzftab, l, c, 1);
    assert Repeat(c, 1) == [c];
  }

  lemma {:induction false} RepeatSnoc(l: seq<byte>, c: byte, x: nat)
    ensures l + Repeat(c, x) + [c] == l + Repeat(c, x + 1)
  {
  }

  // ----- the reader

  class Column {
    const unzftab: array<nat>
    const mtf: MtfList
    const output: Output
    ghost const Repr: set<object>
    var es: int
    var N: nat
    var nblock: nat
    var seqToUnseq: seq<byte>
    ghost var m: Mtf
    ghost var full: seq<byte>

    /** No two of the arrays are the same. */
    ghost predicate Apart() {
      && Repr == {this, unzftab, mtf.mtfa, mtf.mtfbase, output, output.tt, output.ll16, output.ll4, output.cftab}
      && unzftab.Length == 256 && output.Sized()
      && mtf.mtfa.Length == MTFA_SIZE && mtf.mtfbase.Length == MTFL_SIZE && mtf.mtfa as object != mtf.mtfbase as object
      && unzftab != output.tt && unzftab != output.ll16 && unzftab != output.ll4 && unzftab != output.cftab
        && unzftab != mtf.mtfbase
      && mtf.mtfbase != output.tt && mtf.mtfbase != output.ll16 && mtf.mtfbase != output.ll4
        && mtf.mtfbase != output.cftab
      && {mtf.mtfa as object} !! {unzftab as object, output.tt, output.ll16, output.ll4, output.cftab}
    }

    /** The arrays and counters are the move-to-front state m. */
    ghost predicate Valid()
      reads this, unzftab, mtf, mtf.mtfa, mtf.mtfbase, output.tt, output.ll16, output.ll4
    {
      && Apart() && Ready(m) && m.es == es && m.N == N && |m.out| == nblock <= output.limit
      && ListIs(full, m.list, seqToUnseq) && mtf.Holds(full)
      && output.Stored(m.out) && Counts(unzftab[..], m.out)
    }

    constructor (small: bool, limit: nat)
      requires limit <= 900_000
      ensures Apart() && output.small == small && output.limit == limit && output.Stored([])
      ensures fresh(Repr)
    {
      var u := new nat[256];
      var f := new MtfList();
      var o := new Output(small, limit);
      unzftab, mtf, output := u, f, o;
      Repr := {this, u, f.mtfa, f.mtfbase, o, o.tt, o.ll16, o.ll4, o.cftab};
    }

    lemma {:induction false} ArraysApart()
      requires Valid()
      ensures Apart()
    {
    }

    /** The start of a block. */
    method Init(used: seq<byte>)
      requires Apart() && output.Stored([]) && 0 < |used| <= 256
      modifies this, unzftab, mtf.mtfa, mtf.mtfbase
      ensures Valid() && m == Fresh(used, []) && seqToUnseq == used
    {
      hide Counts, Buckets.Count, ListIs;
      for i := 0 to 256
        invariant forall k {:trigger unzftab[k]} :: 0 <= k < i ==> unzftab[k] == 0
        invariant output.Stored([])
      {
        unzftab[i] := 0;
      }
      NoCounts(unzftab[..]);
      mtf.Init();
      es, N, nblock, seqToUnseq := -1, 1, 0, used;
      m, full := Fresh(used, []), seq(256, k => k);
      ListStarts(used);
    }

    /** The byte at the front of the list. */
    method Front() returns (uc: byte)
      requires Valid()
      ensures uc == m.list[0]
    {
      var rank := mtf.Front(full);
      assert full[0] == rank;
      uc := seqToUnseq[rank];
    }

    /** Write a run out, a byte at a time. False for a block that outgrows its limit. */
    method FlushRun() returns (ok: bool)
      requires Valid() && es >= 0
      modifies this, unzftab, output.tt, output.ll16
      ensures ok == Flush(old(m), output.limit).Some?
      ensures ok ==> Valid() && m == Flush(old(m), output.limit).value && seqToUnseq == old(seqToUnseq)
      ensures full == old(full)
    {
      hide ListIs, Counts;
      ghost var l, n := m.out, es + 1;
      var uc := Front();
      CountsRun(unzftab[..], l, uc, n);
      ghost var counted := unzftab[..][uc := unzftab[uc] + n];
      es := es + 1;
      unzftab[uc] := unzftab[uc] + es;
      assert unzftab[..] == counted;
      ok := StoreRun(uc, l);
      if ok {
        es, N := -1, 1;
        m := Fresh(m.list, l + Repeat(uc, n));
      }
    }

    method StoreRun(uc: byte, ghost l: seq<byte>) returns (ok: bool)
      requires Apart() && output.Stored(l) && nblock == |l| <= output.limit && es >= 0
      modifies this`es, this`nblock, output.tt, output.ll16
      ensures ok == (|l| + old(es) <= output.limit)
      ensures ok ==> nblock == |l| + old(es) && output.Stored(l + Repeat(uc, old(es)))
    {
      ghost var x: nat := 0;
      assert l + Repeat(uc, 0) == l;
      while es > 0
        invariant es >= 0 && x == old(es) - es && nblock == |l| + x <= output.limit
        invariant output.Stored(l + Repeat(uc, x))
        decreases es
      {
        if nblock >= output.limit {
          return false;
        }
        output.Store(nblock, uc, l + Repeat(uc, x));
        RepeatSnoc(l, uc, x);
        nblock := nblock + 1;
        es := es - 1;
        x := x + 1;
      }
      ok := true;
    }

    /** Bring the byte with this index to the front and write it. */
    method MoveSymbol(j: nat) returns (ok: bool)
      requires Valid() && es == -1 && j < |m.list|
      modifies this, unzftab, mtf.mtfa, mtf.mtfbase, output.tt, output.ll16
      ensures ok == (|old(m).out| < output.limit)
      ensures ok ==>
        Valid() && m == Fresh(MoveFront(old(m).list, j), old(m).out + [old(m).list[j]]) && seqToUnseq == old(seqToUnseq)
    {
      hide Counts, MoveFront, Represents;
      if nblock >= output.limit {
        return false;
      }
      assert full[j] < |seqToUnseq|;
      ListMoves(full, m.list, seqToUnseq, j);
      var rank := mtf.MoveToFront(j, full);
      var uc := seqToUnseq[rank];
      hide ListIs;
      CountsOne(unzftab[..], m.out, uc);
      ghost var counted := unzftab[..][uc := unzftab[uc] + 1];
      unzftab[uc] := unzftab[uc] + 1;
      assert unzftab[..] == counted;
      output.Store(nblock, uc, m.out);
      nblock := nblock + 1;
      full := MoveFront(full, j);
      N := 1;
      m := Fresh(MoveFront(m.list, j), m.out + [uc]);
      ok := true;
    }

    /** One symbol below the end marker. */
    method TakeSymbol(sym: nat) returns (ok: bool)
      requires Valid() && sym <= |m.list|
      modifies this, unzftab, mtf.mtfa, mtf.mtfbase, output.tt, output.ll16
      ensures ok == Step(old(m), sym, output.limit).Some?
      ensures ok ==> Valid() && m == Step(old(m), sym, output.limit).value && seqToUnseq == old(seqToUnseq)
    {
      hide ListIs, Counts, Represents;
      if sym == RUNA || sym == RUNB {
        if N >= RUN_LIMIT {
          return false;
        }
        es := es + (if sym == RUNA then N else 2 * N);
        N := N * 2;
        m := m.(es := es, N := N);
        ok := true;
      } else {
        ok := true;
        if es >= 0 {
          ok := FlushRun();
        }
        if ok {
          ok := MoveSymbol(sym - 1);
        }
      }
    }
  }

  lemma {:induction false} NoCounts(unzftab: seq<nat>)
    requires |unzftab| == 256 && forall k {:trigger unzftab[k]} :: 0 <= k < 256 ==> unzftab[k] == 0
    ensures Counts(unzftab, [])
  {
  }
}
