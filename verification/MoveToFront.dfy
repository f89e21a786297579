/**
 * Move-to-front coding of the last column, with runs of zeros written as
 * RUNA/RUNB digits: what the encoder writes and what the decoder makes of it.
 */
module MoveToFront {
  import opened Prelude

  const RUNA := 0
  const RUNB := 1

  function MoveFront<T>(s: seq<T>, j: nat): (r: seq<T>)
    requires j < |s|
    ensures |r| == |s|
  {
    [s[j]] + s[..j] + s[j + 1..]
  }

  function IndexOf<T(==)>(s: seq<T>, v: T): (j: nat)
    requires v in s
    ensures j < |s| && s[j] == v
  {
    if s[0] == v then 0 else 1 + IndexOf(s[1..], v)
  }

  /** A run of z zeros in bijective base 2, low digit first: RUNA is 1, RUNB is 2. */
  function RunSyms(z: nat): (r: seq<nat>)
    ensures |r| <= z
  {
    if z == 0 then [] else [(z - 1) % 2] + RunSyms((z - 1) / 2)
  }

  predicate AllIn(l: seq<byte>, list: seq<byte>) {
    list != [] && forall i :: 0 <= i < |l| ==> l[i] in list
  }

  /** What the encoder writes for the bytes l, with z zeros pending. */
  function Symbols(l: seq<byte>, list: seq<byte>, z: nat): (r: seq<nat>)
    requires AllIn(l, list)
    ensures |r| <= |l| + z
    decreases |l|
  {
    if l == [] then RunSyms(z)
    else if l[0] == list[0] then Symbols(l[1..], list, z + 1)
    else
      var j := IndexOf(list, l[0]);
      MoveFrontKeeps(list, j);
      RunSyms(z) + [j + 1] + Symbols(l[1..], MoveFront(list, j), 0)
  }

  lemma {:induction false} MoveFrontKeeps<T>(s: seq<T>, j: nat)
    requires j < |s|
    ensures forall x {:trigger x in MoveFront(s, j)} :: x in MoveFront(s, j) <==> x in s
  {
    var r := MoveFront(s, j);
    forall x | x in s
      ensures x in r
    {
      var i :| 0 <= i < |s| && s[i] == x;
      assert r[if i < j then i + 1 else if i == j then 0 else i] == x;
    }
  }

  // ----- the decoder

  /** Decoding state: the list, the column so far, and the run being read. */
  datatype Mtf = Mtf(list: seq<byte>, out: seq<byte>, es: int, N: nat)

  function Fresh(list: seq<byte>, out: seq<byte>): Mtf { Mtf(list, out, -1, 1) }

  const RUN_LIMIT := 2 * 1024 * 1024

  /** Write the pending run out; None when the block would outgrow its limit. */
  function Flush(m: Mtf, limit: nat): (r: Option<Mtf>)
    requires m.list != [] && m.es >= -1
    ensures r.Some? ==> r.value.list == m.list && r.value.es == -1
    ensures r.Some? && |m.out| <= limit ==> |r.value.out| <= limit
  {
    if |m.out| + m.es + 1 > limit && m.es + 1 > 0 then None
    else Some(Fresh(m.list, m.out + Repeat(m.list[0], m.es + 1)))
  }

  predicate Ready(m: Mtf) { m.list != [] && m.es >= -1 }

  /** One symbol below EOB; None is BZ_DATA_ERROR. */
  function Step(m: Mtf, sym: nat, limit: nat): (r: Option<Mtf>)
    requires Ready(m) && sym <= |m.list|
    ensures r.Some? ==> Ready(r.value) && |r.value.list| == |m.list|
    ensures r.Some? && |m.out| <= limit ==> |r.value.out| <= limit
  {
    if sym == RUNA || sym == RUNB then
      if m.N >= RUN_LIMIT then None
      else Some(m.(es := m.es + (if sym == RUNA then m.N else 2 * m.N), N := 2 * m.N))
    else
      match Flush(m, limit)
      case None => None
      case Some(f) =>
        if |f.out| >= limit then None
        else Some(Fresh(MoveFront(f.list, sym - 1), f.out + [f.list[sym - 1]]))
  }

  predicate InAlphabet(syms: seq<nat>, n: nat) {
    forall i :: 0 <= i < |syms| ==> syms[i] <= n
  }

  function Feed(m: Mtf, syms: seq<nat>, limit: nat): (r: Option<Mtf>)
    requires Ready(m) && InAlphabet(syms, |m.list|)
    ensures r.Some? ==> Ready(r.value) && |r.value.list| == |m.list|
    decreases |syms|
  {
    if syms == [] then Some(m)
    else
      match Step(m, syms[0], limit)
      case None => None
      case Some(m') => Feed(m', syms[1..], limit)
  }

  // ----- the round trip

  lemma {:induction false} SymbolsInAlphabet(l: seq<byte>, list: seq<byte>, z: nat)
    requires AllIn(l, list)
    ensures InAlphabet(Symbols(l, list, z), |list|)
    decreases |l|
  {
    RunSymsInAlphabet(z);
    if l == [] {
    } else if l[0] == list[0] {
      SymbolsInAlphabet(l[1..], list, z + 1);
    } else {
      var j := IndexOf(list, l[0]);
      MoveFrontKeeps(list, j);
      SymbolsInAlphabet(l[1..], MoveFront(list, j), 0);
    }
  }

  lemma {:induction false} RunSymsInAlphabet(z: nat)
    ensures InAlphabet(RunSyms(z), 1)
  {
    if z > 0 {
      RunSymsInAlphabet((z - 1) / 2);
    }
  }

  lemma {:induction false} FeedConcat(m: Mtf, s: seq<nat>, t: seq<nat>, limit: nat)
    requires Ready(m) && InAlphabet(s, |m.list|) && InAlphabet(t, |m.list|)
    ensures InAlphabet(s + t, |m.list|)
    ensures Feed(m, s + t, limit) == match Feed(m, s, limit) case None => None case Some(m') => Feed(m', t, limit)
    decreases |s|
  {
    if s == [] {
      assert s + t == t;
    } else {
      assert (s + t)[0] == s[0] && (s + t)[1..] == s[1..] + t;
      var r := Step(m, s[0], limit);
      if r.Some? {
        FeedConcat(r.value, s[1..], t, limit);
      }
    }
  }

  /** A run of z zeros takes few enough digits for the decoder's guard. */
  lemma {:induction false} RunIsShort(z: nat)
    ensures Pow2(|RunSyms(z)|) <= z + 1
  {
    if z > 0 {
      RunIsShort((z - 1) / 2);
    }
  }

  /** How the lowest digit of a run splits off, at place value 2^k. */
  lemma {:induction false} RunDigit(z: nat, k: nat)
    requires z > 0
    ensures var z' := (z - 1) / 2;
            && Shl(z, k) == (if (z - 1) % 2 == RUNA then Pow2(k) else 2 * Pow2(k)) + Shl(z', k + 1)
            && 2 * Pow2(k) <= Shl(z + 1, k)
            && Shl(z' + 1, k + 1) <= Shl(z + 1, k)
  {
    var d, z' := (z - 1) % 2, (z - 1) / 2;
    ShlAdd(2 * z', d + 1, k);
    ShlTwice(z', k);
    ShlTwice(z' + 1, k);
    ShlMonotone(2 * z' + 2, z + 1, k);
    ShlMonotone(2, z + 1, k);
    ShlTwice(1, k);
    ShlOne(k);
    ShlOne(k + 1);
  }

  /** The digits of a run add z to es, whatever place value they start at. */
  lemma {:induction false} FeedRun(m: Mtf, z: nat, k: nat, limit: nat)
    requires Ready(m) && m.N == Pow2(k) && Shl(z + 1, k) <= RUN_LIMIT
    ensures InAlphabet(RunSyms(z), |m.list|)
    ensures Feed(m, RunSyms(z), limit) == Some(m.(es := m.es + Shl(z, k), N := Pow2(k + |RunSyms(z)|)))
    decreases z
  {
    RunSymsInAlphabet(z);
    if z == 0 {
      ShlZero(k);
    } else {
      var d, z' := (z - 1) % 2, (z - 1) / 2;
      RunDigit(z, k);
      var m' := m.(es := m.es + (if d == RUNA then m.N else 2 * m.N), N := 2 * m.N);
      FeedRun(m', z', k + 1, limit);
      FeedCons(m, d, RunSyms(z'), limit);
    }
  }

  lemma {:induction false} FeedCons(m: Mtf, sym: nat, syms: seq<nat>, limit: nat)
    requires Ready(m) && sym <= |m.list| && InAlphabet(syms, |m.list|)
    ensures InAlphabet([sym] + syms, |m.list|)
    ensures Feed(m, [sym] + syms, limit)
         == match Step(m, sym, limit) case None => None case Some(m') => Feed(m', syms, limit)
  {
    assert ([sym] + syms)[1..] == syms;
  }

  /** A run of z zeros, then a move to the front, from a fresh state. */
  lemma {:induction false} FeedMove(list: seq<byte>, z: nat, j: nat, out: seq<byte>, rest: seq<nat>, limit: nat)
    requires 1 <= j < |list| && InAlphabet(rest, |list|) && |out| + z + 1 <= limit && z <= 900_000
    ensures InAlphabet(RunSyms(z) + [j + 1] + rest, |list|)
    ensures Feed(Fresh(list, out), RunSyms(z) + [j + 1] + rest, limit)
         == Feed(Fresh(MoveFront(list, j), out + Repeat(list[0], z) + [list[j]]), rest, limit)
  {
    hide Feed;
    var m := Fresh(list, out);
    FeedRun(m, z, 0, limit);
    FeedCons(m.(es := z - 1, N := Pow2(|RunSyms(z)|)), j + 1, rest, limit);
    FeedConcat(m, RunSyms(z), [j + 1] + rest, limit);
    assert RunSyms(z) + [j + 1] + rest == RunSyms(z) + ([j + 1] + rest);
  }

  /**
   * Decoding inverts encoding: fed the encoder's symbols for l after z pending zeros,
   * the decoder, once it writes its last run, has appended those zeros and l. No run
   * guard and no limit check fires while the block fits its limit.
   */
  lemma {:induction false} FeedSymbols(l: seq<byte>, list: seq<byte>, z: nat, out: seq<byte>, limit: nat)
    requires AllIn(l, list) && |out| + z + |l| <= limit <= 900_000
    ensures InAlphabet(Symbols(l, list, z), |list|)
    ensures var r := Feed(Fresh(list, out), Symbols(l, list, z), limit);
            && r.Some?
            && Flush(r.value, limit).Some?
            && Flush(r.value, limit).value.out == out + Repeat(list[0], z) + l
    decreases |l|, 1
  {
    SymbolsInAlphabet(l, list, z);
    if l == [] {
      FeedLastRun(list, z, out, limit);
    } else if l[0] == list[0] {
      FeedSymbols(l[1..], list, z + 1, out, limit);
      OneMoreZero(out, z, l);
    } else {
      FeedSymbolsMove(l, list, z, out, limit);
    }
  }

  lemma {:induction false} FeedSymbolsMove(l: seq<byte>, list: seq<byte>, z: nat, out: seq<byte>, limit: nat)
    requires AllIn(l, list) && |out| + z + |l| <= limit <= 900_000
    requires l != [] && l[0] != list[0] && InAlphabet(Symbols(l, list, z), |list|)
    ensures var r := Feed(Fresh(list, out), Symbols(l, list, z), limit);
            && r.Some?
            && Flush(r.value, limit).Some?
            && Flush(r.value, limit).value.out == out + Repeat(list[0], z) + l
    decreases |l|, 0
  {
    var j := IndexOf(list, l[0]);
    var list', out' := MoveFront(list, j), out + Repeat(list[0], z) + [l[0]];
    AllInMoved(l, list, j);
    FeedSymbols(l[1..], list', 0, out', limit);
    FeedMove(list, z, j, out, Symbols(l[1..], list', 0), limit);
    NextColumn(out + Repeat(list[0], z), list'[0], l);
  }

  lemma {:induction false} OneMoreZero(out: seq<byte>, z: nat, l: seq<byte>)
    requires l != []
    ensures out + Repeat(l[0], z + 1) + l[1..] == out + Repeat(l[0], z) + l
  {
  }

  lemma {:induction false} NextColumn(out: seq<byte>, c: byte, l: seq<byte>)
    requires l != []
    ensures out + [l[0]] + Repeat(c, 0) + l[1..] == out + l
  {
  }

  lemma {:induction false} FeedLastRun(list: seq<byte>, z: nat, out: seq<byte>, limit: nat)
    requires list != [] && |out| + z <= limit <= 900_000
    ensures InAlphabet(RunSyms(z), |list|)
    ensures var r := Feed(Fresh(list, out), RunSyms(z), limit);
            && r.Some?
            && Flush(r.value, limit) == Some(Fresh(list, out + Repeat(list[0], z)))
  {
    FeedRun(Fresh(list, out), z, 0, limit);
  }

  lemma {:induction false} AllInMoved(l: seq<byte>, list: seq<byte>, j: nat)
    requires AllIn(l, list) && l != [] && j < |list|
    ensures AllIn(l[1..], MoveFront(list, j))
  {
    MoveFrontKeeps(list, j);
    forall i | 0 <= i < |l| - 1
      ensures l[1..][i] in MoveFront(list, j)
    {
      assert l[1..][i] == l[i + 1];
    }
  }
}
