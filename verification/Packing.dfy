/**
 * Whatever runs are left to be written, there are blocks for them: every block has a plan, and
 * blocks that are full but for the last one take any runs.
 */
module Packing {
  import opened Prelude
  import opened Rotations
  import opened HuffmanCodes
  import opened MoveToFront
  import opened MtfEncoder
  import opened BwtInverse
  import opened Decompress
  import opened RunLength
  import opened BlockFormat
  import opened RoundTrip
  import TableChoice
  import Compressor
  import InputRuns

  // ----- every block has a sorting order

  /** The rotations that start below m, in order. */
  ghost predicate SortsBelow(b: seq<byte>, s: seq<nat>, m: nat) {
    && m <= |b| && |s| == m && Distinct(s) && (forall i {:trigger s[i]} :: 0 <= i < |s| ==> s[i] < m)
    && forall i, j {:trigger s[i], s[j]} :: 0 <= i < j < |s| ==> Key(b, s[i], |b|) <= Key(b, s[j], |b|)
  }

  lemma {:induction false} Inserted(b: seq<byte>, s: seq<nat>, m: nat) returns (r: seq<nat>)
    requires SortsBelow(b, s, m) && m < |b|
    ensures SortsBelow(b, r, m + 1)
  {
    hide Key;
    var at := 0;
    while at < |s| && Key(b, s[at], |b|) <= Key(b, m, |b|)
      invariant at <= |s| && forall i {:trigger s[i]} :: 0 <= i < at ==> Key(b, s[i], |b|) <= Key(b, m, |b|)
    {
      at := at + 1;
    }
    r := s[..at] + [m] + s[at..];
    assert forall i {:trigger r[i]} :: 0 <= i < |r| ==>
      r[i] == if i < at then s[i] else if i == at then m else s[i - 1];
  }

  lemma {:induction false} SortingOrder(b: seq<byte>, m: nat) returns (s: seq<nat>)
    requires m <= |b|
    ensures SortsBelow(b, s, m)
  {
    if m == 0 {
      s := [];
    } else {
      var t := SortingOrder(b, m - 1);
      s := Inserted(b, t, m - 1);
    }
  }

  // ----- and codes

  /** Codes of nine bits for everything. */
  lemma {:induction false} NinesKraft(a: nat)
    ensures Kraft(Repeat(9, a), LONGEST) == 2048 * a
  {
    hide Pow2;
    if a > 0 {
      NinesKraft(a - 1);
      assert Repeat(9, a)[..a - 1] == Repeat(9, a - 1);
      NineShare();
    }
  }

  lemma {:induction false} NineShare()
    ensures Share(9, LONGEST) == 2048
  {
    assert Pow2(5) == 32 && Pow2(11) == 2048;
  }

  lemma {:induction false} NinesDecodable(a: nat)
    requires 1 <= a <= MAX_ALPHA_SIZE
    ensures Decodable(Repeat(9, a)) && TableChoice.MaxAtMost(Repeat(9, a))
  {
    hide Kraft, Pow2;
    NinesKraft(a);
    Pow2Twenty();
  }

  lemma {:induction false} AnyPlan(b: seq<byte>) returns (p: Plan)
    requires 0 < |b| <= MAX_BLOCK_BYTES
    ensures ValidPlan(p) && Plain(p) && p.block == b && p.used == Occurring(b) && TableChoice.AllWithin(p.lens)
  {
    hide Key, Symbols, Decodable, TableChoice.MaxAtMost, Occurring, UsedBytes, LastColumn, Repeat;
    var order := SortingOrder(b, |b|);
    var origPtr := PermutationHits(order, |b|, 0);
    var u := Occurring(b);
    OccurringCovers(b);
    ColumnInUse(u, b, order);
    UsedFew(u);
    var lens := Repeat(9, AlphaSize(u));
    NinesDecodable(AlphaSize(u));
    var m := |Symbols(LastColumn(b, order), UsedBytes(u), 0)| + 1;
    p := Plan(b, order, origPtr, u, 2, Repeat(0, TableChoice.GroupsOf(m)), [lens, lens], false, []);
  }

  // ----- full blocks for any runs

  lemma {:induction false} ExpandConcat(ps: seq<Pair>, qs: seq<Pair>)
    ensures Expand(ps + qs) == Expand(ps) + Expand(qs)
    decreases |qs|
  {
    if qs == [] {
      assert ps + qs == ps;
    } else {
      var q, p := qs[..|qs| - 1], qs[|qs| - 1];
      ExpandConcat(ps, q);
      assert (ps + qs)[..|ps + qs| - 1] == ps + q;
      Assoc(Expand(ps), Expand(q), Repeat(p.ch, p.len));
    }
  }

  /** As many runs as fill a block, or all. */
  lemma {:induction false} CutFull(ps: seq<Pair>, full: nat) returns (k: nat)
    requires ValidPairs(ps) && ps != [] && full > 0
    ensures 0 < k <= |ps| && ValidPairs(ps[..k])
    ensures 0 < |Encoded(ps[..k])| < full + 5 && (k < |ps| ==> |Encoded(ps[..k])| >= full)
  {
    hide EncodePair;
    k := 1;
    assert ps[..1] == [] + [ps[0]];
    Snoc([], ps[0]);
    while k < |ps| && |Encoded(ps[..k])| < full
      invariant 0 < k <= |ps| && ValidPairs(ps[..k]) && 0 < |Encoded(ps[..k])| < full + 5
      decreases |ps| - k
    {
      assert ps[..k + 1] == ps[..k] + [ps[k]];
      Snoc(ps[..k], ps[k]);
      k := k + 1;
    }
  }

  lemma {:induction false} SeparateParts(ps: seq<Pair>, k: nat)
    requires Separate(ps) && k <= |ps|
    ensures Separate(ps[..k]) && Separate(ps[k..])
  {
    var q := ps[k..];
    assert forall p :: p in ps[..k] || p in q ==> p in ps;
    forall i {:trigger q[i]} | 0 < i < |q|
      ensures Apart(q[i - 1], q[i])
    {
      assert Apart(ps[k + i - 1], ps[k + i]);
    }
  }

  lemma {:induction false} BlockFor(ps: seq<Pair>) returns (c: Coded)
    requires Separate(ps) && 0 < |Encoded(ps)| <= MAX_BLOCK_BYTES
    ensures ValidCoded(c) && c.pairs == ps && c.plan.block == Encoded(ps) && Compressor.Neat(c)
  {
    hide ValidPlan, TableChoice.AllWithin, Occurring;
    var p := AnyPlan(Encoded(ps));
    c := Coded(p, ps);
  }

  /** One more block. */
  lemma {:induction false} OneBlock(cs: seq<Coded>, qs: seq<Pair>, level: nat) returns (c: Coded, k: nat)
    requires 1 <= level <= 9 && ValidBlocks(cs, Compressor.Limit(level)) && Separate(qs) && qs != []
    ensures 0 < k <= |qs| && Separate(qs[k..]) && ValidBlocks(cs + [c], Compressor.Limit(level))
    ensures AllPairs(cs + [c]) == AllPairs(cs) + qs[..k] && AllBytes(cs + [c]) == AllBytes(cs) + Expand(qs[..k])
    ensures BlocksBits(cs, Compressor.Limit(level)) <= BlocksBits(cs + [c], Compressor.Limit(level))
    ensures Compressor.Neat(c) && (k < |qs| ==> |c.plan.block| >= Compressor.Limit(level) - 19)
  {
    hide ValidBlocks, AllPairs, AllBytes, BlocksBits, Encoded, Expand, Separate, ValidPairs, ValidCoded,
      Compressor.Neat;
    ValidOf(qs);
    k := CutFull(qs, Compressor.Limit(level) - 19);
    SeparateParts(qs, k);
    c := BlockFor(qs[..k]);
    Compressor.BlocksSnoc(cs, c, Compressor.Limit(level));
    PairsSnoc(cs, c);
  }

  lemma {:induction false} TightSnoc(cs: seq<Coded>, c: Coded, full: int)
    requires Compressor.Tight(cs, |cs|, full) && Compressor.Neat(c)
    ensures Compressor.Tight(cs + [c], |cs|, full)
      && (|c.plan.block| >= full ==> Compressor.Tight(cs + [c], |cs| + 1, full))
  {
    hide Compressor.Neat;
  }

  /** The runs in blocks behind those there are, full but for the last one. */
  lemma {:induction false} Packed(cs: seq<Coded>, qs: seq<Pair>, level: nat) returns (all: seq<Coded>)
    requires 1 <= level <= 9 && ValidBlocks(cs, Compressor.Limit(level)) && Separate(qs)
    ensures ValidBlocks(all, Compressor.Limit(level))
    ensures AllPairs(all) == AllPairs(cs) + qs && AllBytes(all) == AllBytes(cs) + Expand(qs)
    ensures BlocksBits(cs, Compressor.Limit(level)) <= BlocksBits(all, Compressor.Limit(level))
    ensures Compressor.Tight(cs, |cs|, Compressor.Limit(level) - 19) ==>
              Compressor.Tight(all, |all| - 1, Compressor.Limit(level) - 19)
    decreases |qs|
  {
    hide ValidBlocks, AllPairs, AllBytes, BlocksBits, Expand, Separate, Compressor.Neat, Compressor.Tight;
    var full := Compressor.Limit(level) - 19;
    if qs == [] {
      all := cs;
      InputRuns.NoRuns();
      Looser(cs, |cs|, full);
      assert AllPairs(cs) + [] == AllPairs(cs) && AllBytes(cs) + [] == AllBytes(cs);
    } else {
      var c, k := OneBlock(cs, qs, level);
      if Compressor.Tight(cs, |cs|, full) {
        TightSnoc(cs, c, full);
      }
      assert qs == qs[..k] + qs[k..];
      ExpandConcat(qs[..k], qs[k..]);
      if k == |qs| {
        assert qs[..k] == qs;
        all := cs + [c];
      } else {
        Assoc(AllPairs(cs), qs[..k], qs[k..]);
        Assoc(AllBytes(cs), Expand(qs[..k]), Expand(qs[k..]));
        all := Packed(cs + [c], qs[k..], level);
      }
    }
  }

  lemma {:induction false} Looser(cs: seq<Coded>, m: int, full: int)
    ensures Compressor.Tight(cs, m, full) ==> Compressor.Tight(cs, m - 1, full)
  {
    hide Compressor.Neat;
  }

  lemma {:induction false} PairsSnoc(cs: seq<Coded>, c: Coded)
    ensures AllPairs(cs + [c]) == AllPairs(cs) + c.pairs
  {
    assert (cs + [c])[..|cs|] == cs;
  }
}
