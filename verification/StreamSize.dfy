/**
 * How long a stream can be, by its input: by the run form of the input and the values that
 * occur in it.
 */
module StreamSize {
  import opened Prelude
  import opened RunLength
  import opened InputRuns
  import opened MtfEncoder
  import opened Decompress
  import opened RoundTrip
  import BlockFormat
  import Crc
  import opened BlockSize
  import opened Compressor

  /** The symbols that a block of these bytes is coded in. */
  function Alphabet(e: seq<byte>): nat { AlphaSize(Occurring(e)) }

  /** How many blocks n bytes make, of which all but the last hold full bytes at least. */
  function MostBlocks(n: nat, full: nat): (m: nat)
    requires full > 0
    ensures m >= 1
  {
    1 + n / full
  }

  /** The bits of m blocks at most that hold these bytes. */
  function BlocksBound(e: seq<byte>, m: nat): nat {
    OneMore(PerBlock(Alphabet(e)), m);
    PerBlock(Alphabet(e)) * m + 17 * |e| + 6 * (|e| / 50)
  }

  /**
   * The bytes of a stream at most: a header and a trailer, as many blocks as the run form
   * fills and one more, 17 bits for each byte of it, and the selectors.
   */
  function StreamBound(s: seq<byte>, level: nat): nat
    requires 1 <= level <= 9
  {
    (119 + BlocksBound(RunForm(s), MostBlocks(|RunForm(s)|, Limit(level) - 19))) / 8
  }

  lemma {:induction false} RankGrows(u: InUse, v: InUse, c: nat)
    requires c <= 256 && forall k {:trigger u[k]} :: 0 <= k < 256 ==> u[k] ==> v[k]
    ensures Rank(u, c) <= Rank(v, c)
  {
    if c > 0 {
      RankGrows(u, v, c - 1);
    }
  }

  lemma {:induction false} AlphabetGrows(d: seq<byte>, e: seq<byte>)
    requires forall x :: x in d ==> x in e
    ensures Alphabet(d) <= Alphabet(e)
  {
    RankGrows(Occurring(d), Occurring(e), 256);
  }

  lemma {:induction false} EncodedConcat(ps: seq<Pair>, qs: seq<Pair>)
    requires ValidPairs(ps) && ValidPairs(qs)
    ensures ValidPairs(ps + qs) && Encoded(ps + qs) == Encoded(ps) + Encoded(qs)
    decreases |qs|
  {
    hide EncodePair;
    if qs == [] {
      assert ps + qs == ps;
    } else {
      var q, p := qs[..|qs| - 1], qs[|qs| - 1];
      EncodedConcat(ps, q);
      assert ps + qs == ps + q + [p];
      Snoc(ps + q, p);
      Assoc(Encoded(ps), Encoded(q), EncodePair(p));
    }
  }

  /** The blocks hold the run form of their pairs. */
  lemma {:induction false} BlocksHold(cs: seq<Coded>, limit: nat)
    requires ValidBlocks(cs, limit)
    ensures ValidPairs(AllPairs(cs))
    ensures cs != [] ==>
              var t, c := cs[..|cs| - 1], cs[|cs| - 1];
              ValidPairs(AllPairs(t)) && Encoded(AllPairs(cs)) == Encoded(AllPairs(t)) + BlockFormat.Text(c.plan)
  {
    hide Encoded, BlockFormat.ValidPlan;
    if cs != [] {
      var t, c := cs[..|cs| - 1], cs[|cs| - 1];
      assert ValidCoded(c);
      assert ValidBlocks(t, limit);
      BlocksHold(t, limit);
      EncodedConcat(AllPairs(t), c.pairs);
    }
  }

  /** How long the blocks are together, when all they hold is in e. */
  lemma {:induction false} BlocksAtMost(cs: seq<Coded>, limit: nat, m: int, full: int, e: seq<byte>)
    requires ValidBlocks(cs, limit) && Tight(cs, m, full)
    requires ValidPairs(AllPairs(cs)) && Encoded(AllPairs(cs)) <= e
    ensures var n := |Encoded(AllPairs(cs))|;
            |BlocksBits(cs, limit)| <= PerBlock(Alphabet(e)) * |cs| + 17 * n + 6 * (n / 50)
  {
    hide BlockFormat.ValidPlan, BlockFormat.BlockBits, TableChoice.AllWithin, Encoded, Alphabet, Occurring, PerBlock;
    if cs != [] {
      var t, c := cs[..|cs| - 1], cs[|cs| - 1];
      BlocksHold(cs, limit);
      assert ValidCoded(c) && Neat(c);
      assert ValidBlocks(t, limit) && Tight(t, m, full);
      BlocksAtMost(t, limit, m, full, e);
      BlockAtMost(c, e, |Encoded(AllPairs(t))|);
      SumAtMost(|BlocksBits(t, limit)|, |BlocksBits(cs, limit)| - |BlocksBits(t, limit)|, PerBlock(Alphabet(e)), |t|,
        |Encoded(AllPairs(t))|, |c.plan.block|);
    }
  }

  lemma {:induction false} SumAtMost(x: nat, y: nat, p: nat, k: nat, n0: nat, n1: nat)
    requires x <= p * k + 17 * n0 + 6 * (n0 / 50) && y <= p + 17 * n1 + 6 * (n1 / 50)
    ensures x + y <= p * (k + 1) + 17 * (n0 + n1) + 6 * ((n0 + n1) / 50)
  {
    OneMore(p, k);
  }

  lemma {:induction false} BlockAtMost(c: Coded, e: seq<byte>, at: nat)
    requires ValidCoded(c) && Neat(c) && at + |c.plan.block| <= |e| && e[at..at + |c.plan.block|] == c.plan.block
    ensures var n := |c.plan.block|;
            |BlockFormat.BlockBits(c.plan, Crc.Checksum(Bytes(c)))| <= PerBlock(Alphabet(e)) + 17 * n + 6 * (n / 50)
  {
    hide BlockFormat.ValidPlan, BlockFormat.BlockBits, TableChoice.AllWithin, Encoded, Occurring, Separate,
      Crc.Checksum;
    var b := c.plan.block;
    forall x | x in b
      ensures x in e
    {
      var k :| 0 <= k < |b| && b[k] == x;
      assert e[at + k] == x;
    }
    AlphabetGrows(b, e);
    NeatLength(c.plan, Crc.Checksum(Bytes(c)));
  }

  lemma {:induction false} FullBlocks(cs: seq<Coded>, limit: nat, m: nat, full: nat)
    requires ValidBlocks(cs, limit) && m <= |cs| && Tight(cs, m, full) && ValidPairs(AllPairs(cs))
    ensures full * m <= |Encoded(AllPairs(cs))|
  {
    hide BlockFormat.ValidPlan, Neat, Encoded;
    if m > 0 {
      var t := cs[..|cs| - 1];
      BlocksHold(cs, limit);
      assert ValidBlocks(t, limit) && Tight(t, m, full);
      assert cs[|cs| - 1] == cs[|cs| - 1];
      if m == |cs| {
        FullBlocks(t, limit, m - 1, full);
        OneMore(full, m - 1);
      } else {
        FullBlocks(t, limit, m, full);
      }
    }
  }

  lemma {:induction false} BlocksCounted(k: nat, n: nat, full: nat)
    requires full > 0 && full * k <= n
    ensures k + 1 <= MostBlocks(n, full)
  {
    if k > n / full {
      Times(full, n / full + 1, k);
    }
  }

  lemma {:induction false} Times(x: nat, j: nat, k: nat)
    requires j <= k
    ensures x * j <= x * k
  {
    if j < k {
      Times(x, j, k - 1);
      OneMore(x, k - 1);
    }
  }

  /**
   * The stream of a compressor that was never flushed, as far as it is written, with the
   * runs of the source in full blocks but the last: no longer than the bound.
   */
  lemma {:induction false} StreamFits(cs: seq<Coded>, source: seq<byte>, level: nat, z: nat)
    requires 1 <= level <= 9 && ValidBlocks(cs, Limit(level)) && Tight(cs, |cs| - 1, Limit(level) - 19)
    requires AllPairs(cs) <= RunsOf(source)
    requires 8 * z <= 32 + |BlocksBits(cs, Limit(level))| + 80 + 7
    ensures z <= StreamBound(source, level)
  {
    hide BlocksBits, ValidBlocks, AllPairs, Tight, RunsOf, Encoded, Alphabet, PerBlock;
    var e, full := RunForm(source), Limit(level) - 19;
    EncodedOfPrefix(AllPairs(cs), RunsOf(source));
    BlocksAtMost(cs, Limit(level), |cs| - 1, full, e);
    if cs != [] {
      FullBlocks(cs, Limit(level), |cs| - 1, full);
      BlocksCounted(|cs| - 1, |e|, full);
    }
    Times(PerBlock(Alphabet(e)), |cs|, MostBlocks(|e|, full));
  }

  // ----- what the bound comes to

  /** A run of up to three bytes takes as many, a longer one five. */
  lemma {:induction false} PairsShrink(ps: seq<Pair>)
    requires ValidPairs(ps)
    ensures 4 * |Encoded(ps)| <= 5 * |Expand(ps)|
  {
    if ps != [] {
      PairsShrink(ps[..|ps| - 1]);
      var p := ps[|ps| - 1];
      assert ValidPair(p);
      assert 4 * |EncodePair(p)| <= 5 * p.len;
    }
  }

  /** Three bytes for each byte, and a constant, are enough. */
  lemma {:induction false} BoundByLength(s: seq<byte>, level: nat)
    requires 1 <= level <= 9
    ensures StreamBound(s, level) <= 3 * |s| + 6_457
  {
    hide RunsOf, Encoded, Expand, Separate, Occurring;
    var e := RunForm(s);
    RunsSeparate(s);
    PairsShrink(RunsOf(s));
    assert PerBlock(Alphabet(e)) <= 51_532;
    BlocksFew(|e|, Limit(level) - 19);
    TimesBoth(PerBlock(Alphabet(e)), 51_532, MostBlocks(|e|, Limit(level) - 19), 1 + |e| / 99_981);
  }

  lemma {:induction false} BlocksFew(n: nat, full: nat)
    requires full >= 99_981
    ensures MostBlocks(n, full) <= 1 + n / 99_981
  {
    var k := n / full;
    assert full * k <= n;
    Times(k, 99_981, full);
  }

  lemma {:induction false} TimesBoth(x: nat, y: nat, j: nat, k: nat)
    requires x <= y && j <= k
    ensures x * j <= y * k
  {
    Times(x, j, k);
    Times(k, x, y);
  }

  // ----- a long run

  /** So many runs of 255, and what is left over. */
  function Copies(c: byte, k: nat, r: nat): (ps: seq<Pair>)
    requires r < 255
    ensures ValidPairs(ps)
  {
    Repeat(Pair(c, 255), k) + if r == 0 then [] else [Pair(c, r)]
  }

  lemma {:induction false} RunsOfRepeat(c: byte, k: nat, r: nat)
    requires r < 255
    ensures RunsOf(Repeat(c, 255 * k + r)) == Copies(c, k, r)
    decreases k, r
  {
    hide Grown, RunsOf;
    if k > 0 || r > 0 {
      if r > 0 {
        RunsOfRepeat(c, k, r - 1);
        CopyAdded(c, k, r - 1);
      } else {
        RunsOfRepeat(c, k - 1, 254);
        CopyAdded(c, k - 1, 254);
      }
      RunsSnoc(Repeat(c, 255 * k + r - 1), c);
    } else {
      NothingRuns();
    }
  }

  lemma {:induction false} NothingRuns()
    ensures RunsOf([]) == []
  {
  }

  lemma {:induction false} CopyAdded(c: byte, k: nat, r: nat)
    requires r < 255
    ensures Grown(Copies(c, k, r), c) == if r < 254 then Copies(c, k, r + 1) else Copies(c, k + 1, 0)
  {
    hide Grown;
    var full := Repeat(Pair(c, 255), k);
    assert full + [] == full;
    if r > 0 {
      GrownLonger(full, c, r);
    } else if k == 0 {
      FirstGrown(c);
    } else {
      GrownNew(Repeat(Pair(c, 255), k - 1), Pair(c, 255), c);
    }
  }

  lemma {:induction false} FullRuns(c: byte, k: nat)
    ensures ValidPairs(Repeat(Pair(c, 255), k)) && |Encoded(Repeat(Pair(c, 255), k))| == 5 * k
    ensures forall x :: x in Encoded(Repeat(Pair(c, 255), k)) ==> x == c || x == 251
  {
    if k > 0 {
      FullRuns(c, k - 1);
      var ps := Repeat(Pair(c, 255), k - 1);
      Snoc(ps, Pair(c, 255));
      assert forall x :: x in EncodePair(Pair(c, 255)) ==> x == c || x == 251;
    }
  }

  lemma {:induction false} FewUsed(u: InUse, x: byte, y: byte, z: byte, c: nat)
    requires c <= 256 && forall k {:trigger u[k]} :: 0 <= k < 256 && u[k] ==> k in {x, y, z}
    ensures Rank(u, c) <= (if x < c then 1 else 0) + (if y < c then 1 else 0) + (if z < c then 1 else 0)
  {
    if c > 0 {
      FewUsed(u, x, y, z, c - 1);
    }
  }

  lemma {:induction false} CopiesShort(c: byte, k: nat, r: nat)
    requires r < 255
    ensures |Encoded(Copies(c, k, r))| <= 5 * k + 5 && Alphabet(Encoded(Copies(c, k, r))) <= 5
  {
    hide Encoded, Alphabet;
    FullRuns(c, k);
    var full := Repeat(Pair(c, 255), k);
    if r == 0 {
      assert Copies(c, k, r) == full;
      ThreeValues(Encoded(full), c, 251, c);
    } else {
      Snoc(full, Pair(c, r));
      assert EncodePair(Pair(c, r)) == if r < 4 then Repeat(c, r) else Repeat(c, 4) + [r - 4];
      ThreeValues(Encoded(Copies(c, k, r)), c, 251, if r < 4 then c else r - 4);
    }
  }

  /** A run of three hundred and more bytes gets shorter, at every level. */
  lemma {:induction false} LongRun(c: byte, n: nat, level: nat)
    requires n >= 300 && 1 <= level <= 9
    ensures StreamBound(Repeat(c, n), level) < n
  {
    hide RunsOf, Encoded, Alphabet, Copies, Repeat, MostBlocks;
    var k, r := n / 255, n % 255;
    RunsOfRepeat(c, k, r);
    CopiesShort(c, k, r);
    var e := RunForm(Repeat(c, n));
    BlocksFew(|e|, Limit(level) - 19);
    TimesBoth(PerBlock(Alphabet(e)), PerBlock(5), MostBlocks(|e|, Limit(level) - 19), 1 + |e| / 99_981);
    ShortEnough(|e|, n);
  }

  lemma {:induction false} ShortEnough(len: nat, n: nat)
    requires n >= 300 && len <= 5 * (n / 255) + 5
    ensures 119 + 1438 * (1 + len / 99_981) + 17 * len + 6 * (len / 50) < 8 * n
  {
  }

  lemma {:induction false} ThreeValues(e: seq<byte>, x: byte, y: byte, z: byte)
    requires forall b :: b in e ==> b in {x, y, z}
    ensures Alphabet(e) <= 5
  {
    hide Rank;
    FewUsed(Occurring(e), x, y, z, 256);
  }
}
