/** How long a block's bits can be: the compressed form fits behind the block in the same memory. */
module BlockSize {
  import opened Prelude
  import opened Bits
  import opened HuffmanCodes
  import MoveToFront
  import opened MtfEncoder
  import opened Decompress
  import opened BlockFormat
  import opened Crc
  import TableChoice

  lemma {:induction false} FlagsLength(u: InUse, k: nat)
    requires k <= 256
    ensures |RestFlags(u, k)| <= 256 - k
    decreases 256 - k
  {
    if k < 256 {
      FlagsLength(u, k + 1);
    }
  }

  lemma {:induction false} UnaryLength(js: seq<nat>, n: nat)
    requires forall i {:trigger js[i]} :: 0 <= i < |js| ==> js[i] < n <= MAX_GROUPS
    ensures |UnaryBits(js)| <= MAX_GROUPS * |js|
    decreases |js|
  {
    if js != [] {
      assert forall i {:trigger js[1..][i]} :: 0 <= i < |js| - 1 ==> js[1..][i] == js[i + 1];
      UnaryLength(js[1..], n);
    }
  }

  lemma {:induction false} MtfBelow(sel: seq<nat>, pos: seq<nat>)
    requires forall i {:trigger sel[i]} :: 0 <= i < |sel| ==> sel[i] in pos
    ensures forall i {:trigger MtfSelectors(sel, pos)[i]} :: 0 <= i < |sel| ==> MtfSelectors(sel, pos)[i] < |pos|
    decreases |sel|
  {
    if sel != [] {
      var j := MoveToFront.IndexOf(pos, sel[0]);
      SelectorsStayIn(sel, pos, j);
      MtfBelow(sel[1..], MoveToFront.MoveFront(pos, j));
      var m := MtfSelectors(sel, pos);
      assert m[1..] == MtfSelectors(sel[1..], MoveToFront.MoveFront(pos, j));
      assert forall i {:trigger m[i]} :: 1 <= i < |m| ==> m[i] == m[1..][i - 1];
    }
  }

  lemma {:induction false} DeltaLength(curr: nat, len: nat)
    ensures |DeltaBits(curr, len)| == 1 + 2 * (if curr < len then len - curr else curr - len)
    decreases if curr < len then len - curr else curr - len
  {
    if curr < len {
      DeltaLength(curr + 1, len);
    } else if curr > len {
      DeltaLength(curr - 1, len);
    }
  }

  lemma {:induction false} TableLength(lens: Lengths, curr: nat)
    requires AllLengths(lens) && 1 <= curr <= LONGEST
    ensures |TableBits(lens, curr)| <= 39 * |lens|
    decreases |lens|
  {
    if lens != [] {
      DeltaLength(curr, lens[0]);
      assert forall i {:trigger lens[1..][i]} :: 0 <= i < |lens| - 1 ==> lens[1..][i] == lens[i + 1];
      TableLength(lens[1..], lens[0]);
    }
  }

  lemma {:induction false} TablesLength(lens: seq<Lengths>)
    requires forall t {:trigger lens[t]} :: 0 <= t < |lens| ==> lens[t] != []
    requires forall t {:trigger lens[t]} :: 0 <= t < |lens| ==> InRange(lens[t])
    ensures |AllTableBits(lens)| <= 10_067 * |lens|
    decreases |lens|
  {
    if lens != [] {
      assert InRange(lens[0]);
      assert lens[0][0] >= 1;
      TableLength(lens[0], lens[0][0]);
      assert forall t {:trigger lens[1..][t]} :: 0 <= t < |lens| - 1 ==> lens[1..][t] == lens[t + 1];
      TablesLength(lens[1..]);
    }
  }

  lemma {:induction false} DataLength(syms: seq<nat>, sel: seq<nat>, lens: seq<Lengths>, i: nat)
    requires AllCodable(syms, sel, lens) && i <= |syms|
    requires forall t {:trigger lens[t]} :: 0 <= t < |lens| ==> InRange(lens[t])
    ensures |DataBits(syms, sel, lens, i)| <= LONGEST * (|syms| - i)
    ensures TableChoice.AllWithin(lens) ==> |DataBits(syms, sel, lens, i)| <= TableChoice.MAX_LEN * (|syms| - i)
    decreases |syms| - i
  {
    if i < |syms| {
      assert syms[i] >= 0;
      var l := lens[sel[i / GROUP_SIZE]];
      assert InRange(l);
      assert TableChoice.AllWithin(lens) ==> TableChoice.MaxAtMost(l);
      DataLength(syms, sel, lens, i + 1);
    }
  }

  /** A block of n bytes: tables and selectors, and n + 1 symbols of at most 17 bits. */
  function BitsAtMost(n: nat): nat { 60_803 + 6 * (n / 50) + TableChoice.MAX_LEN * (n + 1) }

  /** And with codes as long as the format has them. */
  function LongestBits(n: nat): nat { 60_803 + 6 * (n / 50) + LONGEST * (n + 1) }

  lemma {:induction false} BlockLength(p: Plan, crc: word)
    requires ValidPlan(p) && Plain(p)
    ensures |BlockBits(p, crc)| <= LongestBits(|p.block|)
    ensures TableChoice.AllWithin(p.lens) ==> |BlockBits(p, crc)| <= BitsAtMost(|p.block|)
  {
    hide UnaryBits, MtfSelectors, AllTableBits, DataBits, RestFlags, Kraft, Pow2, Enc, TableChoice.AllWithin;
    PlanCodable(p);
    PlanInRange(p);
    assert AllSelectors(p) == p.selectors;
    FlagsLength(p.used, 0);
    MtfBelow(p.selectors, Identity(p.nGroups));
    UnaryLength(MtfSelectors(p.selectors, Identity(p.nGroups)), p.nGroups);
    TablesLength(p.lens);
    DataLength(Syms(p), p.selectors, p.lens, 0);
    SelectorCount(|Syms(p)|, |p.block|);
  }

  lemma {:induction false} SelectorCount(m: nat, n: nat)
    requires 1 <= m <= n + 1
    ensures TableChoice.GroupsOf(m) <= n / 50 + 1
  {
  }

  lemma {:induction false} PlanInRange(p: Plan)
    requires ValidPlan(p)
    ensures forall t {:trigger p.lens[t]} :: 0 <= t < |p.lens| ==> InRange(p.lens[t])
  {
    forall t {:trigger p.lens[t]} | 0 <= t < |p.lens|
      ensures InRange(p.lens[t])
    {
      assert Decodable(p.lens[t]);
    }
  }

  lemma {:induction false} ShortTable(lens: Lengths, curr: nat)
    requires TableChoice.MaxAtMost(lens) && 1 <= curr <= TableChoice.MAX_LEN
    ensures |TableBits(lens, curr)| <= 33 * |lens|
    decreases |lens|
  {
    if lens != [] {
      DeltaLength(curr, lens[0]);
      assert forall i {:trigger lens[1..][i]} :: 0 <= i < |lens| - 1 ==> lens[1..][i] == lens[i + 1];
      ShortTable(lens[1..], lens[0]);
    }
  }

  lemma {:induction false} ShortTables(lens: seq<Lengths>, a: nat)
    requires TableChoice.AllWithin(lens) && a > 0
    requires forall t {:trigger lens[t]} :: 0 <= t < |lens| ==> |lens[t]| == a && lens[t] != []
    ensures |AllTableBits(lens)| <= (5 + 33 * a) * |lens|
    decreases |lens|
  {
    hide TableBits;
    if lens != [] {
      assert TableChoice.MaxAtMost(lens[0]);
      assert 1 <= lens[0][0] <= TableChoice.MAX_LEN;
      ShortTable(lens[0], lens[0][0]);
      assert forall t {:trigger lens[1..][t]} :: 0 <= t < |lens| - 1 ==> lens[1..][t] == lens[t + 1];
      ShortTables(lens[1..], a);
      OneMore(5 + 33 * a, |lens| - 1);
    }
  }

  lemma {:induction false} OneMore(x: nat, n: nat)
    ensures x * n + x == x * (n + 1)
  {
  }

  lemma {:induction false} SixAtMost(x: nat, n: nat)
    requires n <= 6
    ensures x * n <= 6 * x
  {
  }

  /** A block over an alphabet of a symbols, but for its selectors and symbols. */
  function PerBlock(a: nat): nat { 448 + 198 * a }

  /** How long a block can be that has short codes, by its bytes and its alphabet. */
  lemma {:induction false} NeatLength(p: Plan, crc: word)
    requires ValidPlan(p) && Plain(p) && TableChoice.AllWithin(p.lens)
    ensures |BlockBits(p, crc)| <= PerBlock(AlphaSize(p.used)) + 17 * |p.block| + 6 * (|p.block| / 50)
  {
    hide UnaryBits, MtfSelectors, AllTableBits, DataBits, RestFlags, Kraft, Pow2, Enc, TableChoice.AllWithin;
    var a := AlphaSize(p.used);
    PlanCodable(p);
    PlanInRange(p);
    assert AllSelectors(p) == p.selectors;
    FlagsLength(p.used, 0);
    MtfBelow(p.selectors, Identity(p.nGroups));
    UnaryLength(MtfSelectors(p.selectors, Identity(p.nGroups)), p.nGroups);
    ShortTables(p.lens, a);
    SixAtMost(5 + 33 * a, p.nGroups);
    DataLength(Syms(p), p.selectors, p.lens, 0);
    SelectorCount(|Syms(p)|, |p.block|);
  }

  /**
   * A block of n bytes, with what was left over from the one before it, a stream header
   * and a trailer, and the last byte filled up, fits behind the block in arr2.
   */
  lemma {:induction false} FitsBehindBlock(n: nat, level: nat, z: nat)
    requires 1 <= level <= 9 && n <= 100_000 * level && 8 * z <= 32 + 32 + BitsAtMost(n) + 80 + 7
    ensures z + n <= 4 * (100_000 * level + 34)
  {
  }
}
