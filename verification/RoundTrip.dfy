/**
 * The stream as a whole: for every sequence of blocks, whatever their tables and
 * selectors, the decoder gives back the bytes the blocks stand for and ends in
 * STREAM_END with both checksums matching.
 */
module RoundTrip {
  import opened Prelude
  import opened Bits
  import opened Crc
  import RunLength
  import opened HuffmanCodes
  import opened MoveToFront
  import opened MtfEncoder
  import opened BwtInverse
  import opened BwtDecoder
  import RandTable
  import opened OutputStage
  import opened Decompress
  import TableChoice
  import opened BlockFormat
  import opened ParseBack
  import opened ParseData

  function PlanBlock(p: Plan, crc: word, st: Stream): Block { Block(st, crc, p.origPtr, p.randomised) }

  /** The selectors that the decoder has room for. */
  function Kept(p: Plan): seq<nat> {
    var sel := AllSelectors(p);
    if |sel| > MAX_SELECTORS then sel[..MAX_SELECTORS] else sel
  }

  function PlanTables(p: Plan, b: Block): Tables { Tables(p.used, p.nGroups, Kept(p), b) }

  lemma {:induction false} FrontBack(p: Plan, crc: word, st: Stream, bound: nat)
    requires OkStream(st) && p.origPtr <= st.limit
    ensures Leads(Marker(0, st), FrontBits(p.origPtr, p.randomised, crc), Mapping1([], PlanBlock(p, crc, st)), bound)
  {
    hide Leads, Enc, MarkBits;
    var r := if p.randomised then 1 else 0;
    assert Pow2(0) == 1 && Pow2(1) == 2;
    var a, b, c := MarkBits(BLOCK_MARK), Enc(32, crc), Enc(1, r);
    MarkBack(st, bound);
    CrcBack(st, crc, bound);
    LeadsTrans(Marker(0, st), a, BlockCrc(0, 0, st), b, RandBit(crc, st), bound);
    LeadsNext(RandBit(crc, st), 1, r, bound);
    LeadsTrans(Marker(0, st), a + b, RandBit(crc, st), c, OrigPtr(0, Block(st, crc, 0, p.randomised)), bound);
    OrigPtrBack(Block(st, crc, 0, p.randomised), p.origPtr, bound);
    LeadsTrans(Marker(0, st), a + b + c, OrigPtr(0, Block(st, crc, 0, p.randomised)), Enc(24, p.origPtr),
      Mapping1([], PlanBlock(p, crc, st)), bound);
  }

  lemma {:induction false} PlanCounts(p: Plan)
    requires ValidPlan(p)
    ensures |UsedBytes(p.used)| > 0 && 1 <= |p.selectors| <= MAX_SELECTORS
    ensures p.nGroups < Pow2(3) && 1 <= |AllSelectors(p)| < Pow2(15)
  {
    assert Pow2(3) == 8 && Pow2(10) == 1024 && Pow2(15) == 32768;
    assert |Syms(p)| <= 900_001;
    assert TableChoice.GroupsOf(|Syms(p)|) <= 18_001;
  }

  lemma {:induction false} PlanTablesOk(p: Plan, b: Block)
    requires ValidPlan(p) && OkStream(b.st)
    ensures OkTables(PlanTables(p, b)) && OkLens(p.lens, PlanTables(p, b))
  {
    PlanCounts(p);
    var t := PlanTables(p, b);
    forall i {:trigger t.selectors[i]} | 0 <= i < |t.selectors|
      ensures t.selectors[i] < p.nGroups
    {
      assert t.selectors[i] == if i < |p.selectors| then p.selectors[i] else p.spare[i - |p.selectors|];
    }
    forall i {:trigger p.lens[i]} | 0 <= i < |p.lens|
      ensures InRange(p.lens[i]) && |p.lens[i]| == AlphaSize(p.used)
    {
      assert Decodable(p.lens[i]);
    }
  }

  /** The selector count, the selectors in unary, and their move-to-front coding undone. */
  lemma {:induction false} SelectorBitsBack(p: Plan, b: Block, bound: nat)
    requires ValidPlan(p) && OkStream(b.st)
    ensures Ok(Coding1([], PlanTables(p, b)))
    ensures Leads(Selector1(p.used, b), SelectorBits(p), Coding1([], PlanTables(p, b)), bound)
  {
    hide Leads, Enc, Pow2, UnaryBits, MtfSelectors, UndoSelectors, OkTables;
    PlanCounts(p);
    PlanCodable(p);
    PlanTablesOk(p, b);
    var sel := AllSelectors(p);
    var js := MtfSelectors(sel, Identity(p.nGroups));
    SelectorsUndone(sel, Identity(p.nGroups));
    if |sel| > MAX_SELECTORS {
      UndoneFirst(js, MAX_SELECTORS, Identity(p.nGroups));
    }
    var s1, s2, s3 := Selector1(p.used, b), Selector2(p.used, p.nGroups, b),
      Selector3(0, [], |sel|, p.used, p.nGroups, b);
    LeadsNext(s1, 3, p.nGroups, bound);
    LeadsNext(s2, 15, |sel|, bound);
    LeadsTrans(s1, Enc(3, p.nGroups), s2, Enc(15, |sel|), s3, bound);
    SelectorsBack(s3, js, bound);
    assert [] + js == js;
    LeadsTrans(s1, Enc(3, p.nGroups) + Enc(15, |sel|), s3, UnaryBits(js), Coding1([], PlanTables(p, b)), bound);
  }

  /** The first selectors are undone without the others. */
  lemma {:induction false} UndoneFirst(js: seq<nat>, k: nat, pos: seq<nat>)
    requires k <= |js| && forall i {:trigger js[i]} :: 0 <= i < |js| ==> js[i] < |pos|
    ensures forall i {:trigger js[..k][i]} :: 0 <= i < k ==> js[..k][i] < |pos|
    ensures UndoSelectors(js[..k], pos) == UndoSelectors(js, pos)[..k]
    decreases |js|
  {
    if k > 0 {
      assert js[..k][0] == js[0] && js[..k][1..] == js[1..][..k - 1];
      assert forall i {:trigger js[1..][i]} :: 0 <= i < |js| - 1 ==> js[1..][i] == js[i + 1];
      UndoneFirst(js[1..], k - 1, MoveFront(pos, js[0]));
    }
  }

  /** Selectors behind those in use change nothing. */
  lemma {:induction false} SpareUnused(syms: seq<nat>, sel: seq<nat>, more: seq<nat>, lens: seq<Lengths>, i: nat)
    requires AllCodable(syms, sel, lens) && sel <= more && i <= |syms|
    ensures AllCodable(syms, more, lens) && DataBits(syms, more, lens, i) == DataBits(syms, sel, lens, i)
    decreases |syms| - i
  {
    hide CodeBits;
    forall k: nat {:trigger Codable(syms, more, lens, k)} | k < |syms|
      ensures Codable(syms, more, lens, k)
    {
      assert syms[k] >= 0;
      assert Codable(syms, sel, lens, k);
    }
    if i < |syms| {
      assert syms[i] >= 0;
      assert Codable(syms, sel, lens, i) && more[i / GROUP_SIZE] == sel[i / GROUP_SIZE];
      SpareUnused(syms, sel, more, lens, i + 1);
    }
  }

  /** The decoder's first request for a symbol finds the tables and the list in place. */
  lemma {:induction false} DataBack(p: Plan, b: Block, bound: nat)
    requires ValidPlan(p) && OkStream(b.st) && |p.block| <= b.st.limit && b.origPtr < |p.block|
    ensures AllCodable(Syms(p), p.selectors, p.lens)
    ensures OkTables(PlanTables(p, b)) && OkLens(p.lens, PlanTables(p, b))
    ensures Leads(AddTable(p.lens, PlanTables(p, b)), DataBits(Syms(p), p.selectors, p.lens, 0), Output(Column(p), b),
      bound)
  {
    hide Leads, AskMtf, OkTables, OkLens, DataBits, Symbols;
    PlanCodable(p);
    PlanTablesOk(p, b);
    PlanCounts(p);
    var t, l, list, syms := PlanTables(p, b), Column(p), UsedBytes(p.used), Syms(p);
    SpareUnused(syms, p.selectors, t.selectors, p.lens, 0);
    FeedSymbols(l, list, 0, [], b.st.limit);
    assert [] + Repeat(list[0], 0) + l == l;
    assert syms[0..|syms| - 1] == Symbols(l, list, 0);
    SymbolsBack(t, p.lens, Fresh(list, []), syms, 0, bound);
  }

  /** A block's bits lead to its last column. */
  lemma {:induction false} BlockBack(p: Plan, crc: word, st: Stream, bound: nat)
    requires ValidPlan(p) && OkStream(st) && |p.block| <= st.limit
    ensures Leads(Marker(0, st), BlockBits(p, crc), Output(Column(p), PlanBlock(p, crc, st)), bound)
  {
    hide Leads, FrontBits, MapBits, SelectorBits, AllTableBits, DataBits, OkTables, OkLens, AddTable;
    PlanCodable(p);
    PlanCounts(p);
    var b := PlanBlock(p, crc, st);
    var t := PlanTables(p, b);
    var start := Marker(0, st);
    PlanTablesOk(p, b);
    FrontBack(p, crc, st, bound);
    MapBack(p.used, b, bound);
    assert MapBits(p.used) == Used16(p.used) + RestFlags(p.used, 0) by { MapBitsAre(p.used); }
    LeadsTrans(start, FrontBits(p.origPtr, p.randomised, crc), Mapping1([], b), MapBits(p.used), Selector1(p.used, b),
      bound);
    SelectorBitsBack(p, b, bound);
    var b1 := FrontBits(p.origPtr, p.randomised, crc) + MapBits(p.used);
    LeadsTrans(start, b1, Selector1(p.used, b), SelectorBits(p), Coding1([], t), bound);
    assert OkLens([], t) by { EmptyLens(t); }
    AllTablesBack([], p.lens, t, bound);
    assert [] + p.lens == p.lens;
    LeadsTrans(start, b1 + SelectorBits(p), Coding1([], t), AllTableBits(p.lens), AddTable(p.lens, t), bound);
    DataBack(p, b, bound);
    LeadsTrans(start, b1 + SelectorBits(p) + AllTableBits(p.lens), AddTable(p.lens, t),
               DataBits(Syms(p), p.selectors, p.lens, 0), Output(Column(p), b), bound);
  }

  lemma {:induction false} MapBitsAre(u: InUse)
    ensures MapBits(u) == Used16(u) + RestFlags(u, 0)
  {
  }

  lemma {:induction false} EmptyLens(t: Tables)
    ensures OkLens([], t)
  {
  }

  // ----- the bytes of a block

  /** A block together with the runs it encodes. */
  datatype Coded = Coded(plan: Plan, pairs: seq<RunLength.Pair>)

  predicate ValidCoded(c: Coded) {
    ValidPlan(c.plan) && RunLength.Separate(c.pairs) && Text(c.plan) == RunLength.Encoded(c.pairs)
  }

  function Bytes(c: Coded): seq<byte> { RunLength.Expand(c.pairs) }

  /** The inverse transform and run-length decoding of a block's last column give its bytes. */
  lemma {:induction false} BlockUnpacks(c: Coded)
    requires ValidCoded(c)
    ensures BlockOutput(Column(c.plan), c.plan.origPtr, c.plan.randomised) == RunLength.Unpacked(Bytes(c), false)
  {
    hide Fetch, RunLength.Unrle, RunLength.Encoded, RunLength.Expand;
    var p := c.plan;
    var n, s := |p.block|, Restored(Column(p), p.origPtr, p.randomised);
    RestoredText(p);
    assert s[0..n] == Text(p);
    RunLength.PairsUnpack(s, n, 0, c.pairs);
  }

  /** What is fetched is flipped back, if it was randomised. */
  lemma {:induction false} RestoredText(p: Plan)
    requires ValidPlan(p)
    ensures |Restored(Column(p), p.origPtr, p.randomised)| >= |p.block|
    ensures Restored(Column(p), p.origPtr, p.randomised)[..|p.block|] == Text(p)
  {
    hide Fetch, Fetched, Column, RandTable.MaskAfter;
    FetchedBlock(p);
    var r, s := Fetched(Column(p), p.origPtr), Restored(Column(p), p.origPtr, p.randomised);
    if p.randomised {
      forall k | 0 <= k < |p.block|
        ensures s[k] == Text(p)[k]
      {
        assert r[k] == p.block[k];
      }
    }
  }

  lemma {:induction false} FetchedBlock(p: Plan)
    requires ValidPlan(p)
    ensures Fetched(Column(p), p.origPtr)[..|p.block|] == p.block
  {
    hide Fetch;
    var s := Fetched(Column(p), p.origPtr);
    forall k | 0 <= k < |p.block|
      ensures s[k] == p.block[k]
    {
      WalkRecoversBlock(p.block, p.order, p.origPtr, k);
    }
  }

  /** The stream's state after one more block. */
  function After(c: Coded, st: Stream): Stream {
    st.(combined := Combine(st.combined, Checksum(Bytes(c))))
  }

  lemma {:induction false} DeliverBack(c: Coded, st: Stream)
    requires ValidCoded(c) && OkStream(st) && |c.plan.block| <= st.limit
    ensures var crc := Checksum(Bytes(c));
            && Deliver(Output(Column(c.plan), PlanBlock(c.plan, crc, st))) == Marker(0, After(c, st))
            && Accepted(Output(Column(c.plan), PlanBlock(c.plan, crc, st))) == Bytes(c)
  {
    hide BlockOutput, Checksum, Combine;
    BlockUnpacks(c);
  }

  // ----- streams

  predicate ValidBlocks(cs: seq<Coded>, limit: nat) {
    forall i {:trigger cs[i]} :: 0 <= i < |cs| ==> ValidCoded(cs[i]) && |cs[i].plan.block| <= limit
  }

  function BlocksBits(cs: seq<Coded>, limit: nat): bits
    requires ValidBlocks(cs, limit)
  {
    if cs == [] then []
    else BlocksBits(cs[..|cs| - 1], limit) + BlockBits(cs[|cs| - 1].plan, Checksum(Bytes(cs[|cs| - 1])))
  }

  function AllBytes(cs: seq<Coded>): seq<byte> {
    if cs == [] then [] else AllBytes(cs[..|cs| - 1]) + Bytes(cs[|cs| - 1])
  }

  /** The runs of all the blocks. */
  function AllPairs(cs: seq<Coded>): seq<RunLength.Pair> {
    if cs == [] then [] else AllPairs(cs[..|cs| - 1]) + cs[|cs| - 1].pairs
  }

  function CombinedCrc(cs: seq<Coded>): word {
    if cs == [] then 0 else Combine(CombinedCrc(cs[..|cs| - 1]), Checksum(Bytes(cs[|cs| - 1])))
  }

  function StreamBits(level: nat, cs: seq<Coded>, limit: nat): bits
    requires ValidBlocks(cs, limit)
  {
    HeaderBits(level) + BlocksBits(cs, limit) + TrailerBits(CombinedCrc(cs))
  }

  /** The state after the blocks. */
  function Reached(cs: seq<Coded>, limit: nat): Phase { Marker(0, Stream(limit, CombinedCrc(cs))) }

  lemma {:induction false} BlocksBack(level: nat, cs: seq<Coded>, bound: nat)
    requires 1 <= level <= 9 && ValidBlocks(cs, StartStream(level, bound).limit)
    ensures var limit := StartStream(level, bound).limit;
            Decompress.Run(Magic(0), HeaderBits(level) + BlocksBits(cs, limit), bound)
              == Result(Reached(cs, limit), [], AllBytes(cs))
  {
    hide HeaderBits, BlockBits, ValidCoded, Checksum, Combine, Bytes;
    var limit := StartStream(level, bound).limit;
    if cs == [] {
      HeaderBack(level, bound);
      LeadsThere(Magic(0), HeaderBits(level), Marker(0, StartStream(level, bound)), [], bound);
      assert HeaderBits(level) + [] == HeaderBits(level);
    } else {
      var cs', c := cs[..|cs| - 1], cs[|cs| - 1];
      BlocksBack(level, cs', bound);
      OneBlock(c, Stream(limit, CombinedCrc(cs')), bound);
      var b, b' := HeaderBits(level) + BlocksBits(cs', limit), BlockBits(c.plan, Checksum(Bytes(c)));
      RunConcat(Magic(0), b, b', bound);
      assert [] + b' == b';
      RunLength.Assoc(HeaderBits(level), BlocksBits(cs', limit), b');
    }
  }

  lemma {:induction false} OneBlock(c: Coded, st: Stream, bound: nat)
    requires ValidCoded(c) && OkStream(st) && |c.plan.block| <= st.limit
    ensures ValidPlan(c.plan)
    ensures Decompress.Run(Marker(0, st), BlockBits(c.plan, Checksum(Bytes(c))), bound)
      == Result(Marker(0, After(c, st)), [], Bytes(c))
  {
    hide BlockBits, Checksum, Combine, Bytes, Deliver, Ok, Accepted, Next, Leads;
    var crc := Checksum(Bytes(c));
    BlockBack(c.plan, crc, st, bound);
    DeliverBack(c, st);
    var p := Output(Column(c.plan), PlanBlock(c.plan, crc, st));
    LeadsThere(Marker(0, st), BlockBits(c.plan, crc), p, [], bound);
    assert BlockBits(c.plan, crc) + [] == BlockBits(c.plan, crc);
    assert Decompress.Run(Marker(0, After(c, st)), [], bound) == Result(Marker(0, After(c, st)), [], []);
    assert Decompress.Run(p, [], bound) == Behind(Accepted(p), Decompress.Run(Deliver(p), [], bound));
    assert Bytes(c) + [] == Bytes(c);
  }

  /**
   * Decoding a whole stream, with whatever bits follow it: the bytes come back, the
   * machine stops in STREAM_END, and what follows is left alone.
   */
  lemma {:induction false} StreamBack(level: nat, cs: seq<Coded>, after: bits, bound: nat)
    requires 1 <= level <= 9 && ValidBlocks(cs, StartStream(level, bound).limit)
    ensures var limit := StartStream(level, bound).limit;
            Decompress.Run(Magic(0), StreamBits(level, cs, limit) + after, bound)
              == Result(StreamEnd, after, AllBytes(cs))
  {
    hide HeaderBits, BlocksBits, MarkBits, Enc, CombinedCrc, AllBytes;
    var limit := StartStream(level, bound).limit;
    var b, t := HeaderBits(level) + BlocksBits(cs, limit), TrailerBits(CombinedCrc(cs));
    BlocksBack(level, cs, bound);
    TrailerBack(Stream(limit, CombinedCrc(cs)), CombinedCrc(cs), after, bound);
    RunConcat(Magic(0), b, t + after, bound);
    RunLength.Assoc(b, t, after);
    assert [] + (t + after) == t + after;
    assert AllBytes(cs) + [] == AllBytes(cs);
  }

  lemma {:induction false} TrailerBack(st: Stream, crc: word, after: bits, bound: nat)
    requires OkStream(st)
    ensures Decompress.Run(Marker(0, st), TrailerBits(crc) + after, bound)
      == Result(if crc == st.combined then StreamEnd else Failed(DataError), after, [])
  {
    hide Leads, MarkBits, Enc;
    var end := if crc == st.combined then StreamEnd else Failed(DataError);
    EndMarkBack(st, bound);
    StreamCrcBack(st, crc, bound);
    LeadsTrans(Marker(0, st), MarkBits(END_MARK), StreamCrc(0, 0, st), Enc(32, crc), end, bound);
    LeadsThere(Marker(0, st), TrailerBits(crc), end, after, bound);
  }
}
