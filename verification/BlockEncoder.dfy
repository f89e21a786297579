/** BZ2_compressBlock: one block sorted, transformed and sent. */
module BlockEncoder {
  import opened Prelude
  import opened Bits
  import opened BitWriter
  import opened Crc
  import opened Rotations
  import opened HuffmanCodes
  import opened MoveToFront
  import opened MtfEncoder
  import opened BwtInverse
  import opened Decompress
  import opened BlockFormat
  import opened Sender
  import BlockSort
  import TableChoice

  method SortBlock(block: seq<byte>, workFactor: int) returns (ptr: array<nat>, origPtr: nat)
    requires 0 < |block| <= MAX_BLOCK_BYTES
    ensures SortsRotations(block, ptr[..]) && origPtr < |block| && ptr[..][origPtr] == 0
  {
    var n := |block|;
    ptr := new nat[n];
    var eclass := new nat[n];
    var eclass8 := new byte[4 * n](i requires 0 <= i < 4 * n => if i < n then block[i] else 0);
    var bhtab := new bool[32 * (n / 32 + 3)];
    assert eclass8[..n] == block;
    ghost var f;
    origPtr, f := BlockSort.BlockSort(ptr, eclass, eclass8, bhtab, n, workFactor, block);
  }

  lemma {:induction false} HalvesJoin(v: nat)
    ensures v % 0x1_0000 + 0x1_0000 * (v / 0x1_0000) == v
  {
  }

  /** The sorted order as halfwords, replaced by the block's symbols. */
  method MtfBlock(block: seq<byte>, u: InUse, ptr: array<nat>) returns (mtfv: seq<nat>)
    requires block != [] && ptr.Length == |block| && Rows(ptr[..], |block|) && Covers(u, block)
    ensures AllIn(LastColumn(block, ptr[..]), UsedBytes(u))
    ensures mtfv == Symbols(LastColumn(block, ptr[..]), UsedBytes(u), 0) + [AlphaSize(u) - 1]
  {
    hide Symbols, AllIn, LastColumn, UsedBytes;
    var n := |block|;
    var arr1 := new nat[2 * n];
    ghost var order := ptr[..];
    for i := 0 to n
      invariant ptr[..] == order
      invariant forall k {:trigger Word(arr1[..], k)} :: 0 <= k < i ==> Word(arr1[..], k) == order[k]
    {
      HalvesJoin(ptr[i]);
      ghost var was := arr1[..];
      arr1[2 * i], arr1[2 * i + 1] := ptr[i] % 0x1_0000, ptr[i] / 0x1_0000;
      forall k {:trigger Word(arr1[..], k)} | 0 <= k < i + 1
        ensures Word(arr1[..], k) == order[k]
      {
        if k < i {
          assert Word(was, k) == order[k];
          assert arr1[2 * k] == was[2 * k] && arr1[2 * k + 1] == was[2 * k + 1];
        }
      }
    }
    var nMTF := GenerateMTFValues(arr1, block, u, order);
    mtfv := arr1[..nMTF];
  }

  /** The choices made for the block are a plan the format can carry. */
  lemma {:induction false} PlanValid(p: Plan, syms: seq<nat>)
    requires 0 < |p.block| <= MAX_BLOCK_BYTES && SortsRotations(p.block, p.order)
    requires p.origPtr < |p.block| && p.order[p.origPtr] == 0 && Covers(p.used, p.block)
    requires AllIn(LastColumn(p.block, p.order), UsedBytes(p.used))
    requires syms == Symbols(LastColumn(p.block, p.order), UsedBytes(p.used), 0) + [AlphaSize(p.used) - 1]
    requires p.nGroups == TableChoice.NumTables(|syms|) && TableChoice.Selects(p.selectors, |syms|, p.nGroups)
    requires TableChoice.Fitted(p.lens, p.nGroups, AlphaSize(p.used)) && Plain(p)
    ensures ValidPlan(p) && Syms(p) == syms && TableChoice.AllWithin(p.lens)
  {
    hide Symbols, AllIn, LastColumn, UsedBytes, Decodable, Kraft, Pow2, TableChoice.MaxAtMost;
  }

  lemma {:induction false} SymsBelow(block: seq<byte>, order: seq<nat>, u: InUse, syms: seq<nat>)
    requires Rows(order, |block|) && AllIn(LastColumn(block, order), UsedBytes(u))
    requires syms == Symbols(LastColumn(block, order), UsedBytes(u), 0) + [AlphaSize(u) - 1]
    ensures 3 <= AlphaSize(u) <= MAX_ALPHA_SIZE && |syms| <= |block| + 1
    ensures forall i {:trigger syms[i]} :: 0 <= i < |syms| ==> syms[i] < AlphaSize(u)
  {
    var s := Symbols(LastColumn(block, order), UsedBytes(u), 0);
    SymbolsInAlphabet(LastColumn(block, order), UsedBytes(u), 0);
    assert Rank(u, 256) <= 256;
    forall i {:trigger syms[i]} | 0 <= i < |syms|
      ensures syms[i] < AlphaSize(u)
    {
      if i < |s| {
        assert syms[i] == s[i];
      }
    }
  }

  method PutFront(out: Writer, origPtr: nat, crc: word)
    requires out.Valid() && origPtr < 0x100_0000
    modifies out
    ensures out.Valid() && out.Written() == old(out.Written()) + FrontBits(origPtr, false, crc)
  {
    hide Enc, Pow2, MarkBits, Writer.Valid, Writer.Written;
    ghost var w := out.Written();
    ShlByConstants(0);
    OneBit(false);
    PutMark(out, BLOCK_MARK);
    out.PutWord(crc);
    out.Put(1, 0);
    out.Put(24, origPtr);
    FourAppended(w, MarkBits(BLOCK_MARK), Enc(32, crc), Enc(1, 0), Enc(24, origPtr));
  }

  lemma {:induction false} FourAppended(w: bits, a: bits, b: bits, c: bits, d: bits)
    ensures w + a + b + c + d == w + (a + b + c + d)
  {
  }

  method PutSelectors(out: Writer, nGroups: nat, sel: seq<nat>, ghost p: Plan)
    requires out.Valid() && ValidPlan(p) && nGroups == p.nGroups && sel == p.selectors && Plain(p)
    modifies out
    ensures out.Valid() && out.Written() == old(out.Written()) + SelectorBits(p)
  {
    hide Enc, Pow2, UnaryBits, MtfSelectors, Identity, Writer.Valid, Writer.Written, Syms;
    PlanCodable(p);
    RoundTripCounts(p);
    assert AllSelectors(p) == sel;
    ghost var w := out.Written();
    out.Put(3, nGroups);
    out.Put(15, |sel|);
    var mtf := CodeSelectors(sel, nGroups);
    PutUnary(out, mtf);
    assert w + Enc(3, nGroups) + Enc(15, |sel|) + UnaryBits(mtf) == w
      + (Enc(3, nGroups) + Enc(15, |sel|) + UnaryBits(mtf));
  }

  lemma {:induction false} RoundTripCounts(p: Plan)
    requires ValidPlan(p)
    ensures p.nGroups < Pow2(3) && |p.selectors| < Pow2(15)
  {
    assert Pow2(3) == 8 && Pow2(10) == 1024 && Pow2(15) == 32768;
    assert |Syms(p)| <= 900_001;
  }

  /** A block, from its bytes to its bits. */
  method SendBlock(out: Writer, block: seq<byte>, u: InUse, crc: word, workFactor: int) returns (ghost p: Plan)
    requires out.Valid() && 0 < |block| <= MAX_BLOCK_BYTES && Covers(u, block)
    modifies out
    ensures ValidPlan(p) && p.block == block && p.used == u && TableChoice.AllWithin(p.lens) && Plain(p)
    ensures out.Valid() && out.Written() == old(out.Written()) + BlockBits(p, crc)
  {
    hide Symbols, AllIn, LastColumn, UsedBytes, SortsRotations, ValidPlan, TableChoice.Fitted, TableChoice.Selects,
      TableChoice.AllWithin, Covers, AlphaSize, BlockBits, TailBits, FrontBits, Rows, Writer.Valid, Writer.Written;
    ghost var w := out.Written();
    var ptr, origPtr := SortBlock(block, workFactor);
    ghost var order := ptr[..];
    SortedRows(block, order);
    PutFront(out, origPtr, crc);
    var mtfv := MtfBlock(block, u, ptr);
    SymsBelow(block, order, u, mtfv);
    var nGroups, sel, lens := TableChoice.ChooseTables(mtfv, AlphaSize(u));
    p := Plan(block, order, origPtr, u, nGroups, sel, lens, false, []);
    PlanValid(p, mtfv);
    SendTables(out, u, nGroups, sel, lens, mtfv, p);
    SentBits(w, p, crc);
  }

  lemma {:induction false} SortedRows(block: seq<byte>, order: seq<nat>)
    requires SortsRotations(block, order)
    ensures Rows(order, |block|)
  {
  }

  lemma {:induction false} SentBits(w: bits, p: Plan, crc: word)
    requires ValidPlan(p)
    ensures w + FrontBits(p.origPtr, p.randomised, crc) + TailBits(p) == w + BlockBits(p, crc)
  {
    hide FrontBits, MapBits, SelectorBits, AllTableBits, DataBits;
    PlanCodable(p);
    var a, b, c := FrontBits(p.origPtr, p.randomised, crc), MapBits(p.used), SelectorBits(p);
    var d, e := AllTableBits(p.lens), DataBits(Syms(p), p.selectors, p.lens, 0);
    assert w + a + (b + c + d + e) == w + (a + b + c + d + e);
  }

  /** Everything after the block's front. */
  function TailBits(p: Plan): bits
    requires ValidPlan(p)
  {
    PlanCodable(p);
    MapBits(p.used) + SelectorBits(p) + AllTableBits(p.lens) + DataBits(Syms(p), p.selectors, p.lens, 0)
  }

  method SendTables(out: Writer, u: InUse, nGroups: nat, sel: seq<nat>, lens: seq<Lengths>, mtfv: seq<nat>,
      ghost p: Plan)
    requires out.Valid() && ValidPlan(p) && mtfv == Syms(p) && Plain(p)
    requires u == p.used && nGroups == p.nGroups && sel == p.selectors && lens == p.lens
    modifies out
    ensures out.Valid() && out.Written() == old(out.Written()) + TailBits(p)
  {
    hide MapBits, SelectorBits, AllTableBits, DataBits, Writer.Valid, Writer.Written, Syms, SortsRotations, Decodable;
    ghost var w := out.Written();
    PlanCodable(p);
    PlanLens(p);
    PutMap(out, u);
    PutSelectors(out, nGroups, sel, p);
    PutTables(out, lens);
    PutData(out, mtfv, sel, lens);
    FourAppended(w, MapBits(u), SelectorBits(p), AllTableBits(lens), DataBits(mtfv, sel, lens, 0));
  }

  lemma {:induction false} PlanLens(p: Plan)
    requires ValidPlan(p)
    ensures Full(p.lens) && forall t {:trigger p.lens[t]} :: 0 <= t < |p.lens| ==>
      Decodable(p.lens[t]) && p.lens[t] != [] && p.lens[t][0] <= LONGEST
  {
    hide Kraft, Pow2, Syms, SortsRotations;
    forall t {:trigger p.lens[t]} | 0 <= t < |p.lens|
      ensures Decodable(p.lens[t]) && p.lens[t] != [] && p.lens[t][0] <= LONGEST
    {
      assert Decodable(p.lens[t]);
    }
  }
}
