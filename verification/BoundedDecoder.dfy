/**
 * BZ2_bzDecompressInitBounded: tables no larger than a block yielding maxOut bytes can
 * need. The bounded decoder refuses no stream that stays within its bound, and what it
 * accepts it decodes as the unbounded one does.
 */
module BoundedDecoder {
  import opened Prelude
  import opened Bits
  import opened Crc
  import opened HuffmanCodes
  import opened MoveToFront
  import opened MtfEncoder
  import opened BwtDecoder
  import opened RunLength
  import opened OutputStage
  import opened Decompress
  import opened BlockFormat
  import opened ParseBack
  import opened RoundTrip

  function MaxOutBound(maxOut: nat): nat {
    if 0 < maxOut < 720_000 then maxOut + maxOut / 4 + 16 else 0
  }

  // ----- the bound is one

  /** The limit that a bound leaves of a stream's block size. */
  lemma {:induction false} LimitIs(level: nat, maxOut: nat)
    requires 1 <= level <= 9
    ensures var limit := StartStream(level, MaxOutBound(maxOut)).limit;
      if 0 < maxOut < 720_000 && maxOut + maxOut / 4 + 16 < 100_000 * level then limit == maxOut + maxOut / 4 + 16
      else limit == 100_000 * level
  {
  }

  /**
   * Whatever the input, wherever a bounded run stands, between blocks or inside one, its block
   * size limit is five quarters of the bound and 16 at most.
   */
  lemma {:induction false} BoundedIsBounded(b: bits, maxOut: nat)
    requires 0 < maxOut < 720_000
    ensures var p := Run(Magic(0), b, MaxOutBound(maxOut)).phase;
      StreamOf(p).Some? ==> StreamOf(p).value.limit <= maxOut + maxOut / 4 + 16
    ensures var p := Parse(Magic(0), b, MaxOutBound(maxOut)).0;
      StreamOf(p).Some? ==> StreamOf(p).value.limit <= maxOut + maxOut / 4 + 16
  {
    hide Run, Parse;
    NarrowRun(Magic(0), b, MaxOutBound(maxOut));
  }

  // ----- the 5/4 argument

  /** A block that unpacks to m bytes, and is not corrupt, has at most 5m/4 bytes itself. */
  lemma {:induction false} UnpackedShrinks(s: seq<byte>, n: nat, i: nat)
    requires i <= n < |s| && !Unrle(s, n, i).corrupt
    ensures 4 * (n - i) <= 5 * |Unrle(s, n, i).out|
    decreases n - i
  {
    if i < n {
      var r := RunAt(s, n, i);
      UnpackedShrinks(s, n, if r < 4 then i + r else i + 5);
    }
  }

  /** An accepted block within the bound is within the limit, with room to spare. */
  lemma {:induction false} BlockWithin(column: seq<byte>, origPtr: nat, randomised: bool, maxOut: nat)
    requires origPtr < |column|
    requires !BlockOutput(column, origPtr, randomised).corrupt
      && |BlockOutput(column, origPtr, randomised).out| <= maxOut
    ensures |column| <= maxOut + maxOut / 4
  {
    hide Unrle, Restored;
    UnpackedShrinks(Restored(column, origPtr, randomised), |column|, 0);
  }

  /** From 720000 on the header's block size is always the tighter limit. */
  lemma {:induction false} HeaderTighter(level: nat, maxOut: nat)
    requires 1 <= level <= 9 && maxOut >= 720_000
    ensures level * 100_000 <= maxOut + maxOut / 4 && StartStream(level, MaxOutBound(maxOut)) == StartStream(level, 0)
  {
  }

  // ----- a phase under another limit

  function StreamWith(st: Stream, l: nat): Stream { st.(limit := l) }

  function BlockWith(b: Block, l: nat): Block { b.(st := StreamWith(b.st, l)) }

  function TablesWith(t: Tables, l: nat): Tables { t.(b := BlockWith(t.b, l)) }

  function DataWith(d: Data, l: nat): Data { d.(t := TablesWith(d.t, l)) }

  /** The same phase with the block size limit l. */
  function With(p: Phase, l: nat): Phase {
    match p
    case Magic(k) => p
    case Marker(k, st) => Marker(k, StreamWith(st, l))
    case BlockCrc(k, crc, st) => BlockCrc(k, crc, StreamWith(st, l))
    case RandBit(crc, st) => RandBit(crc, StreamWith(st, l))
    case OrigPtr(k, b) => OrigPtr(k, BlockWith(b, l))
    case Mapping1(f, b) => Mapping1(f, BlockWith(b, l))
    case Mapping2(f, g, b) => Mapping2(f, g, BlockWith(b, l))
    case Selector1(u, b) => Selector1(u, BlockWith(b, l))
    case Selector2(u, n, b) => Selector2(u, n, BlockWith(b, l))
    case Selector3(j, s, n, u, g, b) => Selector3(j, s, n, u, g, BlockWith(b, l))
    case Coding1(lens, t) => Coding1(lens, TablesWith(t, l))
    case Coding2(c, cur, lens, t) => Coding2(c, cur, lens, TablesWith(t, l))
    case Coding3(c, cur, lens, t) => Coding3(c, cur, lens, TablesWith(t, l))
    case MtfVal(d) => MtfVal(DataWith(d, l))
    case MtfBit(zn, zvec, d) => MtfBit(zn, zvec, DataWith(d, l))
    case Output(column, b) => Phase.Output(column, BlockWith(b, l))
    case EndMarker(k, st) => EndMarker(k, StreamWith(st, l))
    case StreamCrc(k, crc, st) => StreamCrc(k, crc, StreamWith(st, l))
    case StreamEnd => p
    case Failed(e) => p
  }

  /** The column so far, in the phases that have one. */
  function Far(p: Phase): nat {
    match p
    case MtfVal(d) => |d.m.out|
    case MtfBit(_, _, d) => |d.m.out|
    case Output(column, _) => |column|
    case _ => 0
  }

  /** Where the block's origin is known to lie. */
  function Origin(p: Phase): nat {
    match p
    case Mapping1(_, b) => b.origPtr
    case Mapping2(_, _, b) => b.origPtr
    case Selector1(_, b) => b.origPtr
    case Selector2(_, _, b) => b.origPtr
    case Selector3(_, _, _, _, _, b) => b.origPtr
    case Coding1(_, t) => t.b.origPtr
    case Coding2(_, _, _, t) => t.b.origPtr
    case Coding3(_, _, _, t) => t.b.origPtr
    case MtfVal(d) => d.t.b.origPtr
    case MtfBit(_, _, d) => d.t.b.origPtr
    case Output(_, b) => b.origPtr
    case _ => 0
  }

  /** The block has already outgrown limit l. */
  predicate Outgrown(p: Phase, l: nat) { Far(p) > l || Origin(p) > 10 + l }

  /** The limit of the stream, where the phase has one. */
  predicate Under(p: Phase, top: nat) { With(p, top) == p && top <= MAX_BLOCK }

  lemma {:induction false} TablesOkWith(t: Tables, lens: seq<Lengths>, l: nat)
    requires OkTables(t) && OkLens(lens, t) && l <= MAX_BLOCK
    ensures OkTables(TablesWith(t, l)) && OkLens(lens, TablesWith(t, l))
  {
    hide InRange, UsedBytes;
  }

  lemma {:induction false} DataOkWith(d: Data, l: nat)
    requires OkData(d) && l <= MAX_BLOCK && |d.m.out| <= l
    ensures OkData(DataWith(d, l)) && (d.groupNo >= 0 ==> GroupLens(DataWith(d, l)) == GroupLens(d))
  {
    hide OkTables, OkLens, UsedBytes;
    TablesOkWith(d.t, d.lens, l);
  }

  lemma {:induction false} OkWith(p: Phase, top: nat, l: nat)
    requires Ok(p) && Under(p, top) && l <= top && !Outgrown(p, l)
    ensures Ok(With(p, l))
    ensures Terminal(With(p, l)) == Terminal(p) && With(p, l).Output? == p.Output? && Width(With(p, l)) == Width(p)
  {
    hide OkTables, OkLens, OkData, GroupLens, MinLen, Limit, UsedBytes;
    match p
    case MtfVal(d) => DataOkWith(d, l);
    case MtfBit(_, _, d) => DataOkWith(d, l);
    case Coding1(lens, t) => TablesOkWith(t, lens, l);
    case Coding2(_, _, lens, t) => TablesOkWith(t, lens, l);
    case Coding3(_, _, lens, t) => TablesOkWith(t, lens, l);
    case _ =>
  }

  /** How a step under the smaller limit compares: the same, or a refusal of a block that is outgrowing it. */
  ghost predicate Agrees(q': Phase, q: Phase, l: nat) {
    (q' == With(q, l) && !Outgrown(q, l)) || (q' == Failed(DataError) && (q.Failed? || Outgrown(q, l)))
  }

  lemma {:induction false} MarkersWith(k: nat, v: nat, st: Stream, top: nat, l: nat)
    requires k < 6 && OkStream(st) && st.limit == top && l <= top
    ensures Under(NextMarker(k, v, st), top) && Agrees(NextMarker(k, v, StreamWith(st, l)), NextMarker(k, v, st), l)
    ensures k >= 1 ==>
      Under(NextEndMarker(k, v, st), top) && Agrees(NextEndMarker(k, v, StreamWith(st, l)), NextEndMarker(k, v, st), l)
  {
    var m, e := BLOCK_MARK[k], END_MARK[k];
    if v == m {
      assert v != END_MARK[0];
    }
  }

  lemma {:induction false} HeaderStepWith(p: Phase, v: nat, top: nat, l: nat)
    requires Ok(p) && Under(p, top) && l <= top && !Outgrown(p, l) && InHeader(p) && !p.Magic?
    requires Ok(With(p, l))
    ensures Under(NextHeader(p, v, 0), top) && Agrees(NextHeader(With(p, l), v, 0), NextHeader(p, v, 0), l)
  {
    hide NextMarker, NextEndMarker;
    if p.Marker? || p.EndMarker? {
      MarkersWith(p.k, v, p.st, top, l);
    }
  }

  lemma {:induction false} TablesStepWith(p: Phase, v: nat, top: nat, l: nat)
    requires Ok(p) && Under(p, top) && l <= top && !Outgrown(p, l) && InTables(p)
    requires Ok(With(p, l))
    ensures Under(NextTables(p, v), top) && Agrees(NextTables(With(p, l), v), NextTables(p, v), l)
  {
    hide UndoSelectors, Identity, UsedBytes, Fill, Ok;
  }

  lemma {:induction false} AskWith(d: Data, top: nat, l: nat)
    requires OkData(d) && DataWith(d, top) == d && l <= top <= MAX_BLOCK && |d.m.out| <= l && d.t.b.origPtr <= 10 + l
    ensures OkData(DataWith(d, l))
    ensures Under(AskMtf(d), top) && Agrees(AskMtf(DataWith(d, l)), AskMtf(d), l)
  {
    hide UsedBytes, Ready;
  }

  lemma {:induction false} CodingStepWith(p: Phase, v: nat, top: nat, l: nat)
    requires Ok(p) && Under(p, top) && l <= top && !Outgrown(p, l) && (p.Coding1? || p.Coding2? || p.Coding3?)
    requires Ok(With(p, l))
    ensures Under(NextCoding(p, v), top) && Agrees(NextCoding(With(p, l), v), NextCoding(p, v), l)
  {
    hide UsedBytes, Ready, GroupLens, Limit, Ok;
  }

  lemma {:induction false} SymbolWith(sym: nat, d: Data, top: nat, l: nat)
    requires OkData(d) && DataWith(d, top) == d && l <= top <= MAX_BLOCK && |d.m.out| <= l && d.t.b.origPtr <= 10 + l
    requires sym < AlphaSize(d.t.used) && OkData(DataWith(d, l))
    ensures Under(TakeSymbol(sym, d), top) && Agrees(TakeSymbol(sym, DataWith(d, l)), TakeSymbol(sym, d), l)
  {
    hide UsedBytes, OkTables, OkLens;
    FlushWith(d.m, top, l);
    if sym < AlphaSize(d.t.used) - 1 {
      StepWith(d.m, sym, top, l);
      var r := Step(d.m, sym, top);
      if r.Some? {
        var e := d.(m := r.value);
        if |r.value.out| <= l {
          AskWith(e, top, l);
        } else {
          AskFar(e, l);
        }
      }
    }
  }

  lemma {:induction false} AskFar(d: Data, l: nat)
    requires OkData(d) && (|d.m.out| > l || d.t.b.origPtr > 10 + l)
    ensures AskMtf(d).Failed? || Outgrown(AskMtf(d), l)
    ensures Under(AskMtf(d), d.t.b.st.limit)
  {
  }

  /** Writing a run under the smaller limit fails only if the column then exceeds it. */
  lemma {:induction false} FlushWith(m: Mtf, top: nat, l: nat)
    requires Ready(m) && l <= top && |m.out| <= l
    ensures (Flush(m, l) == Flush(m, top) && (Flush(m, l).Some? ==> |Flush(m, l).value.out| <= l))
         || (Flush(m, l).None? && Flush(m, top).Some? && |Flush(m, top).value.out| > l)
  {
  }

  lemma {:induction false} StepWith(m: Mtf, sym: nat, top: nat, l: nat)
    requires Ready(m) && sym <= |m.list| && l <= top && |m.out| <= l
    ensures (Step(m, sym, l) == Step(m, sym, top) && (Step(m, sym, l).Some? ==> |Step(m, sym, l).value.out| <= l))
         || (Step(m, sym, l).None? && (Step(m, sym, top).None? || |Step(m, sym, top).value.out| > l))
  {
    hide MoveFront;
    FlushWith(m, top, l);
  }

  lemma {:induction false} DecideWith(zn: nat, zvec: nat, d: Data, top: nat, l: nat)
    requires OkData(d) && DataWith(d, top) == d && l <= top <= MAX_BLOCK && |d.m.out| <= l && d.t.b.origPtr <= 10 + l
    requires d.groupNo >= 0 && OkData(DataWith(d, l)) && MinLen(GroupLens(d)) <= zn
    ensures Under(Decide(zn, zvec, d), top) && Agrees(Decide(zn, zvec, DataWith(d, l)), Decide(zn, zvec, d), l)
  {
    hide UsedBytes, OkTables, OkLens, Ready, LookUp, TakeSymbol;
    var r := LookUp(GroupLens(d), zn, zvec);
    if r.Found? {
      FoundInAlphabet(GroupLens(d), zn, zvec);
      SymbolWith(r.sym, d, top, l);
    }
  }

  lemma {:induction false} NextWith(p: Phase, v: nat, top: nat, l: nat, bound: nat)
    requires Ok(p) && Under(p, top) && l <= top && !Outgrown(p, l) && !Terminal(p) && !p.Output? && !p.Magic?
    ensures Ok(With(p, l)) && !Terminal(With(p, l)) && !With(p, l).Output?
    ensures Under(Next(p, v, 0), top) && Agrees(Next(With(p, l), v, bound), Next(p, v, 0), l)
  {
    hide OkData, OkTables, OkLens, Decide, NextCoding, NextTables, UsedBytes, Agrees, AddLength, Far, GroupLens,
      InRange, Ok, OkCurrent;
    OkWith(p, top, l);
    if InHeader(p) {
      HeaderStepWith(p, v, top, l);
    } else if InTables(p) {
      TablesStepWith(p, v, top, l);
    } else if p.MtfVal? {
      OkDataWith(p, top, l);
      DecideWith(MinLen(GroupLens(p.d)), v, p.d, top, l);
    } else if p.MtfBit? {
      OkDataWith(p, top, l);
      DecideWith(p.zn, 2 * p.zvec + v, p.d, top, l);
    } else {
      CodingStepWith(p, v, top, l);
    }
  }

  lemma {:induction false} OkDataWith(p: Phase, top: nat, l: nat)
    requires Ok(p) && Under(p, top) && l <= top && !Outgrown(p, l) && (p.MtfVal? || p.MtfBit?)
    ensures OkData(p.d) && p.d.groupNo >= 0 && OkData(DataWith(p.d, l)) && GroupLens(DataWith(p.d, l)) == GroupLens(p.d)
    ensures DataWith(p.d, top) == p.d
    ensures p.MtfBit? ==> MinLen(GroupLens(p.d)) <= p.zn
  {
  }

  // ----- a block that outgrows the limit

  lemma {:induction false} OutgrownStays(p: Phase, v: nat, l: nat)
    requires Ok(p) && Outgrown(p, l) && !Terminal(p) && !p.Output?
    ensures var q := Next(p, v, 0); q.Failed? || Outgrown(q, l)
  {
    hide OkTables, OkLens, UsedBytes, UndoSelectors, Identity, Ready, TakeSymbol, LookUp, AskMtf, Fill, InRange,
      MoveFront, NextCoding, NextHeader, OkStream;
    if p.MtfVal? || p.MtfBit? {
      var zn, zvec := if p.MtfVal? then MinLen(GroupLens(p.d)) else p.zn, if p.MtfVal? then v else 2 * p.zvec + v;
      var r := LookUp(GroupLens(p.d), zn, zvec);
      if r.Found? {
        FoundInAlphabet(GroupLens(p.d), zn, zvec);
        OutgrownSymbol(r.sym, p.d, l);
      }
    } else if p.Coding1? || p.Coding2? || p.Coding3? {
      OutgrownCoding(p, v, l);
    }
  }

  lemma {:induction false} OutgrownCoding(p: Phase, v: nat, l: nat)
    requires Ok(p) && Outgrown(p, l) && (p.Coding1? || p.Coding2? || p.Coding3?)
    ensures var q := NextCoding(p, v); q.Failed? || Outgrown(q, l)
  {
    hide OkTables, OkLens, UsedBytes, Ready;
  }

  lemma {:induction false} OutgrownSymbol(sym: nat, d: Data, l: nat)
    requires OkData(d) && sym < AlphaSize(d.t.used) && (|d.m.out| > l || d.t.b.origPtr > 10 + l)
    ensures var q := TakeSymbol(sym, d); q.Failed? || Outgrown(q, l)
  {
    hide OkTables, OkLens, UsedBytes, MoveFront;
    if sym < AlphaSize(d.t.used) - 1 {
      var r := Step(d.m, sym, d.t.b.st.limit);
      if r.Some? {
        ColumnGrows(d.m, sym, d.t.b.st.limit);
        AskFar(d.(m := r.value), l);
      }
    }
  }

  lemma {:induction false} ColumnGrows(m: Mtf, sym: nat, limit: nat)
    requires Ready(m) && sym <= |m.list| && Step(m, sym, limit).Some?
    ensures |Step(m, sym, limit).value.out| >= |m.out|
  {
    hide MoveFront;
  }

  /** If the stream is accepted all the same, the block gives more than the bound allows. */
  lemma {:induction false} OutgrownYieldsMore(p: Phase, b: bits, l: nat, maxOut: nat)
    requires Ok(p) && Outgrown(p, l) && l >= maxOut + maxOut / 4 && Run(p, b, 0).phase == StreamEnd
    ensures |Run(p, b, 0).out| > maxOut
    decreases |b|, if p.Output? then 1 else 0
  {
    hide Next, Ok, BlockOutput, Outgrown, Checksum, Combine;
    EndIsSmall(l);
    if p.Output? {
      OutgrownOutput(p, l);
      TerminalRun(Deliver(p), b, 0);
      var u := BlockOutput(p.column, p.b.origPtr, p.b.randomised);
      if |u.out| <= maxOut && !u.corrupt {
        BlockWithin(p.column, p.b.origPtr, p.b.randomised, maxOut);
      }
    } else {
      TerminalRun(p, b, 0);
      if !Terminal(p) && |b| >= Width(p) {
        var w := Width(p);
        var q := Next(p, Val(b[..w]), 0);
        OutgrownStays(p, Val(b[..w]), l);
        TerminalRun(q, b[w..], 0);
        OutgrownYieldsMore(q, b[w..], l, maxOut);
      }
    }
  }

  lemma {:induction false} EndIsSmall(l: nat)
    ensures !Outgrown(StreamEnd, l)
  {
  }

  lemma {:induction false} OutgrownOutput(p: Phase, l: nat)
    requires p.Output? && Ok(p) && Outgrown(p, l)
    ensures |p.column| > l && p.b.origPtr < |p.column|
  {
  }

  // ----- a block that is too long

  /**
   * If without a bound the bits lead to the end of a block longer than l, then under the limit l
   * they lead to a data error before it.
   */
  lemma {:induction false} ParseWith(p: Phase, b: bits, top: nat, l: nat, bound: nat)
    requires Ok(p) && Under(p, top) && l <= top && !Outgrown(p, l) && !p.Magic?
    requires Parse(p, b, 0).0.Output? && |Parse(p, b, 0).0.column| > l
    ensures Ok(With(p, l)) && Parse(With(p, l), b, bound).0 == Failed(DataError)
    decreases |b|
  {
    hide Next, Ok, Outgrown, Under, Agrees;
    OkWith(p, top, l);
    if p.Output? {
      OutputFar(p, l);
    } else if !Terminal(p) && |b| >= Width(p) {
      var w := Width(p);
      var v := Val(b[..w]);
      NextWith(p, v, top, l, bound);
      NotMagic(p, v);
      var q := Next(p, v, 0);
      if Next(With(p, l), v, bound) != Failed(DataError) {
        AgreedStep(Next(With(p, l), v, bound), q, l);
        ParseWith(q, b[w..], top, l, bound);
      }
    }
  }

  lemma {:induction false} OutputFar(p: Phase, l: nat)
    requires p.Output? && !Outgrown(p, l)
    ensures |p.column| <= l
  {
  }

  /**
   * A block longer than the limit is refused, whatever follows it, and nothing of it is given
   * out: only what the blocks before it stand for.
   */
  lemma {:induction false} LongBlockRefused(level: nat, cs: seq<Coded>, c: Coded, after: bits, bound: nat)
    requires 1 <= level <= 9 && ValidBlocks(cs, StartStream(level, bound).limit)
    requires ValidCoded(c) && |c.plan.block| > StartStream(level, bound).limit
    ensures var limit := StartStream(level, bound).limit;
      var r := Run(Magic(0), HeaderBits(level) + BlocksBits(cs, limit) + BlockBits(c.plan, Checksum(Bytes(c))) + after,
        bound);
      r.phase == Failed(DataError) && r.out == AllBytes(cs)
  {
    hide HeaderBits, BlocksBits, BlockBits, CombinedCrc, AllBytes, Checksum, Bytes, Run;
    var l, crc := StartStream(level, bound).limit, Checksum(Bytes(c));
    var b, t := HeaderBits(level) + BlocksBits(cs, l), BlockBits(c.plan, crc);
    BlocksBack(level, cs, bound);
    BlockTooLong(c, crc, Stream(l, CombinedCrc(cs)), after, bound);
    RunConcat(Magic(0), b, t + after, bound);
    assert b + (t + after) == b + t + after && [] + (t + after) == t + after;
    assert AllBytes(cs) + [] == AllBytes(cs);
  }

  /** So under a bound on the output no block longer than five quarters of it and 16 gets through. */
  lemma {:induction false} BoundedRefuses(level: nat, cs: seq<Coded>, c: Coded, after: bits, maxOut: nat)
    requires 1 <= level <= 9 && 0 < maxOut < 720_000
    requires ValidBlocks(cs, 100_000 * level) && ValidBlocks(cs, maxOut + maxOut / 4 + 16)
    requires ValidCoded(c) && |c.plan.block| > maxOut + maxOut / 4 + 16
    ensures var r := Run(Magic(0), HeaderBits(level) + BlocksBits(cs, 100_000 * level)
        + BlockBits(c.plan, Checksum(Bytes(c))) + after, MaxOutBound(maxOut));
      r.phase == Failed(DataError) && r.out == AllBytes(cs)
  {
    hide HeaderBits, BlockBits, AllBytes, Checksum, Bytes, Run, MaxOutBound, ValidCoded;
    LimitIs(level, maxOut);
    var l := StartStream(level, MaxOutBound(maxOut)).limit;
    SameBits(cs, l, 100_000 * level);
    LongBlockRefused(level, cs, c, after, MaxOutBound(maxOut));
  }

  lemma {:induction false} SameBits(cs: seq<Coded>, l: nat, m: nat)
    requires ValidBlocks(cs, l) && ValidBlocks(cs, m)
    ensures BlocksBits(cs, l) == BlocksBits(cs, m)
  {
    hide BlockBits, Checksum, Bytes, ValidCoded;
    if cs != [] {
      SameBits(cs[..|cs| - 1], l, m);
    }
  }

  lemma {:induction false} BlockTooLong(c: Coded, crc: word, st: Stream, after: bits, bound: nat)
    requires ValidCoded(c) && OkStream(st) && |c.plan.block| > st.limit
    ensures ValidPlan(c.plan)
    ensures var r := Run(Marker(0, st), BlockBits(c.plan, crc) + after, bound);
      r.phase == Failed(DataError) && r.out == []
  {
    hide BlockBits, Run, Parse, Next, Ok;
    var top := MAX_BLOCK;
    var p, t, column := Marker(0, st.(limit := top)), BlockBits(c.plan, crc), Column(c.plan);
    StartsUnder(st, top);
    BlockBack(c.plan, crc, st.(limit := top), 0);
    var q := Phase.Output(column, PlanBlock(c.plan, crc, st.(limit := top)));
    ParseStops(q, 0);
    ParseWith(p, t, top, st.limit, bound);
    var r := Parse(Marker(0, st), t, bound);
    ParseConcat(Marker(0, st), t, after, bound);
    ParseStops(Failed(DataError), bound);
    ParseFailed(r.1 + after, bound);
    ParseRun(Marker(0, st), t + after, bound);
    TerminalRun(Failed(DataError), r.1 + after, bound);
  }

  lemma {:induction false} StartsUnder(st: Stream, top: nat)
    requires OkStream(st) && st.limit <= top <= MAX_BLOCK
    ensures var p := Marker(0, st.(limit := top));
      Ok(p) && Under(p, top) && !Outgrown(p, st.limit) && With(p, st.limit) == Marker(0, st)
  {
  }

  lemma {:induction false} ParseStops(q: Phase, bound: nat)
    requires Ok(q) && (q.Output? || Terminal(q))
    ensures Parse(q, [], bound) == (q, [])
  {
  }

  lemma {:induction false} ParseFailed(b: bits, bound: nat)
    ensures Parse(Failed(DataError), b, bound) == (Failed(DataError), b)
  {
  }

  // ----- whole runs

  /** Sound: the bounded run is the unbounded one, or refuses with a part of its output given. */
  ghost predicate SameOrRefused(r': Result, r: Result, l: nat) {
    || (r'.phase == With(r.phase, l) && r'.rest == r.rest && r'.out == r.out)
    || (r'.phase == Failed(DataError) && r'.out <= r.out)
  }

  lemma {:induction false} RunWith(p: Phase, b: bits, top: nat, l: nat, bound: nat)
    requires Ok(p) && Under(p, top) && l <= top && !Outgrown(p, l) && !p.Magic?
    ensures Ok(With(p, l)) && SameOrRefused(Run(With(p, l), b, bound), Run(p, b, 0), l)
    decreases |b|, if p.Output? then 1 else 0
  {
    hide Next, Ok, BlockOutput, Outgrown, Checksum, Combine, Under, Agrees;
    OkWith(p, top, l);
    if p.Output? {
      DeliverWith(p, top, l);
      RunWith(Deliver(p), b, top, l, bound);
      var r', r := Run(With(Deliver(p), l), b, bound), Run(Deliver(p), b, 0);
      assert r'.out <= r.out ==> Accepted(p) + r'.out <= Accepted(p) + r.out;
    } else if !Terminal(p) && |b| >= Width(p) {
      var w := Width(p);
      var v := Val(b[..w]);
      NextWith(p, v, top, l, bound);
      NotMagic(p, v);
      var q := Next(p, v, 0);
      if Next(With(p, l), v, bound) == Failed(DataError) {
        TerminalRun(Failed(DataError), b[w..], bound);
      } else {
        AgreedStep(Next(With(p, l), v, bound), q, l);
        RunWith(q, b[w..], top, l, bound);
      }
    } else {
      TerminalRun(p, b, 0);
      TerminalRun(With(p, l), b, bound);
    }
  }

  lemma {:induction false} AgreedStep(q': Phase, q: Phase, l: nat)
    requires Agrees(q', q, l) && q' != Failed(DataError)
    ensures q' == With(q, l) && !Outgrown(q, l)
  {
  }

  lemma {:induction false} NotMagic(p: Phase, v: nat)
    requires Ok(p) && !Terminal(p) && !p.Output? && !p.Magic?
    ensures !Next(p, v, 0).Magic?
  {
    hide OkData, OkTables, OkLens, UsedBytes, UndoSelectors, Identity, Fill, LookUp;
  }

  lemma {:induction false} DeliverWith(p: Phase, top: nat, l: nat)
    requires p.Output? && Ok(p) && Ok(With(p, l)) && Under(p, top) && l <= top
    ensures Deliver(With(p, l)) == With(Deliver(p), l) && Accepted(With(p, l)) == Accepted(p)
    ensures Ok(Deliver(p)) && Under(Deliver(p), top) && !Outgrown(Deliver(p), l) && !Deliver(p).Magic?
      && !Deliver(p).Output?
  {
    hide BlockOutput, Checksum, Combine;
  }

  /** Complete: a stream that ends well within the bound ends the same way under it. */
  lemma {:induction false} RunWithin(p: Phase, b: bits, top: nat, l: nat, bound: nat, maxOut: nat)
    requires Ok(p) && Under(p, top) && l <= top && !Outgrown(p, l) && !p.Magic? && l >= maxOut + maxOut / 4
    requires Run(p, b, 0).phase == StreamEnd && |Run(p, b, 0).out| <= maxOut
    ensures Ok(With(p, l)) && Run(With(p, l), b, bound) == Run(p, b, 0)
    decreases |b|, if p.Output? then 1 else 0
  {
    hide Next, Ok, BlockOutput, Outgrown, Checksum, Combine, Under, Agrees;
    OkWith(p, top, l);
    TerminalRun(p, b, 0);
    TerminalRun(With(p, l), b, bound);
    if p.Output? {
      DeliverWith(p, top, l);
      RunWithin(Deliver(p), b, top, l, bound, maxOut);
    } else if !Terminal(p) && |b| >= Width(p) {
      var w := Width(p);
      var v := Val(b[..w]);
      NextWith(p, v, top, l, bound);
      NotMagic(p, v);
      var q := Next(p, v, 0);
      TerminalRun(q, b[w..], 0);
      if Outgrown(q, l) {
        OutgrownYieldsMore(q, b[w..], l, maxOut);
      }
      AgreedOn(Next(With(p, l), v, bound), q, l);
      RunWithin(q, b[w..], top, l, bound, maxOut);
    }
  }

  lemma {:induction false} AgreedOn(q': Phase, q: Phase, l: nat)
    requires Agrees(q', q, l) && !q.Failed? && !Outgrown(q, l)
    ensures q' == With(q, l)
  {
  }

  /** The limit a bound makes of the header's block size. */
  function Narrowed(level: nat, bound: nat): nat { StartStream(level, bound).limit }

  lemma {:induction false} FirstPhase(level: nat, bound: nat)
    requires 1 <= level <= 9
    ensures var p := Marker(0, StartStream(level, 0));
            && Ok(p) && Under(p, 100_000 * level) && Narrowed(level, bound) <= 100_000 * level
            && With(p, Narrowed(level, bound)) == Marker(0, StartStream(level, bound))
            && !Outgrown(p, Narrowed(level, bound))
  {
  }

  lemma {:induction false} LevelMarker(v: nat, bound: nat)
    ensures var q', q := NextMagic(3, v, bound), NextMagic(3, v, 0);
            && (q.Failed? ==> q' == q && Terminal(q))
            && (!q.Failed? ==>
              0x31 <= v <= 0x39 && q == Marker(0, StartStream(v - 0x30, 0))
              && q' == Marker(0, StartStream(v - 0x30, bound)))
  {
  }

  /** Before the block size is read, a bound makes no difference. */
  lemma {:induction false} MagicStep(k: nat, b: bits, bound: nat)
    requires k < 3 && |b| >= 8
    ensures var v := Val(b[..8]);
            && NextMagic(k, v, bound) == NextMagic(k, v, 0)
              && (NextMagic(k, v, 0).Failed? || NextMagic(k, v, 0) == Magic(k + 1))
            && Run(Magic(k), b, bound) == Run(NextMagic(k, v, bound), b[8..], bound)
  {
  }

  /** The bounded run compared with the unbounded one, whatever the input. */
  ghost predicate Comparable(r': Result, r: Result) {
    || (r'.phase == Failed(DataError) && r'.out <= r.out)
    || (r'.out == r.out && r'.rest == r.rest && (Terminal(r.phase) || Terminal(r'.phase) ==> r'.phase == r.phase))
  }

  lemma {:induction false} SoundFrom(k: nat, b: bits, bound: nat)
    requires k < 4
    ensures Comparable(Run(Magic(k), b, bound), Run(Magic(k), b, 0))
    decreases 4 - k
  {
    hide Run, NextMagic;
    TerminalRun(Magic(k), b, bound);
    TerminalRun(Magic(k), b, 0);
    if |b| >= 8 {
      if k < 3 {
        MagicStep(k, b, bound);
        MagicStep(k, b, 0);
        var q := NextMagic(k, Val(b[..8]), 0);
        TerminalRun(q, b[8..], bound);
        TerminalRun(q, b[8..], 0);
        if !q.Failed? {
          SoundFrom(k + 1, b[8..], bound);
        }
      } else {
        SoundFromSize(b, bound);
      }
    }
  }

  lemma {:induction false} SoundFromSize(b: bits, bound: nat)
    requires |b| >= 8
    ensures Comparable(Run(Magic(3), b, bound), Run(Magic(3), b, 0))
  {
    hide Run, NextMagic, With, Under, Outgrown, StartStream;
    var v := Val(b[..8]);
    SizeRead(b, bound);
    SizeRead(b, 0);
    LevelMarker(v, bound);
    var q := NextMagic(3, v, 0);
    TerminalRun(q, b[8..], bound);
    TerminalRun(q, b[8..], 0);
    if !q.Failed? {
      var l := Narrowed(v - 0x30, bound);
      FirstPhase(v - 0x30, bound);
      RunWith(q, b[8..], 100_000 * (v - 0x30), l, bound);
      TerminalWith(Run(q, b[8..], 0).phase, l);
    }
  }

  lemma {:induction false} TerminalWith(p: Phase, l: nat)
    ensures Terminal(With(p, l)) == Terminal(p) && (Terminal(p) ==> With(p, l) == p)
  {
  }

  lemma {:induction false} SizeRead(b: bits, bound: nat)
    requires |b| >= 8
    ensures Run(Magic(3), b, bound) == Run(NextMagic(3, Val(b[..8]), bound), b[8..], bound)
  {
  }

  /**
   * Sound: on every input the bounded decoder either refuses, having given out only a
   * first part of the unbounded decoder's output, or gives the same output and verdict.
   */
  lemma {:induction false} BoundedIsSound(b: bits, maxOut: nat)
    ensures Comparable(Run(Magic(0), b, MaxOutBound(maxOut)), Run(Magic(0), b, 0))
  {
    SoundFrom(0, b, MaxOutBound(maxOut));
  }

  lemma {:induction false} CompleteFrom(k: nat, b: bits, maxOut: nat)
    requires k < 4 && Run(Magic(k), b, 0).phase == StreamEnd && |Run(Magic(k), b, 0).out| <= maxOut
    ensures Run(Magic(k), b, MaxOutBound(maxOut)) == Run(Magic(k), b, 0)
    decreases 4 - k
  {
    hide Run, NextMagic, MaxOutBound;
    var bound := MaxOutBound(maxOut);
    TerminalRun(Magic(k), b, 0);
    if |b| >= 8 {
      if k < 3 {
        MagicStep(k, b, bound);
        MagicStep(k, b, 0);
        TerminalRun(NextMagic(k, Val(b[..8]), 0), b[8..], 0);
        CompleteFrom(k + 1, b[8..], maxOut);
      } else {
        CompleteFromSize(b, maxOut);
      }
    }
  }

  lemma {:induction false} CompleteFromSize(b: bits, maxOut: nat)
    requires |b| >= 8 && Run(Magic(3), b, 0).phase == StreamEnd && |Run(Magic(3), b, 0).out| <= maxOut
    ensures Run(Magic(3), b, MaxOutBound(maxOut)) == Run(Magic(3), b, 0)
  {
    hide Run, NextMagic, MaxOutBound, StartStream;
    var v, bound := Val(b[..8]), MaxOutBound(maxOut);
    SizeRead(b, bound);
    SizeRead(b, 0);
    LevelMarker(v, bound);
    TerminalRun(NextMagic(3, v, 0), b[8..], 0);
    FirstPhase(v - 0x30, bound);
    CompleteFromMarker(v - 0x30, b[8..], maxOut);
  }

  lemma {:induction false} CompleteFromMarker(level: nat, b: bits, maxOut: nat)
    requires 1 <= level <= 9 && OkStream(StartStream(level, 0)) && OkStream(StartStream(level, MaxOutBound(maxOut)))
    requires var r := Run(Marker(0, StartStream(level, 0)), b, 0); r.phase == StreamEnd && |r.out| <= maxOut
    ensures Run(Marker(0, StartStream(level, MaxOutBound(maxOut))), b, MaxOutBound(maxOut))
      == Run(Marker(0, StartStream(level, 0)), b, 0)
  {
    hide Run, With, Under, Outgrown;
    var bound, p := MaxOutBound(maxOut), Marker(0, StartStream(level, 0));
    FirstPhase(level, bound);
    var l := Narrowed(level, bound);
    if l >= maxOut + maxOut / 4 {
      RunWithin(p, b, 100_000 * level, l, bound, maxOut);
    } else {
      assert StartStream(level, bound) == StartStream(level, 0);
      SameRun(p, b, bound);
    }
  }

  /** Past the header the bound no longer appears. */
  lemma {:induction false} SameRun(p: Phase, b: bits, bound: nat)
    requires Ok(p) && !p.Magic?
    ensures Run(p, b, bound) == Run(p, b, 0)
    decreases |b|, if p.Output? then 1 else 0
  {
    hide Ok, BlockOutput, Checksum, Combine, NextHeader, NextTables, NextCoding, Decide;
    if p.Output? {
      SameRun(Deliver(p), b, bound);
    } else if !Terminal(p) && |b| >= Width(p) {
      var w := Width(p);
      var v := Val(b[..w]);
      NotMagic(p, v);
      SameNext(p, v, bound);
      SameRun(Next(p, v, 0), b[w..], bound);
    }
  }

  lemma {:induction false} SameNext(p: Phase, v: nat, bound: nat)
    requires Ok(p) && !p.Magic? && !Terminal(p) && !p.Output?
    ensures Next(p, v, bound) == Next(p, v, 0)
  {
    hide Decide, NextTables, NextCoding, NextMarker, NextEndMarker;
  }

  /**
   * Complete: a stream whose whole output is at most maxOut bytes is decoded to its end,
   * exactly as without a bound.
   */
  lemma {:induction false} BoundedIsComplete(b: bits, maxOut: nat)
    requires Run(Magic(0), b, 0).phase == StreamEnd && |Run(Magic(0), b, 0).out| <= maxOut
    ensures Run(Magic(0), b, MaxOutBound(maxOut)) == Run(Magic(0), b, 0)
  {
    CompleteFrom(0, b, maxOut);
  }
}
