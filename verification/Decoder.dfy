/**
 * BZ2_bzDecompress: the machine of module Decompress run on arrays, over input and output
 * that come in pieces of any size.
 */
module Decoder {
  import opened Prelude
  import opened Bits
  import opened BitReader
  import opened Crc
  import opened HuffmanCodes
  import opened MoveToFront
  import opened MtfEncoder
  import opened ColumnReader
  import opened Decompress
  import opened HeaderReader
  import opened OutputStage
  import opened RunLength
  import opened BlockFormat
  import opened RoundTrip

  // ----- decode tables

  datatype DecodeTable = DecodeTable(limit: seq<int>, base: seq<int>, perm: seq<nat>, minLen: nat)

  ghost predicate TableOk(d: DecodeTable, lens: Lengths) {
    TablesFor(lens, d.limit, d.base, d.perm) && d.minLen == MinLen(lens)
  }

  ghost predicate AllTablesOk(dec: seq<DecodeTable>, lens: seq<Lengths>) {
    |dec| == |lens| && forall i {:trigger dec[i]} :: 0 <= i < |dec| ==> TableOk(dec[i], lens[i])
  }

  method MinMax(lens: Lengths) returns (minLen: nat, maxLen: nat)
    ensures minLen == MinLen(lens) && maxLen == MaxLen(lens)
  {
    minLen, maxLen := 32, 0;
    for i := 0 to |lens|
      invariant minLen == MinLen(lens[..i]) && maxLen == MaxLen(lens[..i])
    {
      assert lens[..i + 1][..i] == lens[..i];
      if lens[i] > maxLen {
        maxLen := lens[i];
      }
      if lens[i] < minLen {
        minLen := lens[i];
      }
    }
    assert lens[..|lens|] == lens;
  }

  method BuildTables(lens: seq<Lengths>) returns (dec: seq<DecodeTable>)
    requires forall i {:trigger lens[i]} :: 0 <= i < |lens| ==> InRange(lens[i])
    ensures AllTablesOk(dec, lens)
  {
    hide InRange, TableOk;
    dec := [];
    for t := 0 to |lens|
      invariant |dec| == t && forall i {:trigger dec[i]} :: 0 <= i < t ==> TableOk(dec[i], lens[i])
    {
      assert InRange(lens[t]);
      var d := BuildTable(lens[t]);
      dec := dec + [d];
    }
  }

  method BuildTable(lens: Lengths) returns (d: DecodeTable)
    requires InRange(lens)
    ensures TableOk(d, lens)
  {
    hide TablesFor, InRange;
    var minLen, maxLen := MinMax(lens);
    var limit, base, perm := new int[MAX_ALPHA_SIZE], new int[MAX_ALPHA_SIZE], new nat[MAX_ALPHA_SIZE];
    CreateDecodeTables(limit, base, perm, lens, minLen, maxLen);
    d := DecodeTable(limit[..], base[..], perm[..], minLen);
  }

  // ----- steps within the header and tables

  /** Phases whose whole state is in the control fields. */
  predicate IsControl(p: Phase) { !p.MtfVal? && !p.MtfBit? && !p.Output? }

  /** No symbol has been taken yet, and the first group begins. */
  predicate AtFirst(d: Data) { d.m == Fresh(UsedBytes(d.t.used), []) && d.groupNo == 0 && d.groupPos == GROUP_SIZE - 1 }

  /** A step within the header and tables stays in the same stream, and only the last length leads to the symbols. */
  lemma {:induction false} ControlStep(p: Phase, v: nat, bound: nat)
    requires Ok(p) && !Terminal(p) && IsControl(p)
    ensures var q := Next(p, v, bound);
            && (IsControl(q) || (q.MtfVal? && AtFirst(q.d)))
            && (p.Magic? ==> IsControl(q) && (StreamOf(q).Some? ==> q.Marker? && OkStream(q.st)))
            && (!p.Magic? && StreamOf(q).Some? ==> StreamOf(p).Some? && StreamOf(q) == StreamOf(p))
            && (!p.Magic? ==> StreamOf(p).Some?)
  {
    hide NextHeader, NextTables, NextCoding, UsedBytes, AtFirst;
    if InHeader(p) {
      HeaderStep(p, v, bound);
    } else if InTables(p) {
      TablesStep(p, v);
    } else {
      CodingStep(p, v);
    }
  }

  lemma {:induction false} HeaderStep(p: Phase, v: nat, bound: nat)
    requires Ok(p) && InHeader(p)
    ensures var q := NextHeader(p, v, bound);
            && IsControl(q) && (p.Magic? && StreamOf(q).Some? ==> q.Marker? && OkStream(q.st))
            && (!p.Magic? && StreamOf(q).Some? ==> StreamOf(p).Some? && StreamOf(q) == StreamOf(p))
            && (!p.Magic? ==> StreamOf(p).Some?)
  {
    hide StreamOf, NextMagic, NextMarker, NextOrigPtr, NextEndMarker, NextStreamCrc;
    match p {
      case Magic(k) => MagicLeads(k, v, bound);
      case Marker(k, st) => MarkerLeads(k, v, st);
      case BlockCrc(k, crc, st) => SameStream(p, NextHeader(p, v, bound), st);
      case RandBit(crc, st) => SameStream(p, NextHeader(p, v, bound), st);
      case OrigPtr(k, b) => OrigLeads(k, v, b);
      case EndMarker(k, st) => EndLeads(k, v, st);
      case StreamCrc(k, crc, st) => CrcLeads(k, crc, v, st);
    }
  }

  lemma {:induction false} SameStream(p: Phase, q: Phase, st: Stream)
    requires p.BlockCrc? || p.RandBit?
    requires p.st == st && ((q.BlockCrc? && q.st == st) || (q.RandBit? && q.st == st) || (q.OrigPtr? && q.b.st == st))
    ensures StreamOf(p) == StreamOf(q) == Some(st)
  {
  }

  lemma {:induction false} MagicLeads(k: nat, v: nat, bound: nat)
    requires k < 4
    ensures var q := NextMagic(k, v, bound); IsControl(q) && (StreamOf(q).Some? ==> q.Marker? && OkStream(q.st))
  {
  }

  lemma {:induction false} MarkerLeads(k: nat, v: nat, st: Stream)
    requires k < 6 && OkStream(st)
    ensures var q := NextMarker(k, v, st); IsControl(q) && (StreamOf(q).Some? ==> StreamOf(q) == Some(st))
    ensures StreamOf(Marker(k, st)) == Some(st)
  {
  }

  lemma {:induction false} OrigLeads(k: nat, v: nat, b: Block)
    requires k < 3 && OkStream(b.st)
    ensures var q := NextOrigPtr(k, v, b); IsControl(q) && (StreamOf(q).Some? ==> StreamOf(q) == Some(b.st))
    ensures StreamOf(OrigPtr(k, b)) == Some(b.st)
  {
  }

  lemma {:induction false} EndLeads(k: nat, v: nat, st: Stream)
    requires 1 <= k < 6 && OkStream(st)
    ensures var q := NextEndMarker(k, v, st); IsControl(q) && (StreamOf(q).Some? ==> StreamOf(q) == Some(st))
    ensures StreamOf(EndMarker(k, st)) == Some(st)
  {
  }

  lemma {:induction false} CrcLeads(k: nat, crc: nat, v: nat, st: Stream)
    requires k < 4 && OkStream(st)
    ensures var q := NextStreamCrc(k, crc, v, st); IsControl(q) && (StreamOf(q).Some? ==> StreamOf(q) == Some(st))
    ensures StreamOf(StreamCrc(k, crc, st)) == Some(st)
  {
  }

  lemma {:induction false} TablesStep(p: Phase, v: nat)
    requires Ok(p) && InTables(p)
    ensures var q := NextTables(p, v);
            IsControl(q) && StreamOf(p).Some? && (StreamOf(q).Some? ==> StreamOf(q) == StreamOf(p))
  {
    hide UndoSelectors, Identity, UsedBytes, Fill;
  }

  lemma {:induction false} CodingStep(p: Phase, v: nat)
    requires Ok(p) && (p.Coding1? || p.Coding2? || p.Coding3?)
    ensures var q := NextCoding(p, v);
            && (IsControl(q) || (q.MtfVal? && AtFirst(q.d)))
            && (StreamOf(q).Some? ==> StreamOf(q) == StreamOf(p))
  {
    hide UsedBytes, OkTables, OkLens, Ready;
  }

  // ----- the decoder

  datatype State = Control | First | More(zn: nat, zvec: nat) | Writing

  datatype Code = BzOk | BzStreamEnd | BzSequenceError | BzError(e: Error)

  class Decoder {
    const small: bool
    const bound: nat
    const bs: Reader
    var column: Column
    var state: State
    var save: Save
    ghost var phase: Phase
    var t: Tables
    var lens: seq<Lengths>
    var dec: seq<DecodeTable>
    var groupNo: int
    var groupPos: nat
    ghost var consumed: seq<byte>
    ghost var settled: seq<byte>

    ghost function D(): Data
      reads this`column, this`t, this`lens, this`groupNo, this`groupPos, column
    {
      Data(t, lens, column.m, groupNo, groupPos)
    }

    /** The phase of the machine that the fields and arrays stand for. */
    ghost function Abs(): Phase
      reads this`column, this`state, this`phase, this`t, this`lens, this`groupNo, this`groupPos, column, column.output
    {
      match state
      case Control => phase
      case First => MtfVal(D())
      case More(zn, zvec) => MtfBit(zn, zvec, D())
      case Writing => Phase.Output(column.output.l, t.b)
    }

    ghost function Repr(): set<object>
      reads this`column
    {
      {this, bs} + column.Repr
    }

    /** A column for this stream, ready for the next block. */
    ghost predicate Waiting(p: Phase)
      reads this`column, column.output.tt, column.output.ll16, column.output.ll4
    {
      && column.Apart()
      && (StreamOf(p).Some? ==>
            column.output.small == small && column.output.limit == StreamOf(p).value.limit && column.output.Stored([]))
    }

    /** The header is kept while the block is read and written. */
    predicate Keeps()
      reads this`save, this`t
    {
      Sized(save) && BlockIn(save) == t.b
    }

    ghost predicate InSymbols()
      reads this`column, this`save, this`t, this`lens, this`dec, this`groupNo, this`groupPos, column, column.unzftab,
            column.mtf, column.mtf.mtfa, column.mtf.mtfbase, column.output.tt, column.output.ll16, column.output.ll4
    {
      && Keeps() && column.Valid() && OkData(D()) && groupNo >= 0 && AllTablesOk(dec, lens)
      && column.output.small == small && column.output.limit == t.b.st.limit
      && column.seqToUnseq == UsedBytes(t.used)
    }

    ghost predicate InOutput()
      reads this`column, this`save, this`t, column, column.output, column.output.tt, column.output.ll16,
        column.output.ll4, column.output.cftab
    {
      var o := column.output;
      && Keeps() && column.Apart() && o.Valid() && o.small == small && o.limit == t.b.st.limit
      && t.b.origPtr < |o.l| == o.nblock && o.s == Restored(o.l, t.b.origPtr, t.b.randomised)
    }

    ghost predicate Valid()
      reads this`column, this`save, this`state, this`phase, this`t, this`lens, this`dec, this`groupNo, this`groupPos,
            bs, column, column.unzftab, column.mtf, column.mtf.mtfa, column.mtf.mtfbase, column.output,
            column.output.tt, column.output.ll16, column.output.ll4, column.output.cftab
    {
      && bs.Valid() && bs !in column.Repr && this !in column.Repr && Ok(Abs())
      && (match state
          case Control => IsControl(phase) && Waiting(phase) && Means(save, phase)
          case First => InSymbols()
          case More(zn, zvec) => InSymbols()
          case Writing => InOutput())
    }

    /**
     * All that was fed in has led to this phase, the live bits still to come, and a bound on the
     * block size is kept to.
     */
    ghost predicate Synced()
      reads this, bs, column, column.output
    {
      Ok(Abs()) && Narrow(Abs(), bound) && Decompress.Run(Magic(0), OfBytes(consumed), bound)
        == Behind(settled, Decompress.Run(Abs(), bs.live, bound))
    }

    /** The arrays of a column are just as large as the block size limit asks for. */
    lemma {:induction false} ColumnSize()
      requires Valid() && StreamOf(Abs()).Some?
      ensures var o, limit := column.output, StreamOf(Abs()).value.limit;
        if small then o.tt.Length == 0 && o.ll16.Length == limit && o.ll4.Length == (1 + limit) / 2
        else o.tt.Length == limit && o.ll16.Length == o.ll4.Length == 0
    {
      hide OkData, Restored, Sized, OutputStage.Output.Stored, OutputStage.Output.Valid;
    }

    /** Too few bits are left for the next field. */
    ghost predicate Starved()
      reads this`column, this`state, this`phase, this`t, this`lens, this`groupNo, this`groupPos, column, column.output,
        bs
    {
      Ok(Abs()) && |bs.live| < Width(Abs())
    }

    /** A block is being written out, and more of it is to come. */
    ghost predicate Interrupted()
      reads this`state, this`phase, this`column, column, column.output
    {
      state.Writing? && !column.output.Finished()
    }

    /** The code tells the phase reached. */
    ghost predicate Agrees(code: Code)
      reads this`column, this`state, this`phase, this`t, this`lens, this`groupNo, this`groupPos, column, column.output
    {
      && (code == BzStreamEnd ==> Abs() == StreamEnd)
      && (code.BzError? ==> Abs() == Failed(code.e))
    }

    /** Everything given out so far. */
    ghost function Delivered(): seq<byte>
      reads this, column, column.output
    {
      settled + (if state.Writing? then column.output.written else [])
    }

    constructor (small: bool, bound: nat)
      ensures Valid() && fresh(Repr()) && Synced() && Abs() == Magic(0)
      ensures this.small == small && this.bound == bound && consumed == [] && settled == [] && Delivered() == []
    {
      hide Decompress.Run, Behind, Empty, Means, OfBytes, InSymbols, InOutput, Sized;
      this.small, this.bound := small, bound;
      bs := new Reader();
      column := new Column(small, 0);
      state, save, phase := Control, Empty(), Magic(0);
      t, lens, dec, groupNo, groupPos := Tables(seq(256, _ => false), 0, [], Block(Stream(0, 0), 0, 0, false)), [], [],
        0, 0;
      consumed, settled := [], [];
      new;
      NothingFed(bound);
    }

    static lemma {:induction false} NothingFed(bound: nat)
      ensures Means(Empty(), Magic(0)) && OfBytes([]) == []
      ensures Behind([], Decompress.Run(Magic(0), [], bound)) == Decompress.Run(Magic(0), [], bound)
    {
      hide Decompress.Run;
      var r := Decompress.Run(Magic(0), [], bound);
      assert [] + r.out == r.out;
    }

    /** Corrupt data: the decoder stops here for good. */
    method Fail()
      requires bs.Valid() && bs !in column.Repr && this !in column.Repr && column.Apart() && Sized(save)
      modifies this`state, this`save, this`phase
      ensures Valid() && Abs() == Failed(DataError) && state == Control && bs.live == old(bs.live)
    {
      hide InSymbols, InOutput, Sized;
      state, save, phase := Control, save.(at := Broken(DataError)), Failed(DataError);
      StillSized(old(save), save);
    }

    /** The tables are complete: set up for the first symbol. */
    method StartSymbols(r: Save, ghost d: Data)
      requires bs.Valid() && bs !in column.Repr && this !in column.Repr
      requires column.Apart() && column.output.Stored([]) && column.output.small == small
        && column.output.limit == d.t.b.st.limit
      requires OkData(d) && AtFirst(d) && Means(r, MtfVal(d))
      modifies this`state, this`save, this`phase, this`t, this`lens, this`dec, this`groupNo, this`groupPos
      modifies column, column.unzftab, column.mtf.mtfa, column.mtf.mtfbase
      ensures Valid() && Abs() == MtfVal(d) && state == First
    {
      hide Valid, Abs, OkData, UsedBytes, Fresh, AllTablesOk, Column.Valid, OutputStage.Output.Stored, Means, Keeps;
      DataParts(d);
      TakeTables(r, d);
      groupNo, groupPos, state := 0, GROUP_SIZE - 1, First;
      column.Init(save.seqToUnseq);
      FirstIs(d);
    }

    lemma {:induction false} FirstIs(d: Data)
      requires bs.Valid() && bs !in column.Repr && this !in column.Repr && InSymbols() && state == First && D() == d
      ensures Valid() && Abs() == MtfVal(d)
    {
      hide OkData, AllTablesOk, Column.Valid, Keeps, InOutput, Waiting;
    }

    method TakeTables(r: Save, ghost d: Data)
      requires OkData(d) && Means(r, MtfVal(d))
      modifies this`save, this`t, this`lens, this`dec
      ensures Keeps() && save.seqToUnseq == UsedBytes(d.t.used) && t == d.t && lens == d.lens && AllTablesOk(dec, lens)
    {
      hide AllTablesOk, OkTables, InRange, Means, Sized, LensOf, TablesIn, BlockIn;
      DataParts(d);
      TablesRead(r, d);
      save, t, lens := r, TablesIn(r), LensOf(r);
      dec := BuildTables(lens);
    }

    /** One field of a header or of the tables. */
    method StepControl(v: nat)
      requires Valid() && state.Control? && !Terminal(phase) && v < Pow2(Width(phase))
      modifies this`column, this`state, this`save, this`phase, this`t, this`lens, this`dec, this`groupNo, this`groupPos
      modifies column, column.unzftab, column.mtf.mtfa, column.mtf.mtfbase
      ensures Valid() && Abs() == Next(old(Abs()), v, bound) && fresh(Repr() - old(Repr()))
      ensures bs.live == old(bs.live) && !state.Writing?
    {
      hide InSymbols, InOutput, Next, Ok, AllTablesOk, OkData, UsedBytes, Means, Pow2, Width;
      ghost var p, q := phase, Next(phase, v, bound);
      ControlStep(p, v, bound);
      var r := Field(save, v, bound, p);
      AtTells(save, p);
      AtTells(r, q);
      if r.at.Symbols? {
        OkDataOf(q);
        StartSymbols(r, q.d);
      } else if save.at.MagicByte? && r.at.MarkByte? {
        StartColumn(r, q);
      } else {
        save, phase := r, q;
      }
    }

    /** The header is complete: allocate the tables for its block size. */
    method StartColumn(r: Save, ghost q: Phase)
      requires bs.Valid() && q.Marker? && Ok(q) && Means(r, q)
      modifies this`column, this`state, this`save, this`phase
      ensures Valid() && Abs() == q && fresh(column.Repr) && !state.Writing?
    {
      hide InSymbols, InOutput;
      column := new Column(small, r.nblockLimit);
      state, save, phase := Control, r, q;
    }

    lemma {:induction false} NextOk(d: Data)
      requires OkData(d)
      ensures d.groupPos > 0 ==> OkData(d.(groupPos := d.groupPos - 1))
      ensures d.groupNo + 1 < |d.t.selectors| ==> OkData(d.(groupNo := d.groupNo + 1, groupPos := GROUP_SIZE - 1))
    {
      hide OkTables, OkLens, Ready, UsedBytes;
    }

    /** Ask for the next symbol. */
    method Ask()
      requires bs.Valid() && bs !in column.Repr && this !in column.Repr && InSymbols()
      modifies this`state, this`save, this`phase, this`groupNo, this`groupPos
      ensures Valid() && Abs() == AskMtf(old(D())) && !state.Writing?
    {
      hide AllTablesOk, OkData, Column.Valid, InOutput, Waiting, UsedBytes;
      if groupPos > 0 || groupNo + 1 < |t.selectors| {
        AskOn();
      } else {
        column.ArraysApart();
        Fail();
      }
    }

    method AskOn()
      requires bs.Valid() && bs !in column.Repr && this !in column.Repr && InSymbols()
      requires groupPos > 0 || groupNo + 1 < |t.selectors|
      modifies this`state, this`groupNo, this`groupPos
      ensures Valid() && Abs() == AskMtf(old(D())) && state == First
    {
      hide Valid, Abs, AllTablesOk, OkData, Column.Valid, UsedBytes, Keeps;
      ghost var d := D();
      NextOk(d);
      if groupPos == 0 {
        groupNo, groupPos := groupNo + 1, GROUP_SIZE;
      }
      groupPos, state := groupPos - 1, First;
      FirstIs(D());
    }

    /** The end of the block's symbols. */
    method EndBlock()
      requires bs.Valid() && bs !in column.Repr && this !in column.Repr && InSymbols()
      modifies this`state, this`save, this`phase, column.output, column.output.tt, column.output.ll16,
        column.output.ll4, column.output.cftab
      ensures Valid() && Abs() == EndOfBlock(old(column.m.out), t.b)
      ensures state.Writing? ==> column.output.written == []
    {
      hide AllTablesOk, OkTables, OkLens, ListIs, Restored, OutputStage.Output.Valid, OutputStage.Output.Stored;
      if t.b.origPtr >= column.nblock {
        Fail();
      } else {
        var corrupt := column.output.Begin(column.nblock, t.b.origPtr, save.blockRandomised, column.unzftab,
          column.m.out);
        state := Writing;
      }
    }

    /** A symbol has been decoded. */
    method Symbol(sym: nat)
      requires bs.Valid() && bs !in column.Repr && this !in column.Repr && InSymbols() && sym < AlphaSize(t.used)
      modifies this`state, this`save, this`phase, this`groupNo, this`groupPos, column.Repr
      ensures Valid() && Abs() == TakeSymbol(sym, old(D()))
      ensures state.Writing? ==> column.output.written == []
    {
      hide EndOfBlock, InOutput, Waiting, AllTablesOk, OkTables, OkLens, ListIs, Flush, Step, Counts, EndOfBlock, Fold;
      var ok := true;
      ghost var d := D();
      if sym == AlphaSize(t.used) - 1 {
        if column.es >= 0 {
          ok := column.FlushRun();
        } else {
          NoRunToFlush(column.m, t.b.st.limit);
        }
        if ok {
          EndBlock();
        } else {
          Fail();
        }
      } else {
        ok := column.TakeSymbol(sym);
        if ok {
          OkDataAfter(d, sym);
          Ask();
        } else {
          Fail();
        }
      }
    }

    /** zn bits of a code are in hand, with value zvec. */
    method Look(zn: nat, zvec: nat)
      requires bs.Valid() && bs !in column.Repr && this !in column.Repr && InSymbols()
      requires MinLen(GroupLens(D())) <= zn
      requires MinLen(GroupLens(D())) < zn <= LONGEST ==> zvec / 2 > Limit(GroupLens(D()), zn - 1)
      modifies this`state, this`save, this`phase, this`groupNo, this`groupPos, column.Repr
      ensures Valid() && Abs() == Decide(zn, zvec, old(D()))
      ensures state.Writing? ==> column.output.written == []
    {
      hide OkTables, OkLens, ListIs, TableOk, TakeSymbol, LookUp, TablesFor, GroupLens, InOutput, InRange, IsControl;
      var sel := t.selectors[groupNo];
      GroupTable(sel);
      var d := dec[sel];
      hide AllTablesOk;
      var r := LookUpTable(d, GroupLens(D()), zn, zvec);
      match r
      case Corrupt =>
        Fail();
      case Longer => WantMore(zn, zvec);
      case Found(sym) =>
        FoundInAlphabet(GroupLens(D()), zn, zvec);
        Symbol(sym);
    }

    /** Not a whole code yet. */
    method WantMore(zn: nat, zvec: nat)
      requires bs.Valid() && bs !in column.Repr && this !in column.Repr && InSymbols()
      requires MinLen(GroupLens(D())) <= zn && LookUp(GroupLens(D()), zn, zvec) == Longer
      modifies this`state, this`save, this`phase
      ensures Valid() && Abs() == MtfBit(zn + 1, zvec, D()) && state.More?
    {
      hide OkTables, OkLens, LookUp, AllTablesOk;
      LongerMeans(GroupLens(D()), zn, zvec);
      state := More(zn + 1, zvec);
    }

    /** The decode table of the current group. */
    lemma {:induction false} GroupTable(sel: nat)
      requires InSymbols() && sel == t.selectors[groupNo]
      ensures sel < |dec| && TableOk(dec[sel], GroupLens(D())) && InRange(GroupLens(D()))
    {
    }

    /** The bits waited for, as the fields say. */
    method Wanted() returns (w: nat)
      requires Valid() && !Terminal(Abs()) && !state.Writing?
      ensures w == Width(Abs()) && 1 <= w <= 20 && bs.bsLive == |bs.live|
    {
      match state
      case Control =>
        WidthIs(save, phase);
        w := FieldWidth(save.at);
      case First =>
        GroupTable(t.selectors[groupNo]);
        w := dec[t.selectors[groupNo]].minLen;
      case More(_, _) => w := 1;
    }

    /** One field, whatever the phase. */
    method StepOn(v: nat)
      requires Valid() && !Terminal(Abs()) && !state.Writing? && v < Pow2(Width(Abs()))
      modifies this`column, this`state, this`save, this`phase, this`t, this`lens, this`dec, this`groupNo, this`groupPos,
        column.Repr
      ensures Valid() && Abs() == Next(old(Abs()), v, bound) && fresh(Repr() - old(Repr()))
      ensures bs.live == old(bs.live) && (state.Writing? ==> column.output.written == [])
    {
      hide Width, OkData, InSymbols, Pow2, Decide, LookUp, AlphaSize, Base, NextCoding, NextHeader, NextTables, Ok,
        OkCurrent, OkLens, OkStream, OkTables, AfterMapping, AllTablesOk, InOutput, Keeps;
      match state
      case Control => StepControl(v);
      case First =>
        FirstStep(v);
      case More(zn, zvec) =>
        BitValue(Abs(), v);
        MoreStep(zn, zvec, v);
    }

    method FirstStep(v: nat)
      requires Valid() && state == First
      modifies this`state, this`save, this`phase, this`groupNo, this`groupPos, column.Repr
      ensures Valid() && Abs() == Decide(MinLen(GroupLens(old(D()))), v, old(D()))
      ensures bs.live == old(bs.live) && (state.Writing? ==> column.output.written == [])
    {
      hide Decide, LookUp, OkTables, OkLens;
      GroupTable(t.selectors[groupNo]);
      var m := dec[t.selectors[groupNo]].minLen;
      hide AllTablesOk, InSymbols, OkData;
      Look(m, v);
    }

    method MoreStep(zn: nat, zvec: nat, v: nat)
      requires Valid() && state == More(zn, zvec) && v < 2
      modifies this`state, this`save, this`phase, this`groupNo, this`groupPos, column.Repr
      ensures Valid() && Abs() == Decide(zn, 2 * zvec + v, old(D()))
      ensures bs.live == old(bs.live) && (state.Writing? ==> column.output.written == [])
    {
      hide Valid, OkData, Decide, LookUp, InSymbols;
      MoreOk(zn, zvec);
      Look(zn, 2 * zvec + v);
    }

    /** What is known of a code that is not whole yet. */
    lemma {:induction false} MoreOk(zn: nat, zvec: nat)
      requires Valid() && state == More(zn, zvec)
      ensures bs.Valid() && bs !in column.Repr && this !in column.Repr && InSymbols()
      ensures MinLen(GroupLens(D())) < zn && (zn <= LONGEST ==> zvec > Limit(GroupLens(D()), zn - 1))
    {
      hide OkData, AllTablesOk, InOutput, Waiting;
    }

    /** BZ2_decompress: take fields until the input runs out, a block is complete, or the stream is over. */
    method Receive(input: seq<byte>, used0: nat) returns (used: nat)
      requires Valid() && Synced() && !state.Writing? && used0 <= |input|
      modifies this, bs, column.Repr
      ensures Valid() && Synced() && fresh(Repr() - old(Repr())) && used0 <= used <= |input|
      ensures consumed == old(consumed) + input[used0..used] && settled == old(settled)
      ensures Terminal(Abs()) || state.Writing? || (used == |input| && Starved())
      ensures state.Writing? ==> column.output.written == []
      ensures state.Writing? ==> 8 * (|input| - used) + |bs.live| < 8 * (|input| - used0) + old(|bs.live|)
    {
      hide Valid, Synced, Abs, Width, Starved, Terminal;
      used := used0;
      TakenOne(consumed, input, used0);
      var done := IsDone();
      while !done
        invariant Valid() && Synced() && fresh(Repr() - old(Repr())) && used0 <= used <= |input|
        invariant consumed == old(consumed) + input[used0..used] && settled == old(settled)
        invariant done ==> Terminal(Abs()) || state.Writing? || (used == |input| && Starved())
        invariant state.Writing? ==> done && column.output.written == []
        invariant 8 * (|input| - used) + |bs.live| <= 8 * (|input| - used0) + old(|bs.live|)
        invariant state.Writing? ==> 8 * (|input| - used) + |bs.live| < 8 * (|input| - used0) + old(|bs.live|)
        invariant !done ==> !Terminal(Abs())
        decreases 8 * (|input| - used) + |bs.live|, |input| - used, !done
      {
        ghost var mid, had := Repr(), used;
        used, done := Advance(input, used);
        FreshMore(old(Repr()), mid, Repr());
        TakenTogether(old(consumed), input, used0, had, used);
      }
    }

    static lemma {:induction false} TakenTogether(taken: seq<byte>, input: seq<byte>, i: nat, j: nat, k: nat)
      requires i <= j <= k <= |input|
      ensures taken + input[i..j] + input[j..k] == taken + input[i..k]
    {
    }

    static lemma {:induction false} TakenOne(taken: seq<byte>, input: seq<byte>, i: nat)
      requires i <= |input|
      ensures taken + input[i..i] == taken && (i < |input| ==> taken + input[i..i + 1] == taken + [input[i]])
    {
    }

    /** One turn of the loop: a field if there are bits enough, else a byte if there is one. */
    method Advance(input: seq<byte>, used0: nat) returns (used: nat, done: bool)
      requires Valid() && Synced() && !Terminal(Abs()) && !state.Writing? && used0 <= |input|
      modifies this, bs, column.Repr
      ensures Valid() && Synced() && fresh(Repr() - old(Repr())) && used0 <= used <= |input|
      ensures consumed == old(consumed) + input[used0..used] && settled == old(settled)
      ensures done ==> Terminal(Abs()) || state.Writing? || (used == |input| && Starved())
      ensures state.Writing? ==>
        done && column.output.written == [] && 8 * (|input| - used) + |bs.live| < 8 * (|input| - used0) + old(|bs.live|)
      ensures !done ==> !Terminal(Abs())
      ensures 8 * (|input| - used) + |bs.live| <= 8 * (|input| - used0) + old(|bs.live|)
      ensures !done ==> used > used0 || |bs.live| < old(|bs.live|)
    {
      hide Valid, Synced, Abs, Terminal, Ok;
      StateOk();
      TakenOne(consumed, input, used0);
      var w := Wanted();
      if bs.bsLive >= w {
        used := used0;
        TakeField(w);
        done := IsDone();
      } else if used0 == |input| {
        used, done := used0, true;
      } else {
        LoadByte(input[used0]);
        used, done := used0 + 1, false;
      }
    }

    lemma {:induction false} FreshMore(was: set<object>, mid: set<object>, now: set<object>)
      ensures now - was <= (now - mid) + (mid - was)
    {
    }

    method IsDone() returns (done: bool)
      requires Valid()
      ensures done == (Terminal(Abs()) || state.Writing?)
    {
      if state.Control? {
        AtTells(save, phase);
      }
      done := state.Writing? || (state.Control? && Over(save.at));
    }

    method TakeField(w: nat)
      requires Valid() && Synced() && !Terminal(Abs()) && !state.Writing? && w == Width(Abs()) && 1 <= w <= bs.bsLive
      modifies this`column, this`state, this`save, this`phase, this`t, this`lens, this`dec, this`groupNo, this`groupPos,
        bs, column.Repr
      ensures Valid() && Synced() && fresh(Repr() - old(Repr()))
      ensures |bs.live| == old(|bs.live|) - w && (state.Writing? ==> column.output.written == [])
    {
      hide Decompress.Run, OfBytes, Next, Valid, Abs, Width, Ok;
      ghost var p, live := Abs(), bs.live;
      StateOk();
      var v := TakeBits(w);
      StepOn(v);
      RunStep(p, live, w, bound);
      NarrowStep(p, v, bound);
      StateOk();
    }

    lemma {:induction false} StateOk()
      requires Valid()
      ensures Ok(Abs()) && (Abs().Output? <==> state.Writing?) && bs.bsLive == |bs.live|
      ensures this !in column.Repr && bs !in column.Repr && column.output in column.Repr
    {
    }

    method TakeBits(w: nat) returns (v: nat)
      requires Valid() && w <= bs.bsLive
      modifies bs
      ensures Valid() && Abs() == old(Abs()) && v == Val(old(bs.live)[..w]) && v < Pow2(w)
        && bs.live == old(bs.live)[w..]
    {
      hide InSymbols, InOutput, Waiting, Ok;
      v := bs.Take(w);
    }

    method LoadByte(c: byte)
      requires Valid() && Synced() && bs.bsLive < 20
      modifies this`consumed, bs
      ensures Valid() && Synced() && consumed == old(consumed) + [c] && |bs.live| == old(|bs.live|) + 8
    {
      hide Decompress.Run, OfBytes, InSymbols, InOutput, Waiting, Behind, Enc, Ok;
      SyncLoad(consumed, settled, Abs(), bs.live, c, bound);
      bs.Load(c);
      consumed := consumed + [c];
    }

    /** A block written out is what the machine delivers, and the fields tell what it makes of it. */
    lemma {:induction false} BlockDone()
      requires Valid() && state.Writing? && column.output.Finished()
      requires Unrle(column.output.s, column.output.nblock, 0) == Unpacked(column.output.written, false)
      ensures var p, crc := Abs(), Finalise(column.output.calculatedBlockCRC);
              && p.Output? && Ok(p) && p.b == t.b && save.storedCRC == t.b.crc
              && (if crc != t.b.crc then Deliver(p) == Failed(DataError)
                  else Deliver(p) == Marker(0, t.b.st.(combined := Combine(t.b.st.combined, crc)))
                       && Accepted(p) == column.output.written)
    {
      hide Unrle, Fold, Combine, Restored, Xor, Sized;
      DeliverIs(Abs(), column.output.written);
    }

    /** The block is written out: compare its checksum, and go on to the next marker. */
    method FinishBlock() returns (ok: bool)
      requires Valid() && Synced() && state.Writing? && column.output.Finished()
      requires Unrle(column.output.s, column.output.nblock, 0) == Unpacked(column.output.written, false)
      modifies this`state, this`save, this`phase, this`settled
      ensures Valid() && Synced() && state.Control?
      ensures ok ==> settled == old(Delivered()) && !Terminal(Abs())
      ensures !ok ==> Abs() == Failed(DataError)
    {
      hide Valid, Abs, Decompress.Run, OfBytes, Unrle, Combine, Deliver, Accepted;
      var o := column.output;
      ghost var p, live := Abs(), bs.live;
      var crc := Finalise(o.calculatedBlockCRC);
      BlockDone();
      DeliverStep(p, live, bound);
      NarrowDelivered(p, bound);
      if crc != save.storedCRC {
        GiveUp();
        NothingAccepted(p, live, bound);
        return false;
      }
      ghost var st := t.b.st.(combined := Combine(t.b.st.combined, crc));
      SettleMore(settled, o.written, Decompress.Run(Marker(0, st), live, bound));
      ToMarker(crc);
      settled := settled + o.written;
      StateOk();
      ok := true;
    }

    method GiveUp()
      requires Valid() && state.Writing?
      modifies this`state, this`save, this`phase
      ensures Valid() && Abs() == Failed(DataError) && state == Control && bs.live == old(bs.live)
    {
      hide Ok, InSymbols, Restored;
      Fail();
    }

    /** While a block is written, the tables stay fit for the next. */
    lemma {:induction false} RoomLeft()
      requires Valid() && state.Writing?
      ensures column.Apart() && column.output.Stored([]) && column.output.small == small
        && column.output.limit == t.b.st.limit
      ensures Sized(save) && BlockIn(save) == t.b && OkStream(t.b.st)
    {
      hide Restored, Sized, InSymbols;
      column.output.RoomAgain();
    }

    /** A block is done, and folded into the combined checksum: on to the next marker. */
    method ToMarker(crc: word)
      requires Valid() && state.Writing?
      modifies this`state, this`save, this`phase
      ensures Valid() && state == Control && Abs()
        == Marker(0, old(t.b.st).(combined := Combine(old(t.b.st.combined), crc)))
    {
      hide Combine, Sized, InSymbols, InOutput, OutputStage.Output.Stored;
      RoomLeft();
      ghost var was := save;
      save := save.(at := MarkByte(0), calculatedCombinedCRC := Combine(save.calculatedCombinedCRC, crc));
      state, phase := Control, Marker(0, t.b.st.(combined := Combine(t.b.st.combined, crc)));
      StillSized(was, save);
    }

    /** Corrupt data met while writing. */
    method FailBlock()
      requires Valid() && Synced() && state.Writing? && Unrle(column.output.s, column.output.nblock, 0).corrupt
      modifies this`state, this`save, this`phase
      ensures Valid() && Synced() && Abs() == Failed(DataError)
    {
      hide Decompress.Run, OfBytes, Unrle, Fold, Combine, Restored;
      ghost var p := Abs();
      DeliverStep(p, bs.live, bound);
      NothingAccepted(p, bs.live, bound);
      GiveUp();
    }

    /** Write out as much of the block as there is room for. */
    method WriteOut(avail: nat) returns (code: Option<Code>, out: seq<byte>)
      requires Valid() && Synced() && state.Writing?
      modifies this, column.output
      ensures Valid() && Synced() && column == old(column) && |out| <= avail && consumed == old(consumed)
        && bs.live == old(bs.live)
      ensures code.None? ==> state.Control? && !Terminal(Abs()) && Delivered() == old(Delivered()) + out
      ensures code == Some(BzOk) ==> Interrupted() && |out| == avail && Delivered() == old(Delivered()) + out
      ensures code.Some? && code != Some(BzOk) ==> code == Some(BzError(DataError)) && Abs() == Failed(DataError)
    {
      hide Unrle, Fold, Restored, Decompress.Run, OutputStage.Progress;
      var corrupt;
      ghost var before := Delivered();
      corrupt, out := UnRleBlock(avail);
      if corrupt {
        FailBlock();
        return Some(BzError(DataError)), out;
      }
      if !column.output.Finished() {
        return Some(BzOk), out;
      }
      var ok := FinishBlock();
      code := if ok then None else Some(BzError(DataError));
    }

    method UnRleBlock(avail: nat) returns (corrupt: bool, out: seq<byte>)
      requires Valid() && Synced() && state.Writing?
      modifies column.output
      ensures Valid() && Synced() && state.Writing? && |out| <= avail
      ensures Delivered() == old(Delivered()) + out
      ensures corrupt ==> Unrle(column.output.s, column.output.nblock, 0).corrupt
      ensures !corrupt ==> |out| == avail || column.output.Finished()
      ensures !corrupt && column.output.Finished() ==>
        Unrle(column.output.s, column.output.nblock, 0) == Unpacked(column.output.written, false)
    {
      hide Unrle, Fold, Restored, Decompress.Run, InSymbols, Waiting;
      corrupt, out := column.output.UnRle(avail);
      assert settled + (old(column.output.written) + out) == settled + old(column.output.written) + out;
    }

    /** What a call returns when nothing more can be taken in. */
    method Verdict() returns (code: Code)
      requires Valid() && !state.Writing?
      ensures code == if !Terminal(Abs()) then BzOk else if Abs().StreamEnd? then BzStreamEnd
                      else BzError(Abs().e)
      ensures Agrees(code)
    {
      match state
      case Control =>
        AtTells(save, phase);
        code := if save.at.Broken? then BzError(save.at.e) else if save.at.Idle? then BzStreamEnd
          else BzOk;
      case _ => code := BzOk;
    }

    /**
     * BZ2_bzDecompress: one call, with some input and room for availOut bytes. However
     * calls split input and output, what is taken in has led to the phase reached, and
     * what is given out is what the machine's run accounts for.
     */
    method BzDecompress(input: seq<byte>, availOut: nat) returns (code: Code, used: nat, produced: seq<byte>)
      requires Valid() && Synced()
      modifies this, bs, column.Repr
      ensures Valid() && Synced() && fresh(Repr() - old(Repr()))
      ensures used <= |input| && consumed == old(consumed) + input[..used] && |produced| <= availOut
      ensures code == BzOk || code == BzStreamEnd ==> Delivered() == old(Delivered()) + produced
      ensures Agrees(code)
      ensures code == BzSequenceError <==> old(Abs()) == StreamEnd
      ensures code == BzOk ==> (Interrupted() && |produced| == availOut) || (used == |input| && Starved())
    {
      hide Valid, Synced, Abs, Starved, Width, Delivered;
      StateOk();
      var over := IsDone();
      if over && !state.Writing? {
        used, produced := 0, [];
        code := Verdict();
        code := if code == BzStreamEnd then BzSequenceError else code;
        assert input[..0] == [];
      } else {
        code, used, produced := Pump(input, availOut);
      }
    }

    /** The loop: write and receive by turns. */
    method Pump(input: seq<byte>, availOut: nat) returns (code: Code, used: nat, produced: seq<byte>)
      requires Valid() && Synced() && !Terminal(Abs())
      modifies this, bs, column.Repr
      ensures Valid() && Synced() && fresh(Repr() - old(Repr()))
      ensures used <= |input| && consumed == old(consumed) + input[..used] && |produced| <= availOut
      ensures code == BzOk || code == BzStreamEnd ==> Delivered() == old(Delivered()) + produced
      ensures Agrees(code) && code != BzSequenceError
      ensures code == BzOk ==> (Interrupted() && |produced| == availOut) || (used == |input| && Starved())
    {
      hide Valid, Synced, Abs, Starved, Width, Delivered;
      code, used, produced := BzOk, 0, [];
      var more := true;
      while more
        invariant Valid() && Synced() && fresh(Repr() - old(Repr())) && used <= |input| && |produced| <= availOut
        invariant consumed == old(consumed) + input[..used]
        invariant more ==> !Terminal(Abs())
        invariant more || code == BzOk || code == BzStreamEnd ==> Delivered() == old(Delivered()) + produced
        invariant !more ==> Agrees(code) && code != BzSequenceError
        invariant !more && code == BzOk ==> (Interrupted() && |produced| == availOut) || (used == |input| && Starved())
        decreases more, 8 * (|input| - used) + |bs.live|, if state.Writing? then 1 else 0
      {
        ghost var mid, had := Repr(), used;
        var out;
        more, code, used, out := Turn(input, used, availOut - |produced|);
        produced := produced + out;
        FreshMore(old(Repr()), mid, Repr());
        assert input[..had] + input[had..used] == input[..used];
      }
    }

    /** One turn of the loop: write what can be written of a block, and if it is done, receive the next. */
    method Turn(input: seq<byte>, used0: nat, room: nat) returns (more: bool, code: Code, used: nat, out: seq<byte>)
      requires Valid() && Synced() && !Terminal(Abs()) && used0 <= |input|
      modifies this, bs, column.Repr
      ensures Valid() && Synced() && fresh(Repr() - old(Repr())) && used0 <= used <= |input| && |out| <= room
      ensures consumed == old(consumed) + input[used0..used]
      ensures more ==> !Terminal(Abs()) && Delivered() == old(Delivered()) + out
      ensures !more ==> code != BzSequenceError
      ensures !more && (code == BzOk || code == BzStreamEnd) ==> Delivered() == old(Delivered()) + out
      ensures !more ==> Agrees(code)
      ensures !more && code == BzOk ==> (Interrupted() && |out| == room) || (used == |input| && Starved())
      ensures more ==> state.Writing? && 8 * (|input| - used) + |bs.live| < 8 * (|input| - used0) + old(|bs.live|)
    {
      hide Valid, Synced, Abs, Starved, Width, Delivered;
      StateOk();
      used, out, code := used0, [], BzOk;
      assert input[used0..used] == [];
      if state.Writing? {
        var r;
        r, out := WriteOut(room);
        if r.Some? {
          return false, r.value, used, out;
        }
      }
      StateOk();
      more, code, used := TakeIn(input, used0);
    }

    /** The input half: true when a block is ready to be written. */
    method TakeIn(input: seq<byte>, used0: nat) returns (more: bool, code: Code, used: nat)
      requires Valid() && Synced() && !Terminal(Abs()) && !state.Writing? && used0 <= |input|
      modifies this, bs, column.Repr
      ensures Valid() && Synced() && fresh(Repr() - old(Repr())) && used0 <= used <= |input|
      ensures consumed == old(consumed) + input[used0..used] && Delivered() == old(Delivered())
      ensures more == state.Writing? && (more ==> !Terminal(Abs()))
      ensures !more ==> code != BzSequenceError && Agrees(code)
      ensures !more && code == BzOk ==> used == |input| && Starved()
      ensures more ==> 8 * (|input| - used) + |bs.live| < 8 * (|input| - used0) + old(|bs.live|)
    {
      hide Valid, Synced, Abs, Starved, Width;
      code := BzOk;
      used := Receive(input, used0);
      StateOk();
      more := state.Writing?;
      if !more {
        code := Verdict();
      }
    }

    /**
     * Fed any part of a stream, the decoder reports no error and has given out no more
     * than the stream's bytes; at STREAM_END it has given out exactly those.
     */
    lemma {:induction false} OnStream(level: nat, cs: seq<Coded>, rest: bits, after: bits)
      requires Valid() && Synced() && 1 <= level <= 9 && ValidBlocks(cs, StartStream(level, bound).limit)
      requires OfBytes(consumed) + rest == StreamBits(level, cs, StartStream(level, bound).limit) + after
      ensures !Abs().Failed?
      ensures Delivered() <= AllBytes(cs)
      ensures Abs() == StreamEnd ==> Delivered() == AllBytes(cs)
      ensures Abs() == StreamEnd ==> |rest| <= |after|
      ensures rest == [] ==> !Starved()
      ensures Interrupted() ==> |Delivered()| < |AllBytes(cs)|
    {
      hide Decompress.Run, OfBytes, StreamBits, ValidBlocks, AllBytes, InSymbols, Waiting, Restored, Behind, Width,
        Unrle, OutputStage.Progress;
      StreamSoFar(level, cs, bound, OfBytes(consumed), rest, after, settled, Abs(), bs.live);
      if state.Writing? {
        PartOut(column.output, Abs(), bs.live, bound);
        PrefixBehind(settled, column.output.written, Decompress.Run(Abs(), bs.live, bound).out, AllBytes(cs));
      }
    }
  }

  lemma {:induction false} PrefixBehind(settled: seq<byte>, w: seq<byte>, out: seq<byte>, all: seq<byte>)
    requires w <= out && settled + out <= all
    ensures settled + w <= all
    ensures |w| < |out| ==> |settled + w| < |all|
  {
  }

  lemma {:induction false} StartOk()
    ensures Ok(Magic(0))
  {
  }

  /** Where a machine that was fed a part of a stream can be, and what it has given out. */
  lemma {:induction false} StreamSoFar(level: nat, cs: seq<Coded>, bound: nat, fed: bits, rest: bits, after: bits,
      settled: seq<byte>, p: Phase, live: bits)
    requires 1 <= level <= 9 && ValidBlocks(cs, StartStream(level, bound).limit) && Ok(p)
    requires fed + rest == StreamBits(level, cs, StartStream(level, bound).limit) + after
    requires Decompress.Run(Magic(0), fed, bound) == Behind(settled, Decompress.Run(p, live, bound))
    ensures var r := Decompress.Run(p, live, bound);
            && !r.phase.Failed? && settled + r.out <= AllBytes(cs)
            && (Terminal(p) ==> r.phase == p) && (p == StreamEnd ==> settled == AllBytes(cs) && |rest| <= |after|)
            && (rest == [] ==> r.phase == StreamEnd)
    ensures settled <= AllBytes(cs)
    ensures rest == [] ==> Width(p) <= |live|
  {
    hide Decompress.Run, OfBytes, StreamBits, ValidBlocks, AllBytes, Ok;
    var r := Decompress.Run(p, live, bound);
    StreamBack(level, cs, after, bound);
    StartOk();
    RunConcat(Magic(0), fed, rest, bound);
    RunConcat(p, live, rest, bound);
    TerminalRun(p, live, bound);
    TerminalRun(r.phase, r.rest + rest, bound);
    var q := Decompress.Run(r.phase, r.rest + rest, bound);
    assert settled + r.out + q.out == AllBytes(cs);
    if rest == [] {
      assert fed + [] == fed;
    }
    if p == StreamEnd {
      assert settled + [] + [] == settled;
    }
  }

  /** What is written of a block is the beginning of what the block gives. */
  lemma {:induction false} PartOut(o: OutputStage.Output, p: Phase, live: bits, bound: nat)
    requires o.Valid() && p.Output? && Ok(p) && p.column == o.l && |o.l| == o.nblock
      && o.s == Restored(o.l, p.b.origPtr, p.b.randomised)
    ensures var r := Decompress.Run(p, live, bound);
            r.phase == Failed(DataError) || (o.written <= r.out && (!o.Finished() ==> |o.written| < |r.out|))
  {
    hide Unrle, Restored, Fold, Checksum, Combine;
    DeliverStep(p, live, bound);
    if Deliver(p).Failed? {
      TerminalRun(Deliver(p), live, bound);
    } else if !o.Finished() {
      o.MoreToGive();
    }
  }

  lemma {:induction false} DeliverIs(p: Phase, written: seq<byte>)
    requires p.Output? && Ok(p) && BlockOutput(p.column, p.b.origPtr, p.b.randomised) == Unpacked(written, false)
    ensures if Checksum(written) != p.b.crc then Deliver(p) == Failed(DataError)
            else Deliver(p) == Marker(0, p.b.st.(combined := Combine(p.b.st.combined, Checksum(written))))
                 && Accepted(p) == written
  {
    hide BlockOutput, Checksum, Combine;
  }

  lemma {:induction false} DeliverStep(p: Phase, live: bits, bound: nat)
    requires p.Output? && Ok(p)
    ensures Decompress.Run(p, live, bound) == Behind(Accepted(p), Decompress.Run(Deliver(p), live, bound))
  {
    hide Deliver, Accepted, Ok;
  }

  lemma {:induction false} NothingAccepted(p: Phase, live: bits, bound: nat)
    requires p.Output? && Ok(p) && Deliver(p) == Failed(DataError)
    ensures Behind(Accepted(p), Decompress.Run(Deliver(p), live, bound))
      == Decompress.Run(Failed(DataError), live, bound)
  {
    hide Deliver, Ok;
  }

  lemma {:induction false} SettleMore(settled: seq<byte>, w: seq<byte>, r: Result)
    ensures Behind(settled, Behind(w, r)) == Behind(settled + w, r)
  {
    assert settled + (w + r.out) == settled + w + r.out;
  }

  lemma {:induction false} RunStep(p: Phase, live: bits, w: nat, bound: nat)
    requires Ok(p) && !Terminal(p) && !p.Output? && w == Width(p) <= |live|
    ensures Decompress.Run(p, live, bound) == Decompress.Run(Next(p, Val(live[..w]), bound), live[w..], bound)
  {
    hide Next, Ok;
  }

  lemma {:induction false} SyncLoad(consumed: seq<byte>, settled: seq<byte>, p: Phase, live: bits, c: byte, bound: nat)
    requires Ok(p) && Decompress.Run(Magic(0), OfBytes(consumed), bound)
      == Behind(settled, Decompress.Run(p, live, bound))
    ensures Decompress.Run(Magic(0), OfBytes(consumed + [c]), bound)
      == Behind(settled, Decompress.Run(p, live + Enc(8, c), bound))
  {
    hide Decompress.Run, Enc;
    OfBytesSnoc(consumed, c);
    RunConcat(Magic(0), OfBytes(consumed), Enc(8, c), bound);
    RunConcat(p, live, Enc(8, c), bound);
    var r := Decompress.Run(p, live, bound);
    var s := Decompress.Run(r.phase, r.rest + Enc(8, c), bound);
    assert settled + r.out + s.out == settled + (r.out + s.out);
  }

  method LookUpTable(d: DecodeTable, ghost lens: Lengths, zn: nat, zvec: nat) returns (r: Lookup)
    requires InRange(lens) && TableOk(d, lens)
    requires MinLen(lens) <= zn && (MinLen(lens) < zn <= LONGEST ==> zvec / 2 > Limit(lens, zn - 1))
    ensures r == LookUp(lens, zn, zvec)
  {
    hide LookUp, TablesFor, InRange, Limit;
    r := LookUpInTables(lens, d.limit, d.base, d.perm, zn, zvec);
  }

  lemma {:induction false} BitValue(p: Phase, v: nat)
    requires p.MtfBit? && Ok(p) && v < Pow2(Width(p))
    ensures v < 2
  {
    assert Pow2(1) == 2;
  }

  lemma {:induction false} LongerMeans(lens: Lengths, zn: nat, zvec: nat)
    requires LookUp(lens, zn, zvec) == Longer
    ensures zn <= LONGEST && zvec > Limit(lens, zn)
  {
  }

  lemma {:induction false} NoRunToFlush(m: Mtf, limit: nat)
    requires Ready(m) && m.es == -1
    ensures Flush(m, limit).Some? && Flush(m, limit).value.out == m.out
  {
    assert m.out + Repeat(m.list[0], 0) == m.out;
  }

  lemma {:induction false} OkDataAfter(d: Data, sym: nat)
    requires OkData(d) && sym < AlphaSize(d.t.used) - 1 && Step(d.m, sym, d.t.b.st.limit).Some?
    ensures OkData(d.(m := Step(d.m, sym, d.t.b.st.limit).value))
  {
    hide OkTables, OkLens;
  }

  lemma {:induction false} OkDataOf(q: Phase)
    requires q.MtfVal? && Ok(q)
    ensures OkData(q.d) && q.d.groupNo >= 0
  {
  }

  lemma {:induction false} DataParts(d: Data)
    requires OkData(d)
    ensures forall i {:trigger d.lens[i]} :: 0 <= i < |d.lens| ==> InRange(d.lens[i])
    ensures 0 < |UsedBytes(d.t.used)| <= 256
  {
    assert Rank(d.t.used, 256) <= 256;
  }
}
