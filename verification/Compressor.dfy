/**
 * BZ2_bzCompress: blocks filled, compressed and given out piecemeal, under RUN, FLUSH and
 * FINISH. Over every run of calls, the input taken in is what the finished blocks, the
 * current block and the pending run stand for.
 */
module Compressor {
  import opened Prelude
  import opened Bits
  import opened BitWriter
  import opened Crc
  import opened RunLength
  import opened MtfEncoder
  import opened Decompress
  import opened BlockFormat
  import opened RoundTrip
  import opened InputRuns
  import opened RunEncoder
  import Sender
  import BlockEncoder
  import BlockSize
  import TableChoice

  datatype Mode = Idle | Running | Flushing | Finishing

  datatype Action = RunAction | FlushAction | FinishAction

  datatype Code = RunOk | FlushOk | FinishOk | BzStreamEnd | ParamError | SequenceError

  /** The block size the stream header announces. */
  function Limit(level: nat): nat { 100_000 * level }

  /** b is whole, filled up to a byte with zeros. */
  ghost predicate FilledUp(b: bits, whole: bits) {
    exists pad: nat {:trigger Enc(pad, 0)} :: pad < 8 && b == whole + Enc(pad, 0)
  }

  lemma {:induction false} FilledLength(b: bits, whole: bits)
    requires FilledUp(b, whole)
    ensures |b| < |whole| + 8
  {
  }

  lemma {:induction false} FixedLengths(level: nat, combined: word)
    ensures |HeaderBits(level)| == 32 && |TrailerBits(combined)| == 80
  {
  }

  lemma {:induction false} BlocksSnoc(cs: seq<Coded>, c: Coded, limit: nat)
    requires ValidBlocks(cs, limit) && ValidCoded(c) && |c.plan.block| <= limit
    ensures ValidBlocks(cs + [c], limit)
    ensures BlocksBits(cs + [c], limit) == BlocksBits(cs, limit) + BlockBits(c.plan, Checksum(Bytes(c)))
    ensures AllBytes(cs + [c]) == AllBytes(cs) + Bytes(c)
    ensures CombinedCrc(cs + [c]) == Combine(CombinedCrc(cs), Checksum(Bytes(c)))
  {
    hide BlockBits, ValidCoded, Checksum, Combine, Bytes;
    assert (cs + [c])[..|cs|] == cs;
  }

  /** As this encoder makes them: no code longer than 17 bits, and no symbols but for the values that occur. */
  ghost predicate Neat(c: Coded) {
    Plain(c.plan) && TableChoice.AllWithin(c.plan.lens) && c.plan.used == Occurring(c.plan.block)
  }

  /** One more block, of n bytes for these runs, if there are any. */
  ghost predicate Joined(cs0: seq<Coded>, cs: seq<Coded>, n: nat, ps: seq<Pair>) {
    if n == 0 then cs == cs0 && ps == []
    else |cs| == |cs0| + 1 && cs[..|cs0|] == cs0 && cs[|cs0|].pairs == ps && |cs[|cs0|].plan.block| == n
         && Neat(cs[|cs0|])
  }

  /** All of them neat, and the first m full. */
  ghost predicate Tight(cs: seq<Coded>, m: int, full: int) {
    forall i {:trigger cs[i]} :: 0 <= i < |cs| ==> Neat(cs[i]) && (i < m ==> |cs[i].plan.block| >= full)
  }

  lemma {:induction false} TightJoined(cs0: seq<Coded>, cs: seq<Coded>, n: nat, ps: seq<Pair>, m: int, full: int)
    requires Tight(cs0, m, full) && Joined(cs0, cs, n, ps)
    ensures Tight(cs, 0, full)
    ensures m >= |cs0| ==> Tight(cs, |cs| - 1, full) && (n >= full > 0 ==> Tight(cs, |cs|, full))
  {
    hide Neat;
    forall i {:trigger cs[i]} | 0 <= i < |cs|
      ensures Neat(cs[i]) && (m >= |cs0| && i < |cs0| ==> |cs[i].plan.block| >= full)
    {
      if i < |cs0| {
        assert cs[i] == cs0[i];
      }
    }
  }

  lemma {:induction false} PairsJoined(cs0: seq<Coded>, cs: seq<Coded>, n: nat, ps: seq<Pair>)
    requires Joined(cs0, cs, n, ps)
    ensures AllPairs(cs) == AllPairs(cs0) + ps
  {
    hide Neat;
    if n == 0 {
      assert AllPairs(cs0) + [] == AllPairs(cs0);
    }
  }

  class Compressor {
    const level: nat
    const front: Front
    const out: Writer
    const workFactor: int
    var combinedCRC: word
    var blockNo: nat
    var stateOutPos: nat
    var mode: Mode
    var outputting: bool
    var availInExpect: nat
    ghost var blocks: seq<Coded>
    ghost var consumed: seq<byte>
    ghost var sent: seq<byte>
    ghost var flushed: bool

    /** The trailer has been written. */
    ghost predicate Ended()
      reads this`outputting, this`mode, this`availInExpect, this.front`stateInCh, this.front`stateInLen
    {
      outputting && (mode.Finishing? || mode.Idle?) && availInExpect == 0 && front.IsEmpty()
    }

    /** The bits so far are those of the blocks. */
    ghost predicate BitsOk()
      reads this`blockNo, this`outputting, this`mode, this`availInExpect, this`blocks, this`sent,
            this.front`stateInCh, this.front`stateInLen, out
    {
      && ValidBlocks(blocks, Limit(level))
      && (if Ended() then
            FilledUp(OfBytes(sent + out.zbits), StreamBits(level, blocks, Limit(level)))
          else
            out.Valid() && OfBytes(sent) + out.Written() == Begun())
    }

    /** The header, once written, and the blocks. */
    ghost function Begun(): bits
      requires ValidBlocks(blocks, Limit(level))
      reads this`blockNo, this`outputting, this`blocks
    {
      if blockNo > 1 || outputting then HeaderBits(level) + BlocksBits(blocks, Limit(level)) else []
    }

    /** Input taken in: the finished blocks, the block being filled, and the pending run. */
    ghost predicate Conserved()
      reads this`blocks, this`consumed, this`outputting, this.front`pairs, this.front`stateInCh, this.front`stateInLen
    {
      consumed == AllBytes(blocks) + (if outputting then front.Pending() else front.Taken())
    }

    ghost predicate FrontOk()
      reads this`outputting, this`mode, this`availInExpect,
            this.front`nblock, this.front`inUse, this.front`blockCRC, this.front`pairs, this.front`stateInCh,
              this.front`stateInLen, front.block
    {
      && 1 <= level <= 9 && front.level == level && front.block.Length == Limit(level)
      && (if outputting then
            if front.stateInCh == NO_CHAR then front.stateInLen == 0 && !mode.Running? && availInExpect == 0
            else front.stateInCh < 256 && 1 <= front.stateInLen <= 255
          else
            front.Valid() && front.nblock <= front.nblockMAX + 4)
    }

    /** The end of the stream has not been reached, or not been given out. */
    ghost predicate Owing()
      reads this`outputting, this`mode, this`availInExpect, this`stateOutPos, this.front`stateInCh,
        this.front`stateInLen, out`zbits
    {
      !Ended() || stateOutPos < |out.zbits|
    }

    /** Bytes compressed and not yet given out. */
    function Left(): int
      reads this`stateOutPos, out`zbits
    {
      |out.zbits| - stateOutPos
    }

    /** Unless a flush was asked for, every block is full but the last one. */
    ghost predicate Packed()
      reads this`blocks, this`flushed, this`outputting, this`mode, this`availInExpect, this.front`stateInCh,
        this.front`stateInLen
    {
      && (mode.Flushing? ==> flushed)
      && Tight(blocks, if flushed then 0 else if Ended() then |blocks| - 1 else |blocks|, Limit(level) - 19)
    }

    /** The runs not yet in a finished block. */
    ghost function InHand(): seq<Pair>
      reads this`outputting, this.front`pairs, this.front`stateInCh, this.front`stateInLen
    {
      if outputting then front.Rest() else front.Runs()
    }

    /** Unless a flush was asked for, the runs are those of the input, whatever block each is in. */
    ghost predicate RunsKept()
      reads this`blocks, this`consumed, this`flushed, this`outputting,
            this.front`pairs, this.front`stateInCh, this.front`stateInLen
    {
      !flushed ==>
        && RunsOf(consumed) == AllPairs(blocks) + InHand()
        && (!outputting && front.stateInCh == NO_CHAR ==> blocks == [])
    }

    /** The parts are separate objects. */
    ghost predicate Apart() {
      front != out as object && front != this as object && out != this as object
        && front.block as object !in {this, front, out}
    }

    ghost predicate Valid()
      reads this, front, front.block, out
    {
      Apart() && FrontOk() && BitsOk() && Conserved() && Packed() && RunsKept() && InStep()
    }

    ghost predicate InStep()
      reads this`blockNo, this`combinedCRC, this`blocks, this`stateOutPos, this`outputting, this`mode,
            this`availInExpect, this.front`stateInCh, this.front`stateInLen, out`zbits
    {
      && blockNo >= 1 && combinedCRC == CombinedCrc(blocks) && stateOutPos <= |out.zbits|
      && (!outputting ==> out.zbits == [] && (blockNo == 1 ==> blocks == []))
      && (mode.Idle? ==> outputting && availInExpect == 0 && front.IsEmpty())
    }

    /** Everything given out so far. */
    ghost function Emitted(): seq<byte>
      reads this`sent, this`stateOutPos, out
    {
      sent + (if stateOutPos <= |out.zbits| then out.zbits[..stateOutPos] else [])
    }

    constructor (level: nat, workFactor: nat)
      requires 1 <= level <= 9 && workFactor <= 250
      ensures Valid() && fresh(front) && fresh(front.block) && fresh(out) && this.level == level
      ensures consumed == [] && Emitted() == [] && mode == Running && !outputting && !flushed
        && front.nblock < front.nblockMAX
    {
      hide RunsOf, AllPairs, CombinedCrc, AllBytes, OfBytes, Tight, ValidBlocks, BlocksBits, HeaderBits, StreamBits,
        FilledUp, Expand, Separate, Occurring, Encoded, Fold, Writer.Valid;
      this.level := level;
      this.workFactor := if workFactor == 0 then 30 else workFactor;
      front := new Front(level);
      out := new Writer();
      combinedCRC, blockNo, stateOutPos, mode, outputting, availInExpect := 0, 1, 0, Running, false, 0;
      blocks, consumed, sent, flushed := [], [], [], false;
      new;
      NothingYet(Limit(level), Limit(level) - 19);
    }

    static lemma {:induction false} NothingYet(limit: nat, full: int)
      ensures RunsOf([]) == [] && AllPairs([]) == [] && CombinedCrc([]) == 0 && AllBytes([]) == [] && Expand([]) == []
      ensures OfBytes([]) == [] && Tight([], 0, full) && ValidBlocks([], limit)
    {
    }

    /** The stream header. */
    method PutHeader()
      requires out.Valid() && 1 <= level <= 9
      modifies out
      ensures out.Valid() && out.Written() == old(out.Written()) + HeaderBits(level)
    {
      hide Enc, Writer.Valid, Writer.Written;
      ghost var w := out.Written();
      Sender.PutChar(out, 0x42);
      Sender.PutChar(out, 0x5a);
      Sender.PutChar(out, 0x68);
      Sender.PutChar(out, 0x30 + level);
      BlockEncoder.FourAppended(w, Enc(8, 0x42), Enc(8, 0x5a), Enc(8, 0x68), Enc(8, 0x30 + level));
    }

    /** The block in hand, if it holds anything, is sent and joins the finished ones. */
    method PutBlock() returns (ghost added: bits)
      requires front.Holding() && front.level == level && front !in {out as object, this}
        && front.block as object != out
      requires out.Valid() && ValidBlocks(blocks, Limit(level)) && combinedCRC == CombinedCrc(blocks)
      modifies this`combinedCRC, this`blocks, out
      ensures out.Valid() && ValidBlocks(blocks, Limit(level)) && combinedCRC == CombinedCrc(blocks)
      ensures AllBytes(blocks) == old(AllBytes(blocks)) + Expand(front.pairs)
      ensures out.Written() == old(out.Written()) + added
      ensures BlocksBits(blocks, Limit(level)) == BlocksBits(old(blocks), Limit(level)) + added
      ensures |added| <= BlockSize.BitsAtMost(front.nblock) && Joined(old(blocks), blocks, front.nblock, front.pairs)
    {
      hide TableChoice.AllWithin, Covers, Fold, Encoded, Expand, Separate, Occurring, BlocksBits, AllBytes, CombinedCrc,
        ValidBlocks, BlockBits, Combine, ValidPlan, Writer.Valid, Writer.Written;
      if front.nblock > 0 {
        var crc := Finalise(front.blockCRC);
        OccurringCovers(front.block[..front.nblock]);
        combinedCRC := Combine(combinedCRC, crc);
        ghost var plan := BlockEncoder.SendBlock(out, front.block[..front.nblock], front.inUse, crc, workFactor);
        ghost var c := Coded(plan, front.pairs);
        BlocksSnoc(blocks, c, Limit(level));
        assert (blocks + [c])[..|blocks|] == blocks;
        blocks := blocks + [c];
        BlockSize.BlockLength(plan, crc);
        added := BlockBits(plan, crc);
      } else {
        assert front.pairs == [] by {
          if front.pairs != [] {
            PairsLeaveBytes(front.pairs);
          }
        }
        NoRuns();
        added := [];
        assert AllBytes(blocks) + [] == AllBytes(blocks) && out.Written() + [] == out.Written();
        assert BlocksBits(blocks, Limit(level)) + [] == BlocksBits(blocks, Limit(level));
      }
    }

    lemma {:induction false} PairsLeaveBytes(ps: seq<Pair>)
      requires Separate(ps) && ps != []
      ensures Encoded(ps) != []
    {
      assert ValidPair(ps[|ps| - 1]);
    }

    /** The end of the stream, filled up to a byte. */
    method PutTrailer()
      requires out.Valid()
      modifies out
      ensures FilledUp(OfBytes(out.zbits), old(out.Written()) + TrailerBits(combinedCRC)) && out.zbits != []
    {
      hide Enc, MarkBits, Writer.Valid, Writer.Written;
      ghost var w := out.Written();
      Sender.PutMark(out, END_MARK);
      out.PutWord(combinedCRC);
      assert w + MarkBits(END_MARK) + Enc(32, combinedCRC) == w + TrailerBits(combinedCRC);
      ghost var total := |out.Written()|;
      out.Finish();
      assert 8 * |out.zbits| - total < 8;
      assert OfBytes(out.zbits) == w + TrailerBits(combinedCRC) + Enc(8 * |out.zbits| - total, 0);
      FixedLengths(1, combinedCRC);
    }

    /** BZ2_compressBlock */
    method CompressBlock(last: bool)
      requires Apart() && !outputting && front.Holding() && front.level == level && 1 <= level <= 9 && blockNo >= 1
      requires out.Valid() && ValidBlocks(blocks, Limit(level)) && OfBytes(sent) + out.Written() == Begun()
      requires (blockNo == 1 ==> blocks == []) && combinedCRC == CombinedCrc(blocks)
      requires last == (mode.Finishing? && availInExpect == 0 && front.IsEmpty()) && !mode.Idle?
      requires out.zbits == [] && front.nblock <= Limit(level)
      modifies this`combinedCRC, this`blocks, this`outputting, out
      ensures outputting && BitsOk() && combinedCRC == CombinedCrc(blocks)
      ensures AllBytes(blocks) == old(AllBytes(blocks)) + Expand(front.pairs)
      ensures |out.zbits| + front.nblock <= 4 * (Limit(level) + 34)
      ensures Joined(old(blocks), blocks, front.nblock, front.pairs) && (last ==> out.zbits != [])
    {
      hide Joined, OfBytes, HeaderBits, BlocksBits, ValidBlocks, CombinedCrc, AllBytes, Expand, TrailerBits, Enc,
        Front.Holding, Writer.Valid;
      ghost var head := HeaderBits(level);
      ghost var was := BlocksBits(blocks, Limit(level));
      out.Lengths();
      FixedLengths(level, combinedCRC);
      if blockNo == 1 {
        NoBlocks(level, Limit(level));
        PutHeader();
      }
      assert OfBytes(sent) + out.Written() == head + was;
      ghost var w := out.Written();
      ghost var added := PutBlock();
      assert OfBytes(sent) + (w + added) == head + (was + added) by {
        Assoc(OfBytes(sent), w, added);
        Assoc(head, was, added);
      }
      ghost var all := out.Written();
      out.Lengths();
      if last {
        FixedLengths(level, combinedCRC);
        PutTrailer();
        AddTrailer(all);
        FilledLength(OfBytes(out.zbits), all + TrailerBits(combinedCRC));
      }
      BlockSize.FitsBehindBlock(front.nblock, level, |out.zbits|);
      outputting := true;
    }

    lemma {:induction false} NoBlocks(level: nat, limit: nat)
      ensures ValidBlocks([], limit) && HeaderBits(level) + BlocksBits([], limit) == HeaderBits(level)
    {
    }

    /** The bytes of a whole stream. */
    lemma {:induction false} AddTrailer(w: bits)
      requires ValidBlocks(blocks, Limit(level)) && combinedCRC == CombinedCrc(blocks)
      requires FilledUp(OfBytes(out.zbits), w + TrailerBits(combinedCRC))
      requires OfBytes(sent) + w == HeaderBits(level) + BlocksBits(blocks, Limit(level))
      ensures FilledUp(OfBytes(sent + out.zbits), StreamBits(level, blocks, Limit(level)))
    {
      hide OfBytes, HeaderBits, BlocksBits, ValidBlocks, CombinedCrc, TrailerBits, Enc;
      var t := TrailerBits(combinedCRC);
      var pad: nat :| pad < 8 && OfBytes(out.zbits) == w + t + Enc(pad, 0);
      OfBytesConcat(sent, out.zbits);
      assert OfBytes(sent) + (w + t + Enc(pad, 0)) == OfBytes(sent) + w + t + Enc(pad, 0);
    }

    /** prepare_new_block, once everything is given out. */
    method PrepareNewBlock()
      requires Valid() && outputting && !Ended() && stateOutPos == |out.zbits| && !mode.Idle?
      modifies this`sent, this`stateOutPos, this`blockNo, this`outputting, front, out
      ensures Valid() && !outputting && Emitted() == old(Emitted()) && front.pairs == [] && front.nblock == 0
      ensures front.stateInCh == old(front.stateInCh) && front.stateInLen == old(front.stateInLen) && blockNo > 1
    {
      hide Valid, Emitted, Ended, Front.Valid, Writer.Valid;
      ReadyForNew();
      sent := sent + out.zbits;
      out.Rewind();
      stateOutPos := 0;
      front.Clear();
      blockNo := blockNo + 1;
      outputting := false;
      NewBlockOk();
    }

    lemma {:induction false} ReadyForNew()
      requires Valid() && outputting && !Ended()
      ensures 1 <= front.level <= 9 && front.block.Length == 100_000 * front.level && out.Valid() && blockNo >= 1
      ensures front != out as object && front != this as object && out != this as object
      ensures if front.stateInCh == NO_CHAR then front.stateInLen == 0
              else front.stateInCh < 256 && 1 <= front.stateInLen <= 255
    {
      hide OfBytes, ValidBlocks, HeaderBits, BlocksBits, Writer.Valid, Conserved, Packed, RunsKept;
    }

    /** With the last block given out, the fields are those of a compressor with an empty block. */
    twostate lemma {:induction false} NewBlockOk()
      requires old(Valid()) && old(outputting) && !old(Ended()) && old(stateOutPos == |out.zbits|) && !mode.Idle?
      requires blocks == old(blocks) && consumed == old(consumed) && flushed == old(flushed) && mode == old(mode)
      requires availInExpect == old(availInExpect) && combinedCRC == old(combinedCRC)
      requires sent == old(sent) + old(out.zbits) && out.zbits == [] && out.Valid() && out.Written() == old(out.live)
      requires stateOutPos == 0 && blockNo == old(blockNo) + 1 && !outputting
      requires front.Valid() && front.pairs == [] && front.nblock == 0
      requires front.stateInCh == old(front.stateInCh) && front.stateInLen == old(front.stateInLen)
      ensures Valid() && Emitted() == old(Emitted())
    {
      hide RunsKept, Conserved, BitsOk, Front.Valid, OfBytes, Tight, Writer.Valid, CombinedCrc;
      var z := old(out.zbits);
      assert old(out.zbits[..stateOutPos]) == z && old(sent) + z + [] == old(sent) + z;
      RunsCleared();
      BitsCleared();
      HeldCleared();
    }

    twostate lemma {:induction false} BitsCleared()
      requires old(BitsOk()) && old(outputting) && !old(Ended()) && !outputting && blockNo > 1
      requires blocks == old(blocks) && sent == old(sent) + old(out.zbits) && out.Valid() && out.zbits == []
      requires out.Written() == old(out.live)
      ensures BitsOk()
    {
      hide OfBytes, ValidBlocks, HeaderBits, BlocksBits, Writer.Valid;
      OfBytesConcat(old(sent), old(out.zbits));
      Assoc(OfBytes(old(sent)), OfBytes(old(out.zbits)), old(out.live));
    }

    twostate lemma {:induction false} HeldCleared()
      requires old(Conserved()) && old(outputting) && !outputting && blocks == old(blocks) && consumed == old(consumed)
      requires front.pairs == []
      requires front.stateInCh == old(front.stateInCh) && front.stateInLen == old(front.stateInLen)
      ensures Conserved()
    {
      hide AllBytes;
      NoneTaken();
    }

    lemma {:induction false} NoneTaken()
      requires front.pairs == []
      ensures front.Taken() == front.Pending()
    {
    }

    /** The runs in hand, read off. */
    lemma {:induction false} HandIs()
      requires RunsKept()
      ensures !outputting && !flushed ==>
        RunsOf(consumed) == AllPairs(blocks) + front.Runs() && front.Runs() == front.pairs + front.Rest()
    {
      hide RunsOf, AllPairs;
    }

    lemma {:induction false} NoRest()
      requires front.stateInCh >= 256
      ensures front.pairs + front.Rest() == front.pairs
    {
    }

    /** A new block begins with the pending run only. */
    twostate lemma {:induction false} RunsCleared()
      requires old(RunsKept()) && old(outputting) && !outputting && front.pairs == []
      requires blocks == old(blocks) && consumed == old(consumed) && flushed == old(flushed)
      requires front.stateInCh == old(front.stateInCh) && front.stateInLen == old(front.stateInLen)
      requires front.stateInCh == NO_CHAR ==> flushed
      ensures RunsKept()
    {
      hide RunsOf, AllPairs;
      assert front.Runs() == front.Rest() == old(front.Rest());
    }

    /** The runs of the block have gone from those in hand to those in blocks. */
    lemma {:induction false} RunsJoined(cs: seq<Coded>)
      requires outputting && Joined(cs, blocks, front.nblock, front.pairs)
      requires !flushed ==> RunsOf(consumed) == AllPairs(cs) + (front.pairs + front.Rest())
      ensures RunsKept()
    {
      hide Joined, RunsOf;
      PairsJoined(cs, blocks, front.nblock, front.pairs);
    }

    /** How much input this call may still take. */
    predicate Expecting(input: seq<byte>, used: nat)
      reads this`mode, this`availInExpect
    {
      used <= |input| && (!mode.Running? ==> availInExpect == |input| - used)
    }

    /** copy_input_until_stop */
    method CopyInput(input: seq<byte>, used0: nat) returns (used: nat, progress: bool)
      requires Valid() && !outputting && Expecting(input, used0) && !mode.Idle?
      modifies this`availInExpect, this`consumed, front, front.block
      ensures Valid() && !outputting && Expecting(input, used) && used0 <= used && progress == (used0 < used)
      ensures consumed == old(consumed) + input[used0..used] && Emitted() == old(Emitted())
      ensures used == |input| || front.nblock >= front.nblockMAX
      ensures used0 < used ==> !front.IsEmpty()
      ensures used == used0 ==> front.nblock == old(front.nblock)
    {
      hide Tight, BitsOk, Front.Holding, AllBytes, Conserved;
      used, progress := used0, false;
      assert input[used0..used0] == [];
      while front.nblock < front.nblockMAX && used < |input| && (mode.Running? || availInExpect > 0)
        invariant Valid() && !outputting && Expecting(input, used) && !mode.Idle? && used0 <= used
          && progress == (used0 < used)
        invariant consumed == old(consumed) + input[used0..used] && Emitted() == old(Emitted())
        invariant used0 < used ==> !front.IsEmpty()
        invariant used == used0 ==> front.nblock == old(front.nblock)
        decreases |input| - used
      {
        progress := true;
        CopyOne(input[used]);
        assert input[used0..used] + [input[used]] == input[used0..used + 1];
        used := used + 1;
      }
    }

    /** One more byte, and the runs in hand take it. */
    lemma {:induction false} RunsMore(c: byte)
      requires RunsKept() && !flushed && !outputting && front.Valid()
      ensures ValidPairs(front.Runs()) && RunsOf(consumed + [c]) == AllPairs(blocks) + Grown(front.Runs(), c)
    {
      hide Front.Holding, Grown, RunsOf;
      RunsSnoc(consumed, c);
      assert forall p :: p in front.Runs() ==> p in RunsOf(consumed);
      assert forall p :: p in AllPairs(blocks) ==> p in RunsOf(consumed);
      GrownBehind(AllPairs(blocks), front.Runs(), c);
    }

    method CopyOne(c: byte)
      requires Valid() && !outputting && front.nblock < front.nblockMAX && !mode.Idle?
        && (!mode.Running? ==> availInExpect > 0)
      modifies this`availInExpect, this`consumed, front, front.block
      ensures Valid() && !outputting && consumed == old(consumed) + [c] && Emitted() == old(Emitted())
        && !front.IsEmpty()
      ensures availInExpect == if mode.Running? then old(availInExpect) else old(availInExpect) - 1
    {
      hide RunsOf, AllPairs, Grown, Tight, OfBytes, HeaderBits, BlocksBits, ValidBlocks, CombinedCrc, AllBytes,
        StreamBits, Enc, Front.Holding, Writer.Valid, Front.Taken;
      assert AllBytes(blocks) + front.Taken() + [c] == AllBytes(blocks) + (front.Taken() + [c]);
      if !flushed {
        RunsMore(c);
      }
      front.AddChar(c);
      if !mode.Running? {
        availInExpect := availInExpect - 1;
      }
      consumed := consumed + [c];
    }

    /** copy_output_until_stop */
    method CopyOutput(room: nat) returns (given: seq<byte>)
      requires Valid()
      modifies this`stateOutPos
      ensures Valid() && |given| <= room && Emitted() == old(Emitted()) + given
      ensures |given| == room || stateOutPos == |out.zbits|
    {
      hide Packed, BitsOk, FrontOk, Conserved;
      given := [];
      while |given| < room && stateOutPos < |out.zbits|
        invariant Valid() && |given| <= room && Emitted() == old(Emitted()) + given
        decreases |out.zbits| - stateOutPos
      {
        ghost var z := out.zbits[stateOutPos];
        assert out.zbits[..stateOutPos] + [z] == out.zbits[..stateOutPos + 1];
        Assoc(sent, out.zbits[..stateOutPos], [z]);
        Assoc(old(Emitted()), given, [z]);
        given := given + [out.zbits[stateOutPos]];
        stateOutPos := stateOutPos + 1;
      }
    }

    /** The output half of the loop: true when the call is over. */
    method OutputPart(room: nat) returns (stop: bool, given: seq<byte>)
      requires Valid() && outputting && !mode.Idle?
      modifies this`sent, this`stateOutPos, this`blockNo, this`outputting, front, out
      ensures Valid() && |given| <= room && Emitted() == old(Emitted()) + given
      ensures outputting ==> stop && (stateOutPos < |out.zbits| || Ended())
      ensures outputting && stateOutPos < |out.zbits| ==> |given| == room
      ensures stop && !outputting ==> mode.Flushing? && availInExpect == 0 && front.IsEmpty()
      ensures !stop ==>
        !outputting && front.nblock == 0 && (mode.Running? || availInExpect > 0 || !front.IsEmpty()) && !mode.Idle?
      ensures if outputting then Left() == old(Left()) - |given| else blockNo > 1
      ensures old(Owing()) && given == [] ==> Owing()
      ensures front.stateInCh == old(front.stateInCh) && front.stateInLen == old(front.stateInLen)
    {
      hide Packed, BitsOk, FrontOk, Conserved;
      given := CopyOutput(room);
      if stateOutPos < |out.zbits| {
        return true, given;
      }
      if mode.Finishing? && availInExpect == 0 && front.IsEmpty() {
        return true, given;
      }
      PrepareNewBlock();
      stop := mode.Flushing? && availInExpect == 0 && front.IsEmpty();
      OutputEmpty();
    }

    lemma {:induction false} OutputEmpty()
      requires Valid()
      ensures outputting && front.IsEmpty() ==> !mode.Running? && availInExpect == 0
    {
    }

    /** The pending run joins the block, and the block is compressed: a flush or the finish. */
    method CloseBlock()
      requires Valid() && !outputting && !mode.Running? && !mode.Idle? && availInExpect == 0
      modifies this`combinedCRC, this`blocks, this`outputting, front, front.block, out
      ensures Valid() && outputting && front.IsEmpty() && stateOutPos == 0 && Emitted() == old(Emitted())
      ensures Ended() ==> out.zbits != []
    {
      hide RunsKept, RunsOf, AllPairs, Front.Runs, Front.Rest, Joined, Tight, OfBytes, HeaderBits, BlocksBits,
        ValidBlocks, CombinedCrc, AllBytes, StreamBits, Enc, Writer.Valid, Separate, Occurring, Encoded, Fold, Expand;
      HandIs();
      front.FlushRun();
      NoRest();
      ghost var cs := blocks;
      CompressBlock(mode.Finishing?);
      RunsJoined(cs);
      TightJoined(cs, blocks, front.nblock, front.pairs, if flushed then 0 else |cs|, Limit(level) - 19);
      assert AllBytes(blocks) + [] == AllBytes(blocks);
    }

    /** The block is full: compressed with the last run still pending. */
    method FullBlock()
      requires Valid() && !outputting && front.nblock >= front.nblockMAX && (mode.Running? || availInExpect > 0)
        && !mode.Idle?
      modifies this`combinedCRC, this`blocks, this`outputting, out
      ensures Valid() && outputting && !front.IsEmpty() && stateOutPos == 0 && Emitted() == old(Emitted())
    {
      hide RunsKept, RunsOf, AllPairs, Front.Runs, Front.Rest, Joined, Tight, OfBytes, HeaderBits, BlocksBits,
        ValidBlocks, CombinedCrc, AllBytes, StreamBits, Enc, Writer.Valid, Separate, Occurring, Encoded, Fold, Expand;
      FullHasRun();
      HandIs();
      Assoc(AllBytes(blocks), Expand(front.pairs), front.Pending());
      ghost var cs := blocks;
      CompressBlock(false);
      RunsJoined(cs);
      TightJoined(cs, blocks, front.nblock, front.pairs, if flushed then 0 else |cs|, Limit(level) - 19);
    }

    lemma {:induction false} FullHasRun()
      requires Valid() && !outputting && front.nblock >= front.nblockMAX
      ensures front.stateInCh < 256 && front.stateInLen > 0
    {
      NoPairs();
    }

    /** The input half of the loop: true when the call is over. */
    method InputPart(input: seq<byte>, used0: nat) returns (stop: bool, used: nat)
      requires Valid() && !outputting && Expecting(input, used0) && !mode.Idle?
      modifies this`availInExpect, this`consumed, this`combinedCRC, this`blocks, this`outputting, front, front.block,
        out
      ensures Valid() && Expecting(input, used) && used0 <= used && Emitted() == old(Emitted())
      ensures consumed == old(consumed) + input[used0..used]
      ensures outputting ==> !stop && stateOutPos == 0
      ensures stop ==> !outputting && used == |input| && mode.Running?
      ensures used == used0 ==> used0 == |input| || old(front.nblock) >= front.nblockMAX
      ensures !stop ==> outputting && (used == used0 ==> old(front.nblock) >= front.nblockMAX || front.IsEmpty())
      ensures !stop && front.IsEmpty() ==> !mode.Running? && availInExpect == 0
      ensures Owing()
    {
      hide Valid, Emitted;
      var progress;
      used, progress := CopyInput(input, used0);
      if !mode.Running? && availInExpect == 0 {
        CloseBlock();
        stop := false;
      } else if front.nblock >= front.nblockMAX {
        FullBlock();
        stop := false;
      } else {
        stop := true;
      }
    }

    /** Where the loop stands, when no more input is taken: blocks still to be closed and given out. */
    function Rank(): nat
      reads this`outputting, this.front`stateInCh, this.front`stateInLen
    {
      if !outputting then 3 else if !front.IsEmpty() then 2 else 1
    }

    /** One turn of the loop. */
    method HandleOnce(input: seq<byte>, used0: nat, room: nat) returns (more: bool, used: nat, given: seq<byte>)
      requires Valid() && Expecting(input, used0) && !mode.Idle?
      modifies this`availInExpect, this`consumed, this`combinedCRC, this`blocks, this`outputting, this`sent,
        this`stateOutPos, this`blockNo
      modifies front, front.block, out
      ensures Valid() && Expecting(input, used) && used0 <= used && |given| <= room
      ensures consumed == old(consumed) + input[used0..used] && Emitted() == old(Emitted()) + given
      ensures !more ==> if outputting then stateOutPos < |out.zbits| || Ended() else !mode.Finishing?
      ensures !more && outputting && stateOutPos < |out.zbits| ==> |given| == room
      ensures used == used0 ==> used0 == |input| || old(outputting || front.nblock >= front.nblockMAX)
      ensures more ==> used > used0 || Rank() < old(Rank())
      ensures !more && outputting && used == used0 ==> Rank() == old(Rank()) && Left() == old(Left()) - |given|
      ensures !more && !outputting ==> if mode.Running? then used == |input|
        else availInExpect == 0 && front.IsEmpty() && blockNo > 1
      ensures old(Owing()) && given == [] ==> Owing()
    {
      hide Valid, Emitted, Ended, Owing;
      more, used, given := true, used0, [];
      assert input[used0..used] == [];
      OutputEmpty();
      ghost var e := Emitted();
      if outputting {
        var stop;
        stop, given := OutputPart(room);
        if stop {
          return false, used, given;
        }
      } else {
        assert e + [] == e;
      }
      var stop;
      FullIsFull();
      stop, used := InputPart(input, used0);
      more := !stop;
    }

    lemma {:induction false} FullIsFull()
      requires Valid()
      ensures front.nblockMAX > 0
    {
    }

    /** handle_compress */
    method HandleCompress(input: seq<byte>, availOut: nat) returns (used: nat, produced: seq<byte>)
      requires Valid() && Expecting(input, 0) && !mode.Idle?
      modifies this, front, front.block, out
      ensures Valid() && Expecting(input, used) && |produced| <= availOut && mode == old(mode)
      ensures consumed == old(consumed) + input[..used] && Emitted() == old(Emitted()) + produced
      ensures if outputting then stateOutPos < |out.zbits| || Ended() else !mode.Finishing?
      ensures outputting && stateOutPos < |out.zbits| ==> |produced| == availOut
      ensures used == 0 ==> input == [] || old(outputting || front.nblock >= front.nblockMAX)
      ensures used == 0 && outputting ==>
        Rank() < old(Rank()) || (Rank() == old(Rank()) && Left() == old(Left()) - |produced|)
      ensures !outputting ==> if mode.Running? then used == |input|
        else availInExpect == 0 && front.IsEmpty() && blockNo > 1
      ensures old(Owing()) && produced == [] ==> Owing()
      ensures flushed == old(flushed)
    {
      hide Valid, Emitted, Ended, Owing;
      used, produced := 0, [];
      ghost var first := true;
      var more := true;
      Start();
      while more
        invariant Valid() && Expecting(input, used) && |produced| <= availOut && mode == old(mode)
        invariant consumed == old(consumed) + input[..used] && Emitted() == old(Emitted()) + produced
        invariant !more ==> if outputting then stateOutPos < |out.zbits| || Ended() else !mode.Finishing?
        invariant !more && outputting && stateOutPos < |out.zbits| ==> |produced| == availOut
        invariant if first then more && used == 0 && outputting == old(outputting) && front.nblock == old(front.nblock)
                  else used == 0 ==> input == [] || old(outputting || front.nblock >= front.nblockMAX)
        invariant first ==> produced == [] && Rank() == old(Rank()) && Left() == old(Left())
        invariant more && !first && used == 0 ==> Rank() < old(Rank())
        invariant !more && used == 0 && outputting ==>
          Rank() < old(Rank()) || (Rank() == old(Rank()) && Left() == old(Left()) - |produced|)
        invariant !more && !outputting ==> if mode.Running? then used == |input|
          else availInExpect == 0 && front.IsEmpty() && blockNo > 1
        invariant old(Owing()) && produced == [] ==> Owing()
        invariant flushed == old(flushed)
        decreases more, |input| - used, Rank()
      {
        first := false;
        ghost var had := used;
        var given;
        more, used, given := HandleOnce(input, used, availOut - |produced|);
        produced := produced + given;
        assert input[..had] + input[had..used] == input[..used];
      }
    }

    lemma {:induction false} Start()
      requires Valid()
      ensures stateOutPos <= |out.zbits| && Emitted() + [] == Emitted()
    {
    }

    /** All that was taken in is in blocks given out whole: as the source announces the end of a stream. */
    ghost predicate StreamDone()
      reads this`mode, this`blocks, this`consumed, this`sent, this`stateOutPos, out
    {
      && mode == Idle && ValidBlocks(blocks, Limit(level)) && consumed == AllBytes(blocks)
      && FilledUp(OfBytes(Emitted()), StreamBits(level, blocks, Limit(level)))
    }

    /** All that was taken in is in blocks, and these are given out but for the bits in the bit buffer. */
    ghost predicate FlushedOut()
      reads this`mode, this`blocks, this`consumed, this`sent, this`stateOutPos, out
    {
      && mode == Running && ValidBlocks(blocks, Limit(level)) && consumed == AllBytes(blocks) && |out.live| <= 32
      && OfBytes(Emitted()) + out.live == HeaderBits(level) + BlocksBits(blocks, Limit(level))
    }

    /** FLUSH and FINISH, once begun, must be asked for again, with just the input they have left. */
    predicate Takes(action: Action, input: seq<byte>)
      reads this`mode, this`availInExpect
    {
      match mode
      case Idle => false
      case Running => true
      case Flushing => action.FlushAction? && availInExpect == |input|
      case Finishing => action.FinishAction? && availInExpect == |input|
    }

    /**
     * BZ2_bzCompress: one call. Whatever the splits of input and output, what is taken in
     * stays accounted for; and when the stream ends, what has been given out is a stream
     * of blocks that stand for all that was taken in.
     */
    method BzCompress(action: Action, input: seq<byte>, availOut: nat)
      returns (code: Code, used: nat, produced: seq<byte>)
      requires Valid()
      modifies this, front, front.block, out
      ensures Valid() && used <= |input| && |produced| <= availOut
      ensures consumed == old(consumed) + input[..used] && Emitted() == old(Emitted()) + produced
      ensures flushed == (old(flushed) || (old(mode) == Running && action.FlushAction?))
      // out of turn
      ensures !old(Takes(action, input)) ==> code == SequenceError && used == 0 && produced == [] && mode == old(mode)
      ensures old(Takes(action, input)) ==> Expecting(input, used)
      // RUN
      ensures old(Takes(action, input)) && action.RunAction? ==>
        mode == Running && code == if used > 0 || produced != [] then RunOk else ParamError
      ensures code == ParamError ==> input == [] || availOut == 0
      // FLUSH
      ensures old(Takes(action, input)) && action.FlushAction? ==>
                if mode == Running then code == RunOk && FlushedOut() && used == |input|
                else mode == Flushing && code == FlushOk && |produced| == availOut
      // FINISH
      ensures old(Takes(action, input)) && action.FinishAction? ==>
                code == if mode == Idle then BzStreamEnd
                  else if used > 0 || produced != [] then FinishOk else SequenceError
      ensures code == BzStreamEnd <==> mode == Idle && old(mode) != Idle
      ensures code == BzStreamEnd ==> StreamDone() && used == |input|
      ensures old(Takes(action, input)) && action.FinishAction? && old(mode == Running || Owing()) && mode != Idle ==>
                mode == Finishing && |produced| == availOut && Left() > 0
      ensures old(Takes(action, input)) && action.FinishAction? && used == 0 && mode != Idle ==>
                Rank() < old(Rank()) || (Rank() == old(Rank()) && Left() == old(Left()) - |produced|)
      ensures old(mode) == Running && action.FinishAction? && used == 0 ==>
        input == [] || old(outputting || front.nblock >= front.nblockMAX)
    {
      hide Valid, Emitted, StreamDone, FlushedOut, Ended, Owing, Left, Rank;
      used, produced := 0, [];
      Start();
      assert input[..0] == [];
      match mode
      case Idle => code := SequenceError;
      case Running =>
        if action.RunAction? {
          used, produced := HandleCompress(input, availOut);
          NotEnded();
          code := if used > 0 || produced != [] then RunOk else ParamError;
        } else if action.FlushAction? {
          ChangeMode(Flushing, |input|);
          code, used, produced := Flush(input, availOut);
        } else {
          ChangeMode(Finishing, |input|);
          code, used, produced := Finish(input, availOut);
        }
      case Flushing =>
        if !action.FlushAction? || availInExpect != |input| {
          code := SequenceError;
        } else {
          code, used, produced := Flush(input, availOut);
        }
      case Finishing =>
        if !action.FinishAction? || availInExpect != |input| {
          code := SequenceError;
        } else {
          code, used, produced := Finish(input, availOut);
        }
    }

    lemma {:induction false} NotEnded()
      ensures Ended() ==> mode.Finishing? || mode.Idle?
    {
    }

    lemma {:induction false} LessTight(cs: seq<Coded>, m: int, full: int)
      ensures Tight(cs, m, full) ==> Tight(cs, 0, full) && Tight(cs, m - 1, full)
    {
    }

    method ChangeMode(m: Mode, due: nat)
      requires Valid() && mode.Running? && (m.Flushing? || m.Finishing?)
      modifies this`mode, this`availInExpect, this`flushed
      ensures Valid() && mode == m && availInExpect == due && Emitted() == old(Emitted())
        && flushed == (old(flushed) || m.Flushing?)
      ensures Rank() == old(Rank()) && Left() == old(Left()) && Owing()
    {
      hide RunsOf, AllPairs, InHand, Grown, Tight, OfBytes, HeaderBits, BlocksBits, ValidBlocks, CombinedCrc, AllBytes,
        StreamBits, Enc, Writer.Valid, Separate, Occurring, Encoded, Fold, Expand;
      mode, availInExpect := m, due;
      flushed := flushed || m.Flushing?;
      LessTight(blocks, |blocks|, Limit(level) - 19);
    }

    method Flush(input: seq<byte>, availOut: nat) returns (code: Code, used: nat, produced: seq<byte>)
      requires Valid() && mode.Flushing? && availInExpect == |input|
      modifies this, front, front.block, out
      ensures Valid() && used <= |input| && |produced| <= availOut && (mode == Flushing || mode == Running)
      ensures consumed == old(consumed) + input[..used] && Emitted() == old(Emitted()) + produced
      ensures if mode == Flushing then code == FlushOk && |produced| == availOut
        else code == RunOk && FlushedOut() && used == |input|
      ensures Expecting(input, used) && flushed == old(flushed)
    {
      hide Valid, Emitted, FlushedOut, Left;
      used, produced := HandleCompress(input, availOut);
      if availInExpect > 0 || !front.IsEmpty() || stateOutPos < |out.zbits| {
        NotBetween();
        code := FlushOk;
      } else {
        FlushDone();
        code := RunOk;
      }
    }

    lemma {:induction false} NotBetween()
      requires Valid()
      ensures !outputting ==> stateOutPos >= |out.zbits|
    {
    }

    method FlushDone()
      requires Valid() && mode.Flushing? && !outputting && availInExpect == 0 && front.IsEmpty() && blockNo > 1
      modifies this`mode
      ensures Valid() && mode == Running && Emitted() == old(Emitted()) && FlushedOut()
    {
      hide Tight, OfBytes, HeaderBits, BlocksBits, ValidBlocks, CombinedCrc, AllBytes, StreamBits, Enc, Writer.Valid,
        Separate, Occurring, Encoded, Fold;
      mode := Running;
      AllBlocked();
      out.Lengths();
      OfBytesConcat(sent, []);
      assert sent + [] == sent && OfBytes(sent) + (OfBytes([]) + out.live) == OfBytes(sent) + OfBytes([]) + out.live;
    }

    /** Nothing pending, and nothing in hand: with no run pending the block holds no pairs. */
    lemma {:induction false} AllBlocked()
      requires Valid() && !outputting && front.IsEmpty()
      ensures consumed == AllBytes(blocks)
    {
      hide Tight, BitsOk, AllBytes;
      NoRuns();
      assert AllBytes(blocks) + [] == AllBytes(blocks);
    }

    method Finish(input: seq<byte>, availOut: nat) returns (code: Code, used: nat, produced: seq<byte>)
      requires Valid() && mode.Finishing? && availInExpect == |input|
      modifies this, front, front.block, out
      ensures Valid() && used <= |input| && |produced| <= availOut && (mode == Finishing || mode == Idle)
      ensures consumed == old(consumed) + input[..used] && Emitted() == old(Emitted()) + produced
      ensures code == if mode == Idle then BzStreamEnd
        else if used > 0 || produced != [] then FinishOk else SequenceError
      ensures mode == Idle ==> StreamDone() && used == |input|
      ensures old(Owing()) && mode != Idle ==> |produced| == availOut && Left() > 0
      ensures used == 0 && mode != Idle ==>
        Rank() < old(Rank()) || (Rank() == old(Rank()) && Left() == old(Left()) - |produced|)
      ensures used == 0 ==> input == [] || old(outputting || front.nblock >= front.nblockMAX)
      ensures Expecting(input, used) && flushed == old(flushed)
    {
      hide Valid, Emitted, StreamDone;
      used, produced := HandleCompress(input, availOut);
      if used == 0 && produced == [] {
        code := SequenceError;
      } else if availInExpect > 0 || !front.IsEmpty() || stateOutPos < |out.zbits| {
        code := FinishOk;
      } else {
        OutputOrNot();
        FinishDone();
        code := BzStreamEnd;
      }
    }

    /** FINISH never stops between blocks. */
    lemma {:induction false} OutputOrNot()
      requires Valid()
      ensures stateOutPos <= |out.zbits|
    {
    }

    method FinishDone()
      requires Valid() && mode.Finishing? && Ended() && stateOutPos == |out.zbits|
      modifies this`mode
      ensures Valid() && mode == Idle && Emitted() == old(Emitted()) && StreamDone()
    {
      hide Tight, OfBytes, HeaderBits, BlocksBits, ValidBlocks, CombinedCrc, AllBytes, StreamBits, Enc, Writer.Valid,
        Separate, Occurring, Encoded, Fold, Expand;
      mode := Idle;
      assert out.zbits[..stateOutPos] == out.zbits;
      assert AllBytes(blocks) + [] == AllBytes(blocks);
    }

    /**
     * BZ2_bzWriteClose: FINISH again and again, with some room each time. No call is refused,
     * and the stream comes to its end.
     */
    method WriteClose(input: seq<byte>, room: nat) returns (written: seq<byte>)
      requires Valid() && mode.Running? && room > 0
      modifies this, front, front.block, out
      ensures Valid() && StreamDone() && consumed == old(consumed) + input && Emitted() == old(Emitted()) + written
    {
      hide Valid, Emitted, StreamDone, Rank, Ended;
      var rest, code, used, produced := input, FinishOk, 0, [];
      written := [];
      Start();
      assert input[..0] == [];
      while code.FinishOk?
        invariant Valid() && |rest| <= |input| && rest == input[|input| - |rest|..]
        invariant code.FinishOk? ==> Takes(FinishAction, rest) && (mode == Running || Owing())
        invariant code.FinishOk? || (code.BzStreamEnd? && StreamDone() && rest == [])
        invariant consumed == old(consumed) + input[..|input| - |rest|] && Emitted() == old(Emitted()) + written
        decreases code.FinishOk?, |rest|, Rank(), Left()
      {
        OutputOrNot();
        ghost var taken := |input| - |rest|;
        code, used, produced := BzCompress(FinishAction, rest, room);
        written := written + produced;
        TakeMore(input, taken, used);
        rest := rest[used..];
      }
      TakeMore(input, |input|, 0);
    }
  }

  /** A first part, and what is taken next. */
  lemma {:induction false} TakeMore<T>(s: seq<T>, n: nat, k: nat)
    requires n + k <= |s|
    ensures s[..n] + s[n..][..k] == s[..n + k] && s[n..][k..] == s[n + k..]
    ensures n == |s| ==> s[..n] == s
  {
  }
}
