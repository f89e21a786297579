/**
 * What a compressor that stopped for want of room has given out is a first part of a stream
 * of all its input; and without a flush the streams begun and finished are packed, which
 * bounds their length.
 */
module Completion {
  import opened Prelude
  import opened Bits
  import opened Decompress
  import opened BlockFormat
  import opened RoundTrip
  import opened EndToEnd
  import RunLength
  import InputRuns
  import Packing
  import StreamSize
  import Compressor

  // ----- from bits back to bytes

  /** The bytes of a bit string of whole bytes. */
  function ToBytes(b: bits): (s: seq<byte>)
    requires |b| % 8 == 0
    decreases |b|
  {
    if b == [] then []
    else
      EncVal(b[|b| - 8..]);
      EightBits();
      ToBytes(b[..|b| - 8]) + [Val(b[|b| - 8..])]
  }

  lemma {:induction false} EightBits()
    ensures Pow2(8) == 256
  {
    assert Pow2(4) == 16;
  }

  lemma {:induction false} ToBytesOf(b: bits)
    requires |b| % 8 == 0
    ensures OfBytes(ToBytes(b)) == b
    decreases |b|
  {
    hide Enc, Val, OfBytes, Pow2;
    if b == [] {
      OfNothing();
    } else {
      var last := b[|b| - 8..];
      ToBytesOf(b[..|b| - 8]);
      EncVal(last);
      EightBits();
      OfBytesSnoc(ToBytes(b[..|b| - 8]), Val(last));
      assert b == b[..|b| - 8] + last;
    }
  }

  /** Bytes whose bits begin other bytes' bits begin those bytes. */
  lemma {:induction false} PrefixOfBytes(e: seq<byte>, s: seq<byte>)
    requires OfBytes(e) <= OfBytes(s)
    ensures e <= s
  {
    hide Enc, OfBytes, Pow2;
    if e != [] {
      var m := |e| - 1;
      var e', c := e[..m], e[m];
      OfBytesSnoc(e', c);
      assert e == e' + [c];
      assert OfBytes(e') <= OfBytes(s);
      PrefixOfBytes(e', s);
      OfBytesConcat(s[..m], s[m..]);
      assert s == s[..m] + s[m..];
      OfBytesConcat([s[m]], s[m + 1..]);
      assert s[m..] == [s[m]] + s[m + 1..];
      OfBytesSnoc([], s[m]);
      OfNothing();
      assert [] + [s[m]] == [s[m]];
      assert s[..m] == e';
      assert OfBytes(s)[8 * m..8 * m + 8] == Enc(8, s[m]);
      assert OfBytes(e)[8 * m..8 * m + 8] == Enc(8, c);
      assert OfBytes(e) == OfBytes(s)[..8 * m + 8];
      assert OfBytes(e)[8 * m..8 * m + 8] == OfBytes(s)[8 * m..8 * m + 8];
      assert Enc(8, c) == Enc(8, s[m]);
      EightBits();
      ValEnc(8, c);
      ValEnc(8, s[m]);
      assert c == s[m];
      assert e == s[..m] + [s[m]] == s[..m + 1];
    }
  }

  // ----- the stream that goes on from what was given out

  lemma {:induction false} GoesOn(e: seq<byte>, more: bits, level: nat, cs: seq<Coded>, qs: seq<RunLength.Pair>)
    returns (s: seq<byte>, all: seq<Coded>)
    requires 1 <= level <= 9 && ValidBlocks(cs, Compressor.Limit(level)) && RunLength.Separate(qs)
    requires OfBytes(e) + more == HeaderBits(level) + BlocksBits(cs, Compressor.Limit(level))
    ensures IsStream(s, level, all) && AllBytes(all) == AllBytes(cs) + RunLength.Expand(qs) && e <= s && |e| < |s|
    ensures AllPairs(all) == AllPairs(cs) + qs
    ensures Compressor.Tight(cs, |cs|, Compressor.Limit(level) - 19) ==>
              Compressor.Tight(all, |all| - 1, Compressor.Limit(level) - 19)
  {
    hide OfBytes, HeaderBits, BlocksBits, ValidBlocks, AllBytes, AllPairs, TrailerBits, Enc, ToBytes, CombinedCrc,
      Compressor.Tight, RunLength.Expand, RunLength.Separate;
    var limit := Compressor.Limit(level);
    all := Packing.Packed(cs, qs, level);
    var whole := StreamBits(level, all, limit);
    var begun := HeaderBits(level) + BlocksBits(cs, limit);
    assert begun <= whole;
    var pad: nat := (8 - |whole| % 8) % 8;
    var b := whole + Enc(pad, 0);
    s := ToBytes(b);
    ToBytesOf(b);
    assert OfBytes(e) <= begun;
    PrefixOfBytes(e, s);
    Compressor.FixedLengths(level, CombinedCrc(all));
    assert |whole| >= |begun| + 80;
  }

  // ----- the runs that are left

  /** The runs of the source and no others, in blocks that are full but for the last one. */
  ghost predicate Packed(cs: seq<Coded>, source: seq<byte>, level: nat) {
    AllPairs(cs) == InputRuns.RunsOf(source) && Compressor.Tight(cs, |cs| - 1, Compressor.Limit(level) - 19)
  }

  lemma {:induction false} BytesOfPairs(cs: seq<Coded>)
    ensures AllBytes(cs) == RunLength.Expand(AllPairs(cs))
  {
    hide RunLength.Expand;
    if cs == [] {
      InputRuns.NoRuns();
    } else {
      BytesOfPairs(cs[..|cs| - 1]);
      Packing.ExpandConcat(AllPairs(cs[..|cs| - 1]), cs[|cs| - 1].pairs);
    }
  }

  /** What the blocks still lack of the source. */
  lemma {:induction false} RunsLeft(cs: seq<Coded>, source: seq<byte>) returns (qs: seq<RunLength.Pair>)
    requires AllPairs(cs) <= InputRuns.RunsOf(source)
    ensures RunLength.Separate(qs) && AllPairs(cs) + qs == InputRuns.RunsOf(source)
    ensures AllBytes(cs) + RunLength.Expand(qs) == source
  {
    hide RunLength.Expand, RunLength.Separate, AllPairs, AllBytes, InputRuns.RunsOf;
    var ps, all := AllPairs(cs), InputRuns.RunsOf(source);
    qs := all[|ps|..];
    InputRuns.RunsSeparate(source);
    Packing.SeparateParts(all, |ps|);
    BytesOfPairs(cs);
    assert all == ps + qs;
    Packing.ExpandConcat(ps, qs);
  }

  // ----- a compressor that ran out of room

  /**
   * What it has given out is a proper first part of a stream of what it took in and of the
   * rest, packed if no flush was asked for.
   */
  lemma {:induction false} StoppedShort(c: Compressor.Compressor, rest: seq<byte>)
    returns (s: seq<byte>, cs: seq<Coded>)
    requires c.Valid() && c.mode.Finishing? && c.availInExpect == |rest| && c.Left() > 0
    ensures IsStream(s, c.level, cs) && AllBytes(cs) == c.consumed + rest && c.Emitted() <= s && |c.Emitted()| < |s|
    ensures !c.flushed ==> Packed(cs, c.consumed + rest, c.level)
  {
    hide IsStream, AllBytes, AllPairs, Packed;
    if c.Ended() {
      s, cs := c.sent + c.out.zbits, c.blocks;
      EndedStream(c);
      EndedShort(c);
      assert c.consumed + rest == c.consumed;
      if !c.flushed {
        FinishedPacked(c);
      }
    } else {
      s, cs := BrokenOff(c, rest);
    }
  }

  lemma {:induction false} EndedShort(c: Compressor.Compressor)
    requires c.Valid() && c.Ended() && c.Left() > 0
    ensures c.Emitted() < c.sent + c.out.zbits && c.availInExpect == 0 && AllBytes(c.blocks) == c.consumed
  {
    hide AllBytes, Compressor.Compressor.BitsOk, Compressor.Compressor.Packed, Compressor.Compressor.RunsKept;
    var z := c.out.zbits;
    assert z == z[..c.stateOutPos] + z[c.stateOutPos..];
    assert c.sent + z == c.Emitted() + z[c.stateOutPos..];
    assert AllBytes(c.blocks) + [] == AllBytes(c.blocks);
  }

  /** Stopped before the end of the stream was written. */
  lemma {:induction false} BrokenOff(c: Compressor.Compressor, rest: seq<byte>)
    returns (s: seq<byte>, cs: seq<Coded>)
    requires c.Valid() && c.mode.Finishing? && c.availInExpect == |rest| && c.Left() > 0 && !c.Ended()
    ensures IsStream(s, c.level, cs) && AllBytes(cs) == c.consumed + rest && c.Emitted() < s
    ensures !c.flushed ==> Packed(cs, c.consumed + rest, c.level)
  {
    hide OfBytes, HeaderBits, BlocksBits, ValidBlocks, AllBytes, AllPairs, StreamBits, Enc, Compressor.Tight, IsStream,
      InputRuns.RunsOf, RunLength.Expand, RunLength.Separate, Compressor.Compressor.RunsKept,
        Compressor.Compressor.Conserved;
    var z, e := c.out.zbits, c.Emitted();
    var later := z[c.stateOutPos..];
    assert z == z[..c.stateOutPos] + later;
    assert c.sent + z == e + later;
    OfBytesConcat(c.sent, z);
    OfBytesConcat(e, later);
    RunLength.Assoc(OfBytes(c.sent), OfBytes(z), c.out.live);
    RunLength.Assoc(OfBytes(e), OfBytes(later), c.out.live);
    var qs := LeftOver(c, rest);
    s, cs := GoesOn(e, OfBytes(later) + c.out.live, c.level, c.blocks, qs);
  }

  lemma {:induction false} EndedStream(c: Compressor.Compressor)
    requires c.Valid() && c.Ended()
    ensures IsStream(c.sent + c.out.zbits, c.level, c.blocks)
  {
    hide OfBytes, StreamBits, ValidBlocks;
  }

  /** The runs that a compressor has not in finished blocks, of what it took in and of the rest. */
  lemma {:induction false} LeftOver(c: Compressor.Compressor, rest: seq<byte>) returns (qs: seq<RunLength.Pair>)
    requires c.Valid() && c.mode.Finishing? && c.outputting && c.availInExpect == |rest|
    ensures RunLength.Separate(qs) && AllBytes(c.blocks) + RunLength.Expand(qs) == c.consumed + rest
    ensures !c.flushed ==> AllPairs(c.blocks) + qs == InputRuns.RunsOf(c.consumed + rest)
  {
    hide InputRuns.RunsOf, RunLength.Expand, RunLength.Separate, AllBytes, AllPairs, Compressor.Compressor.BitsOk,
      Compressor.Compressor.Packed, Compressor.Compressor.RunsKept;
    if c.flushed {
      var front := c.front.Pending();
      qs := InputRuns.RunsOf(front + rest);
      InputRuns.RunsSeparate(front + rest);
      assert AllBytes(c.blocks) + (front + rest) == AllBytes(c.blocks) + front + rest;
    } else {
      BlocksBegin(c, rest);
      qs := RunsLeft(c.blocks, c.consumed + rest);
    }
  }

  /** The runs in the finished blocks are runs of all the input, what it has still to take included. */
  lemma {:induction false} BlocksBegin(c: Compressor.Compressor, rest: seq<byte>)
    requires c.Valid() && !c.mode.Running? && !c.flushed && c.availInExpect == |rest|
    ensures AllPairs(c.blocks) <= InputRuns.RunsOf(c.consumed + rest)
  {
    hide InputRuns.RunsOf, Compressor.Compressor.BitsOk, Compressor.Compressor.Conserved, Compressor.Compressor.Packed;
    var ps := AllPairs(c.blocks);
    if c.InHand() == [] {
      assert c.blocks == [] || rest == [];
      assert c.consumed + [] == c.consumed && ps + [] == ps;
    } else {
      assert ps < InputRuns.RunsOf(c.consumed);
      InputRuns.RunsExtend(c.consumed, rest, ps);
    }
  }

  /** A packed stream is no longer than the bound for its source. */
  lemma {:induction false} PackedFits(s: seq<byte>, level: nat, cs: seq<Coded>, source: seq<byte>)
    requires IsStream(s, level, cs) && Packed(cs, source, level)
    ensures |s| <= StreamSize.StreamBound(source, level)
  {
    hide OfBytes, HeaderBits, BlocksBits, ValidBlocks, CombinedCrc, TrailerBits, Compressor.Tight, Compressor.FilledUp,
      StreamSize.StreamBound, InputRuns.RunsOf, AllPairs;
    var limit := Compressor.Limit(level);
    Compressor.FixedLengths(level, CombinedCrc(cs));
    EightEach(s);
    Compressor.FilledLength(OfBytes(s), StreamBits(level, cs, limit));
    StreamSize.StreamFits(cs, source, level, |s|);
  }

  lemma {:induction false} FinishedPacked(c: Compressor.Compressor)
    requires c.Valid() && c.Ended() && !c.flushed
    ensures Packed(c.blocks, c.consumed, c.level)
  {
    hide InputRuns.RunsOf, AllPairs, Compressor.Tight, Compressor.Compressor.BitsOk, Compressor.Compressor.Conserved;
    assert AllPairs(c.blocks) + [] == AllPairs(c.blocks);
  }
}
