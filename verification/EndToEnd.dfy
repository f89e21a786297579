/** Compressor and decoder together. */
module EndToEnd {
  import opened Prelude
  import opened Bits
  import opened BlockFormat
  import opened RoundTrip
  import opened Decompress
  import opened BitWriter
  import opened Crc
  import RunLength
  import Authentic
  import Compressor
  import Decoder

  /** The bytes of a stream of these blocks, the last byte filled up. */
  ghost predicate IsStream(s: seq<byte>, level: nat, cs: seq<Coded>) {
    && 1 <= level <= 9 && ValidBlocks(cs, Compressor.Limit(level))
    && Compressor.FilledUp(OfBytes(s), StreamBits(level, cs, Compressor.Limit(level)))
  }

  /**
   * A decoder fed the first part of a stream: no error, and nothing given out but the
   * stream's bytes, in order. It ends just when all of the stream is in, has then given
   * out everything, and never asks for more than the stream holds.
   */
  lemma {:induction false} OnBytes(d: Decoder.Decoder, s: seq<byte>, level: nat, cs: seq<Coded>)
    requires d.Valid() && d.Synced() && d.bound == 0 && d.consumed <= s && IsStream(s, level, cs)
    ensures !d.Abs().Failed?
    ensures d.Delivered() <= AllBytes(cs)
    ensures d.Interrupted() ==> |d.Delivered()| < |AllBytes(cs)|
    ensures d.Abs() == StreamEnd ==> d.Delivered() == AllBytes(cs) && d.consumed == s
    ensures d.consumed == s ==> !d.Starved()
  {
    hide OfBytes, StreamBits, ValidBlocks, AllBytes, Decoder.Decoder.Valid, Decoder.Decoder.Synced,
      Decoder.Decoder.Starved, Decoder.Decoder.Abs, Decoder.Decoder.Delivered, Decoder.Decoder.Interrupted;
    var all := StreamBits(level, cs, Compressor.Limit(level));
    var pad: nat :| pad < 8 && OfBytes(s) == all + Enc(pad, 0);
    var rest := s[|d.consumed|..];
    OfBytesConcat(d.consumed, rest);
    assert s == d.consumed + rest;
    assert StartStream(level, 0).limit == Compressor.Limit(level);
    d.OnStream(level, cs, OfBytes(rest), Enc(pad, 0));
    EightEach(rest);
  }

  lemma {:induction false} EightEach(s: seq<byte>)
    ensures |OfBytes(s)| == 8 * |s|
  {
    if s != [] {
      EightEach(s[..|s| - 1]);
      OfBytesSnoc(s[..|s| - 1], s[|s| - 1]);
      assert s[..|s| - 1] + [s[|s| - 1]] == s;
    }
  }

  /**
   * Lossless, for every level and every splitting of input and output on both sides: fed
   * the bytes of a finished stream, or any first part of them, the decoder reports no
   * error and has given out only bytes that went in, in order; it does not ask for more
   * than the stream holds; and at STREAM_END it has given out all that went in.
   */
  lemma {:induction false} Lossless(c: Compressor.Compressor, d: Decoder.Decoder)
    requires c.Valid() && c.StreamDone() && d.Valid() && d.Synced() && d.bound == 0
    requires d.consumed <= c.Emitted()
    ensures !d.Abs().Failed?
    ensures d.Delivered() <= c.consumed
    ensures d.Abs() == StreamEnd ==> d.Delivered() == c.consumed && d.consumed == c.Emitted()
    ensures d.consumed == c.Emitted() ==> !d.Starved()
  {
    hide OfBytes, StreamBits, ValidBlocks, AllBytes, Decoder.Decoder.Valid, Decoder.Decoder.Synced,
      Decoder.Decoder.Starved, Compressor.Compressor.BitsOk, Compressor.Compressor.Conserved, Decoder.Decoder.Abs,
      Decoder.Decoder.Delivered, Decoder.Decoder.Interrupted;
    OnBytes(d, c.Emitted(), c.level, c.blocks);
  }

  // ----- any input

  /** What the stock decoder, without a bound, comes to on these bytes. */
  ghost function Stock(input: seq<byte>): (r: Result)
    ensures Ok(r.phase)
  {
    Decompress.Run(Magic(0), OfBytes(input), 0)
  }

  /** What a decoder that has been fed the first part of some input tells of all of it. */
  lemma {:induction false} TellsOf(d: Decoder.Decoder, input: seq<byte>)
    requires d.Valid() && d.Synced() && d.consumed <= input
    ensures var r := Decompress.Run(Magic(0), OfBytes(input), d.bound);
      && (d.Abs() == StreamEnd ==> r.phase == StreamEnd && r.out == d.Delivered())
      && (r.phase == StreamEnd ==> !d.Abs().Failed? && (d.consumed == input ==> !d.Starved()))
      && (r.phase == StreamEnd && d.Interrupted() ==> |d.Delivered()| < |r.out|)
  {
    hide Decompress.Run, OfBytes, Decoder.Decoder.InSymbols, Decoder.Decoder.Waiting, RunLength.Unrle, Width;
    var rest := input[|d.consumed|..];
    var p, live := d.Abs(), d.bs.live;
    assert input == d.consumed + rest;
    OfBytesConcat(d.consumed, rest);
    Decoder.StartOk();
    RunConcat(Magic(0), OfBytes(d.consumed), OfBytes(rest), d.bound);
    TerminalRun(p, live, d.bound);
    var r := Decompress.Run(p, live, d.bound);
    TerminalRun(r.phase, r.rest + OfBytes(rest), d.bound);
    WidthAtEnd(p);
    if d.consumed == input {
      assert rest == [];
    }
    if d.state.Writing? {
      Decoder.PartOut(d.column.output, p, live, d.bound);
    }
  }

  /** The same of a decoder without a bound. */
  lemma {:induction false} StockTells(d: Decoder.Decoder, input: seq<byte>)
    requires d.Valid() && d.Synced() && d.bound == 0 && d.consumed <= input
    ensures var r := Stock(input);
      && (d.Abs() == StreamEnd ==> r.phase == StreamEnd && r.out == d.Delivered())
      && (r.phase == StreamEnd ==> !d.Abs().Failed? && (d.consumed == input ==> !d.Starved()))
      && (r.phase == StreamEnd && d.Interrupted() ==> |d.Delivered()| < |r.out|)
  {
    hide Decompress.Run, OfBytes, Decoder.Decoder.Valid, Decoder.Decoder.Synced, Decoder.Decoder.Abs,
      Decoder.Decoder.Delivered, Decoder.Decoder.Starved, Decoder.Decoder.Interrupted;
    TellsOf(d, input);
  }

  lemma {:induction false} WidthAtEnd(p: Phase)
    requires Ok(p)
    ensures p.Output? || Terminal(p) ==> Width(p) == 0
  {
  }

  /** These bytes are a stream of blocks whose checksums are right, with this output, and perhaps more. */
  ghost predicate Attested(input: seq<byte>, out: seq<byte>) {
    exists level, ss, rest {:trigger Authentic.Seals(OfBytes(input), level, ss, rest)} ::
      Authentic.Seals(OfBytes(input), level, ss, rest) && out == Authentic.AllOut(ss)
  }

  /** The stock decoder comes to the end only of what its checksums vouch for. */
  lemma {:induction false} StockAttests(input: seq<byte>)
    requires Stock(input).phase == StreamEnd
    ensures Attested(input, Stock(input).out)
  {
    hide Decompress.Run, OfBytes, Authentic.Seals, Authentic.AllOut;
    var level, ss := Authentic.Vouched(OfBytes(input), 0);
  }

  /** It does not come to the end of a stream with any other last field than its own. */
  lemma {:induction false} WrongSumRefused(input: seq<byte>, level: nat, cs: seq<Coded>, crc: word, after: bits)
    requires 1 <= level <= 9 && ValidBlocks(cs, Compressor.Limit(level)) && crc != CombinedCrc(cs)
    requires OfBytes(input) == HeaderBits(level) + BlocksBits(cs, Compressor.Limit(level)) + TrailerBits(crc) + after
    ensures Stock(input).phase == Failed(DataError)
  {
    hide Decompress.Run, OfBytes, BlocksBits, TrailerBits, HeaderBits, CombinedCrc;
    assert StartStream(level, 0).limit == Compressor.Limit(level);
    Authentic.WrongTrailer(level, cs, crc, after, 0);
  }
}
