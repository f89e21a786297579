/**
 * What the application makes of the codec: bz2_compress, bz2_decompress and
 * bz2_decompress_bounded of Resource.cpp, the last two over the decoder whose tables are
 * sized by the caller's bound on the output.
 */
module ResourceCodec {
  import opened Prelude
  import opened Bits
  import opened BitWriter
  import opened Crc
  import opened RunLength
  import opened Decompress
  import opened BlockFormat
  import opened RoundTrip
  import opened EndToEnd
  import StreamSize
  import Completion
  import Compressor
  import BoundedDecoder
  import BufferToBuffer
  import Decoder

  /** The stock decoder comes to the end of a stream in them, and has given out no more than cap bytes. */
  ghost predicate Sound(input: seq<byte>, cap: nat) { Stock(input).phase == StreamEnd && |Stock(input).out| <= cap }

  /** The tables of a decoder made for maxOut bytes are no larger than that calls for. */
  lemma {:induction false} TablesBounded(d: Decoder.Decoder, maxOut: nat)
    requires d.Valid() && d.Synced() && d.bound == BoundedDecoder.MaxOutBound(maxOut) && 0 < maxOut < 720_000
    requires StreamOf(d.Abs()).Some?
    ensures var o, most := d.column.output, maxOut + maxOut / 4 + 16;
      o.tt.Length <= most && o.ll16.Length <= most && o.ll4.Length <= (1 + most) / 2
  {
    hide Decoder.Decoder.Valid, Decoder.Decoder.Abs, Decompress.Run, OfBytes;
    d.ColumnSize();
  }

  // ----- the header check in front of the decoder

  /** In.data()[0..4] is BZh and a digit from 1 to 9. */
  predicate StartsRight(input: seq<byte>) {
    |input| >= 4 && input[0] == 0x42 && input[1] == 0x5a && input[2] == 0x68 && 0x31 <= input[3] <= 0x39
  }

  lemma {:induction false} FirstByte(input: seq<byte>)
    requires input != []
    ensures |OfBytes(input)| >= 8 && Val(OfBytes(input)[..8]) == input[0] && OfBytes(input)[8..] == OfBytes(input[1..])
  {
    hide Enc, Val, Pow2;
    assert input == [input[0]] + input[1..];
    OfBytesConcat([input[0]], input[1..]);
    OfBytesSnoc([], input[0]);
    assert [] + [input[0]] == [input[0]] && OfBytes([]) + Enc(8, input[0]) == Enc(8, input[0]);
    Completion.EightBits();
    ValEnc(8, input[0]);
  }

  /** From the k-th byte of the magic on, the end of a stream takes the right bytes. */
  lemma {:induction false} MagicNeeded(k: nat, input: seq<byte>)
    requires k < 4 && Decompress.Run(Magic(k), OfBytes(input), 0).phase == StreamEnd
    ensures |input| >= 4 - k && NextMagic(k, input[0], 0) != Failed(MagicError)
    ensures k < 3 ==> Decompress.Run(Magic(k + 1), OfBytes(input[1..]), 0).phase == StreamEnd
    decreases 4 - k
  {
    hide OfBytes, Decompress.Run, Val;
    TerminalRun(Magic(k), OfBytes(input), 0);
    if input == [] {
      OfNothing();
    } else {
      FirstByte(input);
      var q := NextMagic(k, input[0], 0);
      MagicRuns(k, OfBytes(input));
      TerminalRun(q, OfBytes(input)[8..], 0);
      if k < 3 {
        MagicNeeded(k + 1, input[1..]);
      }
    }
  }

  lemma {:induction false} MagicRuns(k: nat, b: bits)
    requires k < 4 && |b| >= 8
    ensures Decompress.Run(Magic(k), b, 0) == Decompress.Run(NextMagic(k, Val(b[..8]), 0), b[8..], 0)
  {
    hide NextMagic, Val;
  }

  lemma {:induction false} EndNeedsHeader(input: seq<byte>)
    requires Stock(input).phase == StreamEnd
    ensures StartsRight(input)
  {
    hide OfBytes, Decompress.Run;
    MagicNeeded(0, input);
    MagicNeeded(1, input[1..]);
    MagicNeeded(2, input[1..][1..]);
    MagicNeeded(3, input[1..][1..][1..]);
    assert input[1..][1..][1..][0] == input[3] && input[1..][1..][0] == input[2];
  }

  // ----- the application's calls

  /** bz2_stream_decompress: it succeeds exactly on what the stock decoder takes, up to cap bytes. */
  method StreamDecompress(input: seq<byte>, cap: nat) returns (ok: bool, output: seq<byte>)
    ensures ok <==> Sound(input, cap)
    ensures ok ==> output == Stock(input).out && Attested(input, output)
    ensures !ok ==> output == []
  {
    hide Decoder.Decoder.Valid, Decoder.Decoder.Synced, Decoder.Decoder.Abs, Decoder.Decoder.Delivered,
      Decoder.Decoder.Starved, Decoder.Decoder.Interrupted, Decompress.Run, OfBytes;
    ok, output := false, [];
    if |input| < 4 || input[0] != 0x42 || input[1] != 0x5a || input[2] != 0x68 || input[3] < 0x31 || input[3] > 0x39 {
      if Stock(input).phase == StreamEnd {
        EndNeedsHeader(input);
      }
      return;
    }
    var d := new Decoder.Decoder(true, BoundedDecoder.MaxOutBound(cap));
    var r, used, produced;
    r, used, produced := d.BzDecompress(input, cap);
    assert [] + produced == produced && [] + input[..used] == input[..used];
    TellsOf(d, input);
    BoundedDecoder.BoundedIsSound(OfBytes(input), cap);
    if Sound(input, cap) {
      BoundedDecoder.BoundedIsComplete(OfBytes(input), cap);
    }
    if r == Decoder.BzStreamEnd {
      StockAttests(input);
      ok, output := true, produced;
    }
  }

  /** bz2_decompress: the size is known, and must be met. */
  method DecompressTo(input: seq<byte>, outSize: nat) returns (ok: bool, output: seq<byte>)
    ensures ok <==> outSize == 0 || (Sound(input, outSize) && |Stock(input).out| == outSize)
    ensures ok ==> output == if outSize == 0 then [] else Stock(input).out
  {
    hide Decompress.Run;
    if outSize == 0 {
      return true, [];
    }
    ok, output := StreamDecompress(input, outSize);
    ok := ok && |output| == outSize;
  }

  /** bz2_decompress_bounded: no input is no output, and without room nothing else is accepted. */
  method DecompressBounded(input: seq<byte>, maxOut: nat) returns (ok: bool, output: seq<byte>)
    ensures ok <==> input == [] || (maxOut > 0 && Sound(input, maxOut))
    ensures ok ==> output == if input == [] then [] else Stock(input).out
  {
    hide Decompress.Run;
    if input == [] {
      return true, [];
    }
    if maxOut == 0 {
      return false, [];
    }
    ok, output := StreamDecompress(input, maxOut);
  }

  /**
   * bz2_compress: the stream at block size 1, if it is shorter than the input. With no room
   * for the stream in a buffer longer than the input, it would not have been.
   */
  method Compress(input: seq<byte>) returns (ok: bool, output: seq<byte>, ghost stream: seq<byte>, ghost cs: seq<Coded>)
    ensures input == [] ==> !ok
    ensures input != [] ==> IsStream(stream, 1, cs) && AllBytes(cs) == input && Completion.Packed(cs, input, 1)
    ensures input != [] ==> |stream| <= StreamSize.StreamBound(input, 1) && (ok <==> |stream| < |input|)
    ensures ok ==> output == stream
  {
    hide IsStream, AllBytes, StreamSize.StreamBound, Completion.Packed;
    ok, output, stream, cs := false, [], [], [];
    if input == [] {
      return;
    }
    var cap, r := |input| + |input| / 100 + 600, BufferToBuffer.Done;
    r, output, stream, cs := BufferToBuffer.Compress(input, cap, 1, 0);
    ok := r == BufferToBuffer.Done && |output| < |input|;
  }

  /** On the bytes of a stream, at any block size, the stock decoder gives what went in. */
  lemma {:induction false} StockOnStream(s: seq<byte>, level: nat, cs: seq<Coded>)
    requires IsStream(s, level, cs)
    ensures Stock(s).phase == StreamEnd && Stock(s).out == AllBytes(cs)
  {
    hide OfBytes, StreamBits, ValidBlocks, AllBytes, Decompress.Run;
    var pad: nat :| pad < 8 && OfBytes(s) == StreamBits(level, cs, Compressor.Limit(level)) + Enc(pad, 0);
    assert StartStream(level, 0).limit == Compressor.Limit(level);
    StreamBack(level, cs, Enc(pad, 0), 0);
  }

  /**
   * The sender's payload arrives: what bz2_compress accepts to send is sound for
   * bz2_decompress with the advertised size, and for bz2_decompress_bounded with any bound
   * that is no smaller, and either gives the payload back.
   */
  lemma {:induction false} Arrives(payload: seq<byte>, wire: seq<byte>, cs: seq<Coded>, maxOut: nat)
    requires IsStream(wire, 1, cs) && AllBytes(cs) == payload && |payload| <= maxOut
    ensures wire != [] && Sound(wire, maxOut) && Stock(wire).out == payload
  {
    hide Decompress.Run, IsStream, AllBytes;
    StockOnStream(wire, 1, cs);
    if wire == [] {
      BufferToBuffer.NoEmptyStream(1, cs);
    }
  }
}
