/**
 * BZ2_bzBuffToBuffCompress and BZ2_bzBuffToBuffDecompress: a whole buffer in one call.
 * What the first makes of any input, the second turns back into it.
 */
module BufferToBuffer {
  import opened Prelude
  import opened RoundTrip
  import BlockFormat
  import opened EndToEnd
  import opened Completion
  import opened StreamSize
  import Compressor
  import Decoder

  datatype Outcome = Done | OutbuffFull | UnexpectedEof | ParamError | SequenceError | Broken(code: Decoder.Code)

  predicate GoodParams(level: int, workFactor: int) { 1 <= level <= 9 && 0 <= workFactor <= 250 }

  /**
   * A packed stream of the source, all of it if there is room for it, otherwise as much as
   * there is room for; and room for the bound, which goes by the runs and the values in the
   * source, is always enough. Only no input with no room at all is taken for an error.
   */
  method Compress(source: seq<byte>, room: nat, level: int, workFactor: int)
    returns (code: Outcome, dest: seq<byte>, ghost stream: seq<byte>, ghost cs: seq<Coded>)
    ensures code == ParamError <==> !GoodParams(level, workFactor)
    ensures code == SequenceError <==> GoodParams(level, workFactor) && room == 0 && source == []
    ensures code == Done || code == OutbuffFull ==>
              IsStream(stream, level, cs) && AllBytes(cs) == source && Packed(cs, source, level)
              && |stream| <= StreamBound(source, level)
    ensures code == Done ==> dest == stream && |stream| <= room
    ensures code == OutbuffFull ==> |dest| == room < |stream| && dest == stream[..room]
    ensures code in {Done, OutbuffFull, ParamError, SequenceError}
  {
    hide Packed, Compressor.Compressor.Valid, Compressor.Compressor.Emitted, StreamBound, Compressor.FilledUp,
      RoundTrip.ValidBlocks, AllBytes, StreamBits;
    dest, stream, cs := [], [], [];
    if level < 1 || level > 9 || workFactor < 0 || workFactor > 250 {
      return ParamError, dest, stream, cs;
    }
    var c := new Compressor.Compressor(level, workFactor);
    var r, used;
    r, used, dest := c.BzCompress(Compressor.FinishAction, source, room);
    assert [] + dest == dest && [] + source[..used] == source[..used];
    match r {
      case FinishOk =>
        code := OutbuffFull;
        assert source[..used] + source[used..] == source;
        stream, cs := StoppedShort(c, source[used..]);
        PackedFits(stream, level, cs, source);
      case BzStreamEnd =>
        code := Done;
        stream, cs := dest, c.blocks;
        AtEnd(c);
        FinishedPacked(c);
        assert source[..used] == source && IsStream(stream, level, cs);
        PackedFits(stream, level, cs, source);
      case _ =>
        code := SequenceError;
    }
    if r.BzStreamEnd? && dest == [] {
      NoEmptyStream(level, cs);
    }
  }

  lemma {:induction false} AtEnd(c: Compressor.Compressor)
    requires c.Valid() && c.mode.Idle?
    ensures c.Ended()
  {
  }

  lemma {:induction false} NoEmptyStream(level: nat, cs: seq<Coded>)
    ensures !IsStream([], level, cs)
  {
    hide BlockFormat.HeaderBits, BlockFormat.TrailerBits, BlocksBits, ValidBlocks, CombinedCrc;
    if IsStream([], level, cs) {
      Compressor.FixedLengths(level, CombinedCrc(cs));
    }
  }

  /**
   * What decompressing should come to, when all is what the stream stands for: if the stream
   * is there whole, all of it or as much as there is room for; if it is cut off, never Done.
   */
  predicate Fair(code: Outcome, dest: seq<byte>, room: nat, all: seq<byte>, whole: bool) {
    if !whole then (code == UnexpectedEof || code == OutbuffFull) && dest <= all
    else if |all| <= room then code == Done && dest == all
    else code == OutbuffFull && |dest| == room && dest <= all
  }

  /** BZ2_bzBuffToBuffDecompress */
  method Decompress(source: seq<byte>, room: nat, small: bool) returns (code: Outcome, dest: seq<byte>)
    ensures |dest| <= room
    ensures code == Done <==> Stock(source).phase.StreamEnd? && |Stock(source).out| <= room
    ensures code == Done ==> dest == Stock(source).out && Attested(source, dest)
    ensures forall s: seq<byte>, level: nat, cs: seq<Coded> ::
              source <= s && IsStream(s, level, cs) ==> Fair(code, dest, room, AllBytes(cs), s == source)
  {
    hide Decoder.Decoder.Valid, Decoder.Decoder.Synced, Decoder.Decoder.Abs, Decoder.Decoder.Delivered,
      Decoder.Decoder.Starved, Decoder.Decoder.Interrupted, AllBytes, IsStream, Stock, Attested;
    var d := new Decoder.Decoder(small, 0);
    var r, used;
    r, used, dest := d.BzDecompress(source, room);
    assert [] + dest == dest && [] + source[..used] == source[..used];
    StockTells(d, source);
    if Stock(source).phase.StreamEnd? {
      StockAttests(source);
    }
    match r {
      case BzOk => code := if |dest| < room then UnexpectedEof else OutbuffFull;
      case BzStreamEnd => code := Done;
      case _ => code := Broken(r);
    }
    forall s: seq<byte>, level: nat, cs: seq<Coded> | source <= s && IsStream(s, level, cs)
      ensures Fair(code, dest, room, AllBytes(cs), s == source)
    {
      OnBytes(d, s, level, cs);
    }
  }
}
