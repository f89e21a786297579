/**
 * What the decoder accepts is what its checksums vouch for. A run to STREAM_END has read, behind
 * the header, one block after another with the checksum of just the bytes it gave out for it,
 * and last a combined checksum that is the fold of these; anything else ends in a data error.
 */
module Authentic {
  import opened Prelude
  import opened Bits
  import opened BitWriter
  import opened Crc
  import opened HuffmanCodes
  import opened MoveToFront
  import opened MtfEncoder
  import opened BwtDecoder
  import opened Decompress
  import opened BlockFormat
  import opened ParseBack
  import opened RoundTrip
  import CrcDetects

  /** A block as it stands in a stream: the bytes it gives, and its bits behind the checksum. */
  datatype Sealed = Sealed(out: seq<byte>, body: bits)

  function SealedBits(s: Sealed): bits { MarkBits(BLOCK_MARK) + Enc(32, Checksum(s.out)) + s.body }

  function AllSealedBits(ss: seq<Sealed>): bits {
    if ss == [] then [] else SealedBits(ss[0]) + AllSealedBits(ss[1..])
  }

  function AllOut(ss: seq<Sealed>): seq<byte> {
    if ss == [] then [] else ss[0].out + AllOut(ss[1..])
  }

  /** The checksums of the blocks, one folded on the other. */
  function Folded(combined: word, ss: seq<Sealed>): word
    decreases |ss|
  {
    hide Combine, Checksum;
    if ss == [] then combined else Folded(Combine(combined, Checksum(ss[0].out)), ss[1..])
  }

  /** b is a stream of these blocks, whose checksums are right, and then the rest. */
  predicate Seals(b: bits, level: nat, ss: seq<Sealed>, rest: bits) {
    1 <= level <= 9 && b == HeaderBits(level) + AllSealedBits(ss) + TrailerBits(Folded(0, ss)) + rest
  }

  // ----- fields read on the way to the end

  lemma {:induction false} ByteStep(p: Phase, b: bits, bound: nat) returns (v: nat)
    requires Ok(p) && !Terminal(p) && !p.Output? && Width(p) == 8 && Run(p, b, bound).phase == StreamEnd
    ensures v < 256 && |b| >= 8 && b == Enc(8, v) + b[8..] && Run(p, b, bound) == Run(Next(p, v, bound), b[8..], bound)
  {
    hide Next, Ok, Enc;
    TerminalRun(p, b, bound);
    v := Val(b[..8]);
    EncVal(b[..8]);
    ShlByConstants(0);
    assert b == b[..8] + b[8..];
  }

  lemma {:induction false} FailedRun(e: Error, b: bits, bound: nat)
    ensures Run(Failed(e), b, bound).phase == Failed(e)
  {
    TerminalRun(Failed(e), b, bound);
  }

  /** The bytes of a mark from the k-th on. */
  function MarkFrom(m: seq<byte>, k: nat): bits
    requires k <= |m|
    decreases |m| - k
  {
    if k == |m| then [] else Enc(8, m[k]) + MarkFrom(m, k + 1)
  }

  lemma {:induction false} WholeMark(m: seq<byte>)
    requires |m| == 6
    ensures MarkFrom(m, 0) == MarkBits(m)
  {
    hide Enc;
    var a, b, c, d, e, f := Enc(8, m[0]), Enc(8, m[1]), Enc(8, m[2]), Enc(8, m[3]), Enc(8, m[4]), Enc(8, m[5]);
    assert MarkFrom(m, 6) == [];
    assert MarkFrom(m, 5) == f;
    assert MarkFrom(m, 4) == e + f;
    assert MarkFrom(m, 3) == d + e + f;
    assert MarkFrom(m, 2) == c + d + e + f;
    assert MarkFrom(m, 1) == b + c + d + e + f;
  }

  /** From p the bits b begin with the field m, behind which the run is at q. */
  ghost predicate Passes(p: Phase, m: bits, q: Phase, b: bits, bound: nat) {
    Ok(p) && Ok(q) && |m| <= |b| && b == m + b[|m|..] && Run(p, b, bound) == Run(q, b[|m|..], bound)
  }

  lemma {:induction false} PassesChain(p: Phase, m: bits, q: Phase, m': bits, r: Phase, b: bits, bound: nat)
    requires Passes(p, m, q, b, bound) && Passes(q, m', r, b[|m|..], bound)
    ensures Passes(p, m + m', r, b, bound)
  {
    hide Run, Ok;
    var rest := b[|m|..][|m'|..];
    assert rest == b[|m + m'|..];
    assert m + (m' + rest) == m + m' + rest;
  }

  lemma {:induction false} PassesByte(p: Phase, q: Phase, v: nat, b: bits, bound: nat)
    requires Ok(p) && Ok(q) && |b| >= 8 && b == Enc(8, v) + b[8..] && Run(p, b, bound) == Run(q, b[8..], bound)
    ensures Passes(p, Enc(8, v), q, b, bound)
  {
    hide Enc, Run, Ok;
  }

  lemma {:induction false} BlockMarkRun(k: nat, st: Stream, b: bits, bound: nat)
    requires k < 6 && OkStream(st) && Run(Marker(k, st), b, bound).phase == StreamEnd
    requires k == 0 ==> !(|b| >= 8 && Val(b[..8]) == END_MARK[0])
    ensures Passes(Marker(k, st), MarkFrom(BLOCK_MARK, k), BlockCrc(0, 0, st), b, bound)
    decreases 6 - k
  {
    hide Enc, Run, Passes, MarkFrom;
    var v := ByteStep(Marker(k, st), b, bound);
    FirstIs(v, b);
    if v != BLOCK_MARK[k] {
      FailedRun(DataError, b[8..], bound);
    } else {
      var q := if k < 5 then Marker(k + 1, st) else BlockCrc(0, 0, st);
      PassesByte(Marker(k, st), q, v, b, bound);
      MarkSplits(BLOCK_MARK, k);
      if k < 5 {
        BlockMarkRun(k + 1, st, b[8..], bound);
        PassesChain(Marker(k, st), Enc(8, v), q, MarkFrom(BLOCK_MARK, k + 1), BlockCrc(0, 0, st), b, bound);
      }
    }
  }

  lemma {:induction false} MarkSplits(m: seq<byte>, k: nat)
    requires k < |m| == 6
    ensures MarkFrom(m, k) == Enc(8, m[k]) + MarkFrom(m, k + 1)
    ensures k == 5 ==> MarkFrom(m, k) == Enc(8, m[k])
  {
    hide Enc;
  }

  lemma {:induction false} FirstIs(v: nat, b: bits)
    requires v < 256 && |b| >= 8 && b == Enc(8, v) + b[8..]
    ensures Val(b[..8]) == v
  {
    hide Enc, Val;
    ShlByConstants(0);
    ValEnc(8, v);
    assert b[..8] == Enc(8, v);
  }

  lemma {:induction false} EndMarkRun(k: nat, st: Stream, b: bits, bound: nat)
    requires 1 <= k < 6 && OkStream(st) && Run(EndMarker(k, st), b, bound).phase == StreamEnd
    ensures Passes(EndMarker(k, st), MarkFrom(END_MARK, k), StreamCrc(0, 0, st), b, bound)
    decreases 6 - k
  {
    hide Enc, Run, Passes, MarkFrom;
    var v := ByteStep(EndMarker(k, st), b, bound);
    if v != END_MARK[k] {
      FailedRun(DataError, b[8..], bound);
    } else {
      var q := if k < 5 then EndMarker(k + 1, st) else StreamCrc(0, 0, st);
      PassesByte(EndMarker(k, st), q, v, b, bound);
      MarkSplits(END_MARK, k);
      if k < 5 {
        EndMarkRun(k + 1, st, b[8..], bound);
        PassesChain(EndMarker(k, st), Enc(8, v), q, MarkFrom(END_MARK, k + 1), StreamCrc(0, 0, st), b, bound);
      }
    }
  }

  /** Four bytes, high first, are a field of 32 bits. */
  lemma {:induction false} FourAreOne(a: nat, b: nat, c: nat, d: nat) returns (crc: word)
    requires a < 256 && b < 256 && c < 256 && d < 256
    ensures crc == 0x100 * (0x100 * (0x100 * a + b) + c) + d
    ensures Enc(8, a) + Enc(8, b) + Enc(8, c) + Enc(8, d) == Enc(32, crc)
  {
    hide Enc;
    crc := 0x100 * (0x100 * (0x100 * a + b) + c) + d;
    FourBytes(crc);
    assert crc % 0x100 == d && crc / 0x100 == 0x100 * (0x100 * a + b) + c;
    assert crc / 0x1_0000 == 0x100 * a + b && crc / 0x100_0000 == a;
  }

  /** Four bytes passed one after another are a field of 32 bits passed. */
  lemma {:induction false} FourFields(p: Phase, q: Phase, b: bits, v: nat, w: nat, x: nat, y: nat, bound: nat)
    returns (crc: word)
    requires v < 256 && w < 256 && x < 256 && y < 256 && |b| >= 32
    requires b == Enc(8, v) + b[8..] && b[8..] == Enc(8, w) + b[8..][8..]
    requires b[8..][8..] == Enc(8, x) + b[8..][8..][8..] && b[8..][8..][8..] == Enc(8, y) + b[8..][8..][8..][8..]
    requires Ok(p) && Ok(q) && Run(p, b, bound) == Run(q, b[8..][8..][8..][8..], bound)
    ensures crc == 0x100 * (0x100 * (0x100 * v + w) + x) + y
    ensures Passes(p, Enc(32, crc), q, b, bound)
  {
    hide Enc, Run, Ok;
    crc := FourAreOne(v, w, x, y);
    assert b[8..][8..][8..][8..] == b[32..];
    assert b[..32] == Enc(8, v) + Enc(8, w) + Enc(8, x) + Enc(8, y);
  }

  lemma {:induction false} BlockCrcStep(k: nat, crc: nat, st: Stream, b: bits, bound: nat) returns (v: nat)
    requires k < 3 && OkStream(st) && Run(BlockCrc(k, crc, st), b, bound).phase == StreamEnd
    ensures v < 256 && |b| >= 8 && b == Enc(8, v) + b[8..]
    ensures Run(BlockCrc(k, crc, st), b, bound) == Run(BlockCrc(k + 1, 0x100 * crc + v, st), b[8..], bound)
  {
    hide Enc, Run, OkStream;
    v := ByteStep(BlockCrc(k, crc, st), b, bound);
  }

  lemma {:induction false} BlockCrcRun(st: Stream, b: bits, bound: nat) returns (crc: word)
    requires OkStream(st) && Run(BlockCrc(0, 0, st), b, bound).phase == StreamEnd
    ensures Passes(BlockCrc(0, 0, st), Enc(32, crc), RandBit(crc, st), b, bound)
  {
    hide Enc, Run, Passes, OkStream;
    var p0 := BlockCrc(0, 0, st);
    var v := BlockCrcStep(0, 0, st, b, bound);
    var w := BlockCrcStep(1, v, st, b[8..], bound);
    var x := BlockCrcStep(2, 0x100 * v + w, st, b[8..][8..], bound);
    var y := ByteStep(BlockCrc(3, 0x100 * (0x100 * v + w) + x, st), b[8..][8..][8..], bound);
    crc := FourFields(p0, RandBit(0x100 * (0x100 * (0x100 * v + w) + x) + y, st), b, v, w, x, y, bound);
  }

  lemma {:induction false} StreamCrcStep(k: nat, crc: nat, st: Stream, b: bits, bound: nat) returns (v: nat)
    requires k < 4 && OkStream(st) && Run(StreamCrc(k, crc, st), b, bound).phase == StreamEnd
    ensures v < 256 && |b| >= 8 && b == Enc(8, v) + b[8..] && !NextStreamCrc(k, crc, v, st).Failed?
    ensures Run(StreamCrc(k, crc, st), b, bound) == Run(NextStreamCrc(k, crc, v, st), b[8..], bound)
  {
    hide Enc, Run;
    v := ByteStep(StreamCrc(k, crc, st), b, bound);
    FailedRun(DataError, b[8..], bound);
  }

  lemma {:induction false} StreamCrcRun(st: Stream, b: bits, bound: nat)
    requires OkStream(st) && Run(StreamCrc(0, 0, st), b, bound).phase == StreamEnd
    ensures Passes(StreamCrc(0, 0, st), Enc(32, st.combined), StreamEnd, b, bound)
  {
    hide Enc, Run, Passes, OkStream;
    var v := StreamCrcStep(0, 0, st, b, bound);
    var w := StreamCrcStep(1, v, st, b[8..], bound);
    var x := StreamCrcStep(2, 0x100 * v + w, st, b[8..][8..], bound);
    var y := StreamCrcStep(3, 0x100 * (0x100 * v + w) + x, st, b[8..][8..][8..], bound);
    var crc := FourFields(StreamCrc(0, 0, st), StreamEnd, b, v, w, x, y, bound);
  }

  // ----- inside a block

  /** Whatever the bits of a block are, its output phase has the checksum from its header. */
  lemma {:induction false} BodyRun(p: Phase, b: bits, bound: nat) returns (q: Phase, n: nat)
    requires Ok(p) && InBlock(p) && !Terminal(p) && Run(p, b, bound).phase == StreamEnd
    ensures n <= |b| && q.Output? && Ok(q) && q.b.crc == CrcOf(p) && Some(q.b.st) == StreamOf(p)
    ensures Run(p, b, bound) == Run(q, b[n..], bound)
    decreases |b|
  {
    hide Next, Ok, Stays, Deliver, Accepted, CrcOf, StreamOf;
    if p.Output? {
      q, n := p, 0;
      OutputSeal(p);
      assert b[0..] == b;
    } else {
      TerminalRun(p, b, bound);
      var w := Width(p);
      var p' := Next(p, Val(b[..w]), bound);
      BlockStays(p, Val(b[..w]), bound);
      TerminalRun(p', b[w..], bound);
      StaysIn(p, p');
      q, n := BodyRun(p', b[w..], bound);
      assert b[w..][n..] == b[w + n..];
      n := w + n;
    }
  }

  lemma {:induction false} OutputSeal(p: Phase)
    requires p.Output?
    ensures CrcOf(p) == p.b.crc && StreamOf(p) == Some(p.b.st)
  {
  }

  lemma {:induction false} StaysIn(p: Phase, q: Phase)
    requires Stays(p, q) && !q.Failed?
    ensures InBlock(q) && !Terminal(q) && CrcOf(q) == CrcOf(p) && StreamOf(q) == StreamOf(p)
  {
  }

  // ----- whole runs

  lemma {:induction false} Delivered(q: Phase, b: bits, bound: nat)
    requires q.Output? && Ok(q) && Run(q, b, bound).phase == StreamEnd
    ensures Checksum(Accepted(q)) == q.b.crc
    ensures Deliver(q) == Marker(0, q.b.st.(combined := Combine(q.b.st.combined, q.b.crc)))
    ensures OkStream(q.b.st) && Run(q, b, bound) == Behind(Accepted(q), Run(Deliver(q), b, bound))
  {
    hide OutputStage.BlockOutput, Checksum, Combine;
    TerminalRun(Deliver(q), b, bound);
  }

  /** One block: its mark, its checksum, and whatever is behind it, up to the next marker. */
  lemma {:induction false} BlockRun(st: Stream, b: bits, bound: nat) returns (s: Sealed, n: nat)
    requires OkStream(st) && Run(Marker(0, st), b, bound).phase == StreamEnd
    requires !(|b| >= 8 && Val(b[..8]) == END_MARK[0])
    ensures 0 < n <= |b| && b[..n] == SealedBits(s)
    ensures OkStream(st.(combined := Combine(st.combined, Checksum(s.out)))) && Run(Marker(0, st), b, bound)
      == Behind(s.out, Run(Marker(0, st.(combined := Combine(st.combined, Checksum(s.out)))), b[n..], bound))
  {
    hide Enc, Run, Deliver, Accepted, Checksum, Combine, MarkBits, Ok, Width;
    var m1 := MarkBits(BLOCK_MARK);
    BlockMarkRun(0, st, b, bound);
    WholeMark(BLOCK_MARK);
    var crc := BlockCrcRun(st, b[48..], bound);
    PassesChain(Marker(0, st), m1, BlockCrc(0, 0, st), Enc(32, crc), RandBit(crc, st), b, bound);
    OkRandBit(crc, st);
    var b2 := b[80..];
    var q, m := BodyRun(RandBit(crc, st), b2, bound);
    Delivered(q, b2[m..], bound);
    s, n := Sealed(Accepted(q), b2[..m]), 80 + m;
    assert b2[m..] == b[n..];
    assert b == (m1 + Enc(32, crc)) + b2;
    assert b[..n] == m1 + Enc(32, crc) + b2[..m];
  }

  lemma {:induction false} OkRandBit(crc: nat, st: Stream)
    requires OkStream(st)
    ensures Ok(RandBit(crc, st)) && InBlock(RandBit(crc, st)) && !Terminal(RandBit(crc, st))
    ensures CrcOf(RandBit(crc, st)) == crc && StreamOf(RandBit(crc, st)) == Some(st)
  {
  }

  lemma {:induction false} EndRun(st: Stream, b: bits, bound: nat)
    requires OkStream(st) && Run(Marker(0, st), b, bound).phase == StreamEnd
    requires |b| >= 8 && Val(b[..8]) == END_MARK[0]
    ensures Passes(Marker(0, st), TrailerBits(st.combined), StreamEnd, b, bound)
  {
    hide Enc, Run, Passes, MarkFrom;
    var v := ByteStep(Marker(0, st), b, bound);
    FirstIs(v, b);
    PassesByte(Marker(0, st), EndMarker(1, st), v, b, bound);
    EndMarkRun(1, st, b[8..], bound);
    MarkSplits(END_MARK, 0);
    WholeMark(END_MARK);
    PassesChain(Marker(0, st), Enc(8, v), EndMarker(1, st), MarkFrom(END_MARK, 1), StreamCrc(0, 0, st), b, bound);
    Passed(Marker(0, st), MarkBits(END_MARK), StreamCrc(0, 0, st), b, bound);
    StreamCrcRun(st, b[48..], bound);
    PassesChain(Marker(0, st), MarkBits(END_MARK), StreamCrc(0, 0, st), Enc(32, st.combined), StreamEnd, b, bound);
  }

  lemma {:induction false} Passed(p: Phase, m: bits, q: Phase, b: bits, bound: nat)
    requires Passes(p, m, q, b, bound)
    ensures Ok(p) && Ok(q) && |m| <= |b| && b == m + b[|m|..] && Run(p, b, bound) == Run(q, b[|m|..], bound)
  {
    hide Run, Ok;
  }

  lemma {:induction false} MarkerRun(st: Stream, b: bits, bound: nat) returns (ss: seq<Sealed>)
    requires OkStream(st) && Run(Marker(0, st), b, bound).phase == StreamEnd
    ensures var r := Run(Marker(0, st), b, bound);
      b == AllSealedBits(ss) + TrailerBits(Folded(st.combined, ss)) + r.rest && r.out == AllOut(ss)
    decreases |b|
  {
    hide Enc, Run, SealedBits, TrailerBits, Combine, Checksum;
    if |b| >= 8 && Val(b[..8]) == END_MARK[0] {
      EndRun(st, b, bound);
      var t := TrailerBits(st.combined);
      Passed(Marker(0, st), t, StreamEnd, b, bound);
      TerminalRun(StreamEnd, b[|t|..], bound);
      ss := [];
      assert [] + TrailerBits(st.combined) == TrailerBits(st.combined);
    } else {
      var s, n := BlockRun(st, b, bound);
      var st' := st.(combined := Combine(st.combined, Checksum(s.out)));
      var ss' := MarkerRun(st', b[n..], bound);
      ss := [s] + ss';
      assert ss[1..] == ss' && ss[0] == s;
      var t, r := TrailerBits(Folded(st'.combined, ss')), Run(Marker(0, st'), b[n..], bound).rest;
      assert b == b[..n] + b[n..];
      assert SealedBits(s) + (AllSealedBits(ss') + t + r) == SealedBits(s) + AllSealedBits(ss') + t + r;
    }
  }

  lemma {:induction false} MagicByte(k: nat, b: bits, bound: nat) returns (v: nat)
    requires k < 4 && Run(Magic(k), b, bound).phase == StreamEnd
    ensures v < 256 && Passes(Magic(k), Enc(8, v), NextMagic(k, v, bound), b, bound)
    ensures |b| >= 8 && Run(NextMagic(k, v, bound), b[8..], bound).phase == StreamEnd
    ensures !NextMagic(k, v, bound).Failed?
  {
    hide Enc, Run, Passes;
    v := ByteStep(Magic(k), b, bound);
    var q := NextMagic(k, v, bound);
    FailedRun(MagicError, b[8..], bound);
    PassesByte(Magic(k), q, v, b, bound);
  }

  lemma {:induction false} MagicRun(b: bits, bound: nat) returns (level: nat)
    requires Run(Magic(0), b, bound).phase == StreamEnd
    ensures 1 <= level <= 9 && Passes(Magic(0), HeaderBits(level), Marker(0, StartStream(level, bound)), b, bound)
  {
    hide Enc, Run, Passes, StartStream;
    var v := MagicByte(0, b, bound);
    var w := MagicByte(1, b[8..], bound);
    var x := MagicByte(2, b[8..][8..], bound);
    var y := MagicByte(3, b[8..][8..][8..], bound);
    level := y - 0x30;
    var m, q := Marker(0, StartStream(level, bound)), NextMagic(3, y, bound);
    assert b[8..][8..] == b[16..] && b[16..][8..] == b[24..];
    PassesChain(Magic(0), Enc(8, v), Magic(1), Enc(8, w), Magic(2), b, bound);
    PassesChain(Magic(0), Enc(8, v) + Enc(8, w), Magic(2), Enc(8, x), Magic(3), b, bound);
    PassesChain(Magic(0), Enc(8, v) + Enc(8, w) + Enc(8, x), Magic(3), Enc(8, y), q, b, bound);
  }

  /**
   * Whatever the input, a run that comes to STREAM_END has read a stream header, blocks each with
   * the checksum of just the bytes given out for it, and a combined checksum that is the fold of
   * these; and it has given out nothing else.
   */
  lemma {:induction false} Vouched(b: bits, bound: nat) returns (level: nat, ss: seq<Sealed>)
    requires Run(Magic(0), b, bound).phase == StreamEnd
    ensures Seals(b, level, ss, Run(Magic(0), b, bound).rest) && Run(Magic(0), b, bound).out == AllOut(ss)
  {
    hide Run, HeaderBits, TrailerBits, AllSealedBits, Folded;
    level := MagicRun(b, bound);
    assert |HeaderBits(level)| == 32 by { HeaderLength(level); }
    ss := MarkerRun(StartStream(level, bound), b[32..], bound);
    var r := Run(Magic(0), b, bound).rest;
    assert HeaderBits(level) + (AllSealedBits(ss) + TrailerBits(Folded(0, ss)) + r)
      == HeaderBits(level) + AllSealedBits(ss) + TrailerBits(Folded(0, ss)) + r;
  }

  lemma {:induction false} HeaderLength(level: nat)
    ensures |HeaderBits(level)| == 32
  {
    hide Enc;
  }

  // ----- damage is refused

  /** A stream whose last field is anything but the fold of its blocks' checksums is refused there. */
  lemma {:induction false} WrongTrailer(level: nat, cs: seq<Coded>, crc: word, after: bits, bound: nat)
    requires 1 <= level <= 9 && ValidBlocks(cs, StartStream(level, bound).limit) && crc != CombinedCrc(cs)
    ensures var limit := StartStream(level, bound).limit;
      Run(Magic(0), HeaderBits(level) + BlocksBits(cs, limit) + TrailerBits(crc) + after, bound).phase
        == Failed(DataError)
  {
    hide HeaderBits, BlocksBits, TrailerBits, CombinedCrc, AllBytes, Run;
    var limit := StartStream(level, bound).limit;
    var b, t := HeaderBits(level) + BlocksBits(cs, limit), TrailerBits(crc);
    BlocksBack(level, cs, bound);
    TrailerBack(Stream(limit, CombinedCrc(cs)), crc, after, bound);
    RunConcat(Magic(0), b, t + after, bound);
    assert b + (t + after) == b + t + after && [] + (t + after) == t + after;
  }

  /** A block under any checksum but its own is refused, and nothing of it counts as given out. */
  lemma {:induction false} WrongBlockCrc(level: nat, cs: seq<Coded>, c: Coded, crc: word, after: bits, bound: nat)
    requires 1 <= level <= 9 && ValidBlocks(cs, StartStream(level, bound).limit)
    requires ValidCoded(c) && |c.plan.block| <= StartStream(level, bound).limit && crc != Checksum(Bytes(c))
    ensures var limit := StartStream(level, bound).limit;
      Run(Magic(0), HeaderBits(level) + BlocksBits(cs, limit) + BlockBits(c.plan, crc) + after, bound)
        == Result(Failed(DataError), after, AllBytes(cs))
  {
    hide HeaderBits, BlocksBits, BlockBits, CombinedCrc, AllBytes, Checksum, Bytes, Deliver, Accepted, Next;
    var st := Stream(StartStream(level, bound).limit, CombinedCrc(cs));
    var b, t := HeaderBits(level) + BlocksBits(cs, st.limit), BlockBits(c.plan, crc);
    BlocksBack(level, cs, bound);
    BlockBack(c.plan, crc, st, bound);
    RefusedThere(c, crc, st);
    var p := Output(Column(c.plan), PlanBlock(c.plan, crc, st));
    LeadsThere(Marker(0, st), t, p, after, bound);
    TerminalRun(Failed(DataError), after, bound);
    RunConcat(Magic(0), b, t + after, bound);
    assert b + (t + after) == b + t + after && [] + (t + after) == t + after;
    assert AllBytes(cs) + ([] + []) == AllBytes(cs);
  }

  /** So a block that does not give exactly what was summed, one byte being off, is refused. */
  lemma {:induction false} OneByteOff(level: nat, cs: seq<Coded>, c: Coded, i: nat, x: byte, after: bits, bound: nat)
    requires 1 <= level <= 9 && ValidBlocks(cs, StartStream(level, bound).limit)
    requires ValidCoded(c) && |c.plan.block| <= StartStream(level, bound).limit && i < |Bytes(c)| && x != Bytes(c)[i]
    ensures var limit, crc := StartStream(level, bound).limit, Checksum(Bytes(c)[i := x]);
      Run(Magic(0), HeaderBits(level) + BlocksBits(cs, limit) + BlockBits(c.plan, crc) + after, bound)
        == Result(Failed(DataError), after, AllBytes(cs))
  {
    hide HeaderBits, BlocksBits, BlockBits, AllBytes, Checksum, Bytes, Run;
    CrcDetects.OneByteDetected(Bytes(c), i, x);
    WrongBlockCrc(level, cs, c, Checksum(Bytes(c)[i := x]), after, bound);
  }

  lemma {:induction false} RefusedThere(c: Coded, crc: word, st: Stream)
    requires ValidCoded(c) && OkStream(st) && |c.plan.block| <= st.limit && crc != Checksum(Bytes(c))
    ensures var p := Output(Column(c.plan), PlanBlock(c.plan, crc, st));
      Ok(p) && Deliver(p) == Failed(DataError) && Accepted(p) == []
  {
    hide OutputStage.BlockOutput, Checksum, Combine, RunLength.Encoded, RunLength.Separate, RunLength.Expand,
      BlockFormat.Text, Symbols, UsedBytes, BwtInverse.SortsRotations, HuffmanCodes.Decodable;
    BlockUnpacks(c);
  }
}
