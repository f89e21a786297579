/**
 * The decoder as a machine over bits: one phase per point where BZ2_decompress can be
 * suspended, holding what its save area holds there. Everything it rejects, it rejects
 * in the same place.
 */
module Decompress {
  import opened Prelude
  import opened Bits
  import opened Crc
  import opened HuffmanCodes
  import opened MoveToFront
  import opened MtfEncoder
  import opened BwtDecoder
  import OutputStage

  const MAX_GROUPS := 6
  const GROUP_SIZE := 50
  const MAX_SELECTORS := 18002
  const BLOCK_MARK: seq<byte> := [0x31, 0x41, 0x59, 0x26, 0x53, 0x59]
  const END_MARK: seq<byte> := [0x17, 0x72, 0x45, 0x38, 0x50, 0x90]

  datatype Error = MagicError | DataError

  /** What outlives a block: the block size limit and the combined checksum. */
  datatype Stream = Stream(limit: nat, combined: word)

  /** What a block's header has said so far. */
  datatype Block = Block(st: Stream, crc: nat, origPtr: nat, randomised: bool)

  datatype Tables = Tables(used: InUse, nGroups: nat, selectors: seq<nat>, b: Block)

  /** Reading symbols: the tables, the move-to-front state, and the place in the selectors. */
  datatype Data = Data(t: Tables, lens: seq<Lengths>, m: Mtf, groupNo: int, groupPos: nat)

  datatype Phase =
    | Magic(k: nat)
    | Marker(k: nat, st: Stream)
    | BlockCrc(k: nat, crc: nat, st: Stream)
    | RandBit(crc: nat, st: Stream)
    | OrigPtr(k: nat, b: Block)
    | Mapping1(f16: seq<bool>, b: Block)
    | Mapping2(f16: seq<bool>, f: seq<bool>, b: Block)
    | Selector1(used: InUse, b: Block)
    | Selector2(used: InUse, nGroups: nat, b: Block)
    | Selector3(j: nat, sel: seq<nat>, nSelectors: nat, used: InUse, nGroups: nat, b: Block)
    | Coding1(lens: seq<Lengths>, t: Tables)
    | Coding2(curr: nat, cur: Lengths, lens: seq<Lengths>, t: Tables)
    | Coding3(curr: nat, cur: Lengths, lens: seq<Lengths>, t: Tables)
    | MtfVal(d: Data)
    | MtfBit(zn: nat, zvec: nat, d: Data)
    | Output(column: seq<byte>, b: Block)
    | EndMarker(k: nat, st: Stream)
    | StreamCrc(k: nat, crc: nat, st: Stream)
    | StreamEnd
    | Failed(e: Error)

  predicate Terminal(p: Phase) { p.StreamEnd? || p.Failed? }

  /** The stream parameters a phase carries, once the header is read and while nothing has failed. */
  function StreamOf(p: Phase): Option<Stream> {
    match p
    case Magic(_) => None
    case Marker(_, st) => Some(st)
    case BlockCrc(_, _, st) => Some(st)
    case RandBit(_, st) => Some(st)
    case OrigPtr(_, b) => Some(b.st)
    case Mapping1(_, b) => Some(b.st)
    case Mapping2(_, _, b) => Some(b.st)
    case Selector1(_, b) => Some(b.st)
    case Selector2(_, _, b) => Some(b.st)
    case Selector3(_, _, _, _, _, b) => Some(b.st)
    case Coding1(_, t) => Some(t.b.st)
    case Coding2(_, _, _, t) => Some(t.b.st)
    case Coding3(_, _, _, t) => Some(t.b.st)
    case MtfVal(d) => Some(d.t.b.st)
    case MtfBit(_, _, d) => Some(d.t.b.st)
    case Output(_, b) => Some(b.st)
    case EndMarker(_, st) => Some(st)
    case StreamCrc(_, _, st) => Some(st)
    case _ => None
  }

  /** With a bound, the block size limit is no larger. */
  predicate Narrow(p: Phase, bound: nat) { 0 < bound && StreamOf(p).Some? ==> StreamOf(p).value.limit <= bound }

  // ----- what every phase keeps

  predicate OkStream(st: Stream) { st.limit <= MAX_BLOCK }

  predicate OkTables(t: Tables) {
    && OkStream(t.b.st) && 2 <= t.nGroups <= MAX_GROUPS && |UsedBytes(t.used)| > 0
    && 1 <= |t.selectors| <= MAX_SELECTORS
    && forall i {:trigger t.selectors[i]} :: 0 <= i < |t.selectors| ==> t.selectors[i] < t.nGroups
  }

  function AlphaSize(u: InUse): nat { |UsedBytes(u)| + 2 }

  predicate OkLens(lens: seq<Lengths>, t: Tables) {
    forall i {:trigger lens[i]} :: 0 <= i < |lens| ==> InRange(lens[i]) && |lens[i]| == AlphaSize(t.used)
  }

  predicate OkCurrent(curr: nat, cur: Lengths, lens: seq<Lengths>, t: Tables) {
    && OkTables(t) && OkLens(lens, t) && |lens| < t.nGroups && 1 <= curr <= LONGEST && |cur| < AlphaSize(t.used)
    && forall i {:trigger cur[i]} :: 0 <= i < |cur| ==> 1 <= cur[i] <= LONGEST
  }

  predicate OkData(d: Data) {
    && OkTables(d.t) && OkLens(d.lens, d.t) && |d.lens| == d.t.nGroups
    && Ready(d.m) && |d.m.list| == |UsedBytes(d.t.used)| && |d.m.out| <= d.t.b.st.limit
    && -1 <= d.groupNo < |d.t.selectors| && (d.groupNo == -1 ==> d.groupPos == 0)
  }

  /** The lengths of the table that the current group is coded with. */
  function GroupLens(d: Data): (l: Lengths)
    requires OkData(d) && d.groupNo >= 0
    ensures InRange(l) && |l| == AlphaSize(d.t.used)
  {
    assert d.t.selectors[d.groupNo] < d.t.nGroups;
    d.lens[d.t.selectors[d.groupNo]]
  }

  predicate Ok(p: Phase) {
    match p
    case Magic(k) => k < 4
    case Marker(k, st) => k < 6 && OkStream(st)
    case BlockCrc(k, crc, st) => k < 4 && OkStream(st)
    case RandBit(crc, st) => OkStream(st)
    case OrigPtr(k, b) => k < 3 && OkStream(b.st)
    case Mapping1(f16, b) => |f16| < 16 && OkStream(b.st)
    case Mapping2(f16, f, b) => |f16| == 16 && |f| < 256 && OkStream(b.st)
    case Selector1(used, b) => |UsedBytes(used)| > 0 && OkStream(b.st)
    case Selector2(used, nGroups, b) => |UsedBytes(used)| > 0 && OkStream(b.st) && 2 <= nGroups <= MAX_GROUPS
    case Selector3(j, sel, nSelectors, used, nGroups, b) =>
      && |UsedBytes(used)| > 0 && OkStream(b.st) && 2 <= nGroups <= MAX_GROUPS && j < nGroups && |sel| < nSelectors
      && forall i {:trigger sel[i]} :: 0 <= i < |sel| ==> sel[i] < nGroups
    case Coding1(lens, t) => OkTables(t) && OkLens(lens, t) && |lens| < t.nGroups
    case Coding2(curr, cur, lens, t) => OkCurrent(curr, cur, lens, t)
    case Coding3(curr, cur, lens, t) => OkCurrent(curr, cur, lens, t)
    case MtfVal(d) => OkData(d) && d.groupNo >= 0
    case MtfBit(zn, zvec, d) =>
      && OkData(d) && d.groupNo >= 0 && MinLen(GroupLens(d)) < zn <= LONGEST + 1
      && zvec > Limit(GroupLens(d), zn - 1)
    case Output(column, b) => OkStream(b.st) && b.origPtr < |column| <= b.st.limit
    case EndMarker(k, st) => 1 <= k < 6 && OkStream(st)
    case StreamCrc(k, crc, st) => k < 4 && OkStream(st)
    case _ => true
  }

  /** How many bits the phase waits for. */
  function Width(p: Phase): (w: nat)
    requires Ok(p)
    ensures w <= 20 && (!Terminal(p) && !p.Output? ==> w >= 1)
  {
    match p
    case RandBit(_, _) => 1
    case Mapping1(_, _) => 1
    case Mapping2(_, _, _) => 1
    case Selector1(_, _) => 3
    case Selector2(_, _, _) => 15
    case Selector3(_, _, _, _, _, _) => 1
    case Coding1(_, _) => 5
    case Coding2(_, _, _, _) => 1
    case Coding3(_, _, _, _) => 1
    case MtfVal(d) =>
      MinAndMax(GroupLens(d));
      MinLen(GroupLens(d))
    case MtfBit(_, _, _) => 1
    case Output(_, _) => 0
    case StreamEnd => 0
    case Failed(_) => 0
    case _ => 8
  }

  // ----- the transitions

  /** A whole group of sixteen is unused when its flag says so. */
  function Fill(f16: seq<bool>, f: seq<bool>): (r: seq<bool>)
    requires |f16| == 16 && |f| <= 256
    ensures |f| <= |r| <= 256
    decreases 256 - |f|
  {
    if |f| == 256 || |f| % 16 != 0 || f16[|f| / 16] then f
    else Fill(f16, f + Repeat(false, 16))
  }

  function AfterMapping(f16: seq<bool>, f: seq<bool>, b: Block): (q: Phase)
    requires |f16| == 16 && |f| <= 256 && OkStream(b.st)
    ensures Ok(q)
  {
    var r := Fill(f16, f);
    if |r| < 256 then Mapping2(f16, r, b)
    else if |UsedBytes(r)| == 0 then Failed(DataError)
    else Selector1(r, b)
  }

  /** The move-to-front decoding of the selectors. */
  function UndoSelectors(mtf: seq<nat>, pos: seq<nat>): (r: seq<nat>)
    requires forall i {:trigger mtf[i]} :: 0 <= i < |mtf| ==> mtf[i] < |pos|
    ensures |r| == |mtf|
    decreases |mtf|
  {
    if mtf == [] then []
    else
      assert forall i {:trigger mtf[1..][i]} :: 0 <= i < |mtf| - 1 ==> mtf[1..][i] == mtf[i + 1];
      [pos[mtf[0]]] + UndoSelectors(mtf[1..], MoveFront(pos, mtf[0]))
  }

  lemma {:induction false} UndoInRange(mtf: seq<nat>, pos: seq<nat>, n: nat)
    requires forall i {:trigger mtf[i]} :: 0 <= i < |mtf| ==> mtf[i] < |pos|
    requires forall i {:trigger pos[i]} :: 0 <= i < |pos| ==> pos[i] < n
    ensures forall i {:trigger UndoSelectors(mtf, pos)[i]} :: 0 <= i < |mtf| ==> UndoSelectors(mtf, pos)[i] < n
    decreases |mtf|
  {
    if mtf != [] {
      assert forall i {:trigger mtf[1..][i]} :: 0 <= i < |mtf| - 1 ==> mtf[1..][i] == mtf[i + 1];
      UndoInRange(mtf[1..], MoveFront(pos, mtf[0]), n);
    }
  }

  function Identity(n: nat): (pos: seq<nat>)
    ensures |pos| == n && forall i {:trigger pos[i]} :: 0 <= i < n ==> pos[i] == i
  {
    seq(n, i requires 0 <= i => i)
  }

  function AfterSelectors(sel: seq<nat>, used: InUse, nGroups: nat, b: Block): (q: Phase)
    requires |UsedBytes(used)| > 0 && OkStream(b.st) && 2 <= nGroups <= MAX_GROUPS && sel != []
    requires forall i {:trigger sel[i]} :: 0 <= i < |sel| ==> sel[i] < nGroups
    ensures Ok(q)
  {
    var kept := if |sel| > MAX_SELECTORS then sel[..MAX_SELECTORS] else sel;
    UndoInRange(kept, Identity(nGroups), nGroups);
    Coding1([], Tables(used, nGroups, UndoSelectors(kept, Identity(nGroups)), b))
  }

  /** Loop head of the code length reader. */
  function CheckCurr(curr: int, cur: Lengths, lens: seq<Lengths>, t: Tables): (q: Phase)
    requires 1 <= curr <= LONGEST ==> OkCurrent(curr, cur, lens, t)
    ensures Ok(q)
  {
    if 1 <= curr <= LONGEST then Coding2(curr, cur, lens, t) else Failed(DataError)
  }

  /** One more length of the table, and after the last, one more table. */
  function AddLength(curr: nat, cur: Lengths, lens: seq<Lengths>, t: Tables): (q: Phase)
    requires OkCurrent(curr, cur, lens, t)
    ensures Ok(q)
  {
    var cur' := cur + [curr];
    if |cur'| < AlphaSize(t.used) then Coding2(curr, cur', lens, t)
    else AddTable(lens + [cur'], t)
  }

  function AddTable(lens: seq<Lengths>, t: Tables): (q: Phase)
    requires OkTables(t) && OkLens(lens, t) && |lens| <= t.nGroups
    ensures Ok(q)
  {
    if |lens| < t.nGroups then Coding1(lens, t)
    else AskMtf(Data(t, lens, Fresh(UsedBytes(t.used), []), -1, 0))
  }

  /** Ask for the next symbol, moving to the next group after every fifty. */
  function AskMtf(d: Data): (q: Phase)
    requires OkData(d)
    ensures Ok(q)
  {
    if d.groupPos > 0 then MtfVal(d.(groupPos := d.groupPos - 1))
    else if d.groupNo + 1 >= |d.t.selectors| then Failed(DataError)
    else MtfVal(d.(groupNo := d.groupNo + 1, groupPos := GROUP_SIZE - 1))
  }

  function Decide(zn: nat, zvec: nat, d: Data): (q: Phase)
    requires OkData(d) && d.groupNo >= 0 && MinLen(GroupLens(d)) <= zn
    ensures Ok(q)
  {
    match LookUp(GroupLens(d), zn, zvec)
    case Corrupt => Failed(DataError)
    case Longer => MtfBit(zn + 1, zvec, d)
    case Found(sym) => TakeSymbol(sym, d)
  }

  function TakeSymbol(sym: nat, d: Data): (q: Phase)
    requires OkData(d) && sym < AlphaSize(d.t.used)
    ensures Ok(q)
  {
    var limit := d.t.b.st.limit;
    if sym == AlphaSize(d.t.used) - 1 then
      match Flush(d.m, limit)
      case None => Failed(DataError)
      case Some(f) => EndOfBlock(f.out, d.t.b)
    else
      match Step(d.m, sym, limit)
      case None => Failed(DataError)
      case Some(m') => AskMtf(d.(m := m'))
  }

  function EndOfBlock(column: seq<byte>, b: Block): (q: Phase)
    requires OkStream(b.st) && |column| <= b.st.limit
    ensures Ok(q)
  {
    if b.origPtr >= |column| then Failed(DataError) else Output(column, b)
  }

  function StartStream(level: nat, maxOutBound: nat): Stream {
    var limit := level * 100_000;
    Stream(if 0 < maxOutBound < limit then maxOutBound else limit, 0)
  }

  function NextMagic(k: nat, v: nat, maxOutBound: nat): (q: Phase)
    requires k < 4
    ensures Ok(q)
  {
    if k == 0 then if v == 0x42 then Magic(1) else Failed(MagicError)
    else if k == 1 then if v == 0x5a then Magic(2) else Failed(MagicError)
    else if k == 2 then if v == 0x68 then Magic(3) else Failed(MagicError)
    else if 0x31 <= v <= 0x39 then Marker(0, StartStream(v - 0x30, maxOutBound))
    else Failed(MagicError)
  }

  function NextMarker(k: nat, v: nat, st: Stream): (q: Phase)
    requires k < 6 && OkStream(st)
    ensures Ok(q)
  {
    if k == 0 && v == END_MARK[0] then EndMarker(1, st)
    else if v != BLOCK_MARK[k] then Failed(DataError)
    else if k < 5 then Marker(k + 1, st)
    else BlockCrc(0, 0, st)
  }

  function NextOrigPtr(k: nat, v: nat, b: Block): (q: Phase)
    requires k < 3 && OkStream(b.st)
    ensures Ok(q)
  {
    var b' := b.(origPtr := 0x100 * b.origPtr + v);
    if k < 2 then OrigPtr(k + 1, b')
    else if b'.origPtr > 10 + b.st.limit then Failed(DataError)
    else Mapping1([], b')
  }

  function NextSelector(v: nat, p: Phase): (q: Phase)
    requires p.Selector3? && Ok(p)
    ensures Ok(q)
  {
    if v == 1 then
      if p.j + 1 >= p.nGroups then Failed(DataError) else p.(j := p.j + 1)
    else if |p.sel| + 1 < p.nSelectors then p.(j := 0, sel := p.sel + [p.j])
    else AfterSelectors(p.sel + [p.j], p.used, p.nGroups, p.b)
  }

  function NextEndMarker(k: nat, v: nat, st: Stream): (q: Phase)
    requires 1 <= k < 6 && OkStream(st)
    ensures Ok(q)
  {
    if v != END_MARK[k] then Failed(DataError)
    else if k < 5 then EndMarker(k + 1, st)
    else StreamCrc(0, 0, st)
  }

  function NextStreamCrc(k: nat, crc: nat, v: nat, st: Stream): (q: Phase)
    requires k < 4 && OkStream(st)
    ensures Ok(q)
  {
    if k < 3 then StreamCrc(k + 1, 0x100 * crc + v, st)
    else if 0x100 * crc + v != st.combined then Failed(DataError)
    else StreamEnd
  }

  predicate InHeader(p: Phase) {
    p.Magic? || p.Marker? || p.BlockCrc? || p.RandBit? || p.OrigPtr? || p.EndMarker? || p.StreamCrc?
  }

  predicate InTables(p: Phase) {
    p.Mapping1? || p.Mapping2? || p.Selector1? || p.Selector2? || p.Selector3?
  }

  function NextHeader(p: Phase, v: nat, maxOutBound: nat): (q: Phase)
    requires Ok(p) && InHeader(p)
    ensures Ok(q)
  {
    match p
    case Magic(k) => NextMagic(k, v, maxOutBound)
    case Marker(k, st) => NextMarker(k, v, st)
    case BlockCrc(k, crc, st) => if k < 3 then BlockCrc(k + 1, 0x100 * crc + v, st) else RandBit(0x100 * crc + v, st)
    case RandBit(crc, st) => OrigPtr(0, Block(st, crc, 0, v == 1))
    case OrigPtr(k, b) => NextOrigPtr(k, v, b)
    case EndMarker(k, st) => NextEndMarker(k, v, st)
    case StreamCrc(k, crc, st) => NextStreamCrc(k, crc, v, st)
  }

  function NextTables(p: Phase, v: nat): (q: Phase)
    requires Ok(p) && InTables(p)
    ensures Ok(q)
  {
    match p
    case Mapping1(f16, b) =>
      var f16' := f16 + [v == 1];
      if |f16'| < 16 then Mapping1(f16', b) else AfterMapping(f16', [], b)
    case Mapping2(f16, f, b) => AfterMapping(f16, f + [v == 1], b)
    case Selector1(used, b) => if v < 2 || v > MAX_GROUPS then Failed(DataError) else Selector2(used, v, b)
    case Selector2(used, nGroups, b) => if v < 1 then Failed(DataError) else Selector3(0, [], v, used, nGroups, b)
    case Selector3(_, _, _, _, _, _) => NextSelector(v, p)
  }

  function NextCoding(p: Phase, v: nat): (q: Phase)
    requires Ok(p) && (p.Coding1? || p.Coding2? || p.Coding3?)
    ensures Ok(q)
  {
    match p
    case Coding1(lens, t) => CheckCurr(v, [], lens, t)
    case Coding2(curr, cur, lens, t) => if v == 0 then AddLength(curr, cur, lens, t) else Coding3(curr, cur, lens, t)
    case Coding3(curr, cur, lens, t) => CheckCurr(if v == 0 then curr + 1 else curr - 1, cur, lens, t)
  }

  /** The bits asked for have arrived, with value v. */
  function Next(p: Phase, v: nat, maxOutBound: nat): (q: Phase)
    requires Ok(p) && !Terminal(p) && !p.Output?
    ensures Ok(q)
  {
    if InHeader(p) then NextHeader(p, v, maxOutBound)
    else if InTables(p) then NextTables(p, v)
    else if p.MtfVal? then Decide(MinLen(GroupLens(p.d)), v, p.d)
    else if p.MtfBit? then Decide(p.zn, 2 * p.zvec + v, p.d)
    else NextCoding(p, v)
  }

  // ----- what a step keeps

  /** From behind the checksum of a block to its end. */
  predicate InBlock(p: Phase) { (!InHeader(p) && !Terminal(p)) || p.RandBit? || p.OrigPtr? }

  /** The checksum that stands in the block's header. */
  function CrcOf(p: Phase): nat {
    match p
    case RandBit(crc, st) => crc
    case OrigPtr(_, b) => b.crc
    case Mapping1(_, b) => b.crc
    case Mapping2(_, _, b) => b.crc
    case Selector1(_, b) => b.crc
    case Selector2(_, _, b) => b.crc
    case Selector3(_, _, _, _, _, b) => b.crc
    case Coding1(_, t) => t.b.crc
    case Coding2(_, _, _, t) => t.b.crc
    case Coding3(_, _, _, t) => t.b.crc
    case MtfVal(d) => d.t.b.crc
    case MtfBit(_, _, d) => d.t.b.crc
    case Output(_, b) => b.crc
    case _ => 0
  }

  /** Still in the same block of the same stream, or failed. */
  predicate Stays(p: Phase, q: Phase) {
    q.Failed? || (InBlock(q) && CrcOf(q) == CrcOf(p) && StreamOf(q) == StreamOf(p))
  }

  lemma {:induction false} BlockStays(p: Phase, v: nat, bound: nat)
    requires Ok(p) && InBlock(p) && !p.Output?
    ensures Stays(p, Next(p, v, bound))
  {
    hide OkTables, OkLens, UsedBytes, Ready, LookUp, OkStream, TakeSymbol, AskMtf, AddLength, NextHeader, NextTables;
    if InHeader(p) {
      HeaderStays(p, v, bound);
    } else if InTables(p) {
      TablesStay(p, v);
    } else if p.MtfVal? || p.MtfBit? {
      var zn, zvec := if p.MtfVal? then MinLen(GroupLens(p.d)) else p.zn, if p.MtfVal? then v else 2 * p.zvec + v;
      var r := LookUp(GroupLens(p.d), zn, zvec);
      if r.Found? {
        FoundInAlphabet(GroupLens(p.d), zn, zvec);
        SymbolStays(r.sym, p.d);
      }
    } else if p.Coding2? && v == 0 {
      LengthStays(p.curr, p.cur, p.lens, p.t);
    }
  }

  lemma {:induction false} HeaderStays(p: Phase, v: nat, bound: nat)
    requires Ok(p) && InBlock(p) && InHeader(p)
    ensures Stays(p, NextHeader(p, v, bound))
  {
    hide OkStream, NextMarker, NextEndMarker, NextStreamCrc, NextMagic;
  }

  lemma {:induction false} TablesStay(p: Phase, v: nat)
    requires Ok(p) && InTables(p)
    ensures Stays(p, NextTables(p, v))
  {
    hide OkLens, UsedBytes, UndoSelectors, Identity, Ready, Fill, InRange, OkStream;
  }

  lemma {:induction false} LengthStays(curr: nat, cur: Lengths, lens: seq<Lengths>, t: Tables)
    requires OkCurrent(curr, cur, lens, t)
    ensures Stays(Coding1(lens, t), AddLength(curr, cur, lens, t))
  {
    hide UsedBytes, Ready, OkLens, OkTables;
  }

  lemma {:induction false} SymbolStays(sym: nat, d: Data)
    requires OkData(d) && sym < AlphaSize(d.t.used)
    ensures Stays(MtfVal(d), TakeSymbol(sym, d))
  {
    hide OkTables, OkLens, UsedBytes, MoveFront, Ready;
  }

  /** Between blocks too the stream stays the same, and a bound is kept to from the header on. */
  lemma {:induction false} NarrowStep(p: Phase, v: nat, bound: nat)
    requires Ok(p) && !Terminal(p) && !p.Output? && Narrow(p, bound)
    ensures Narrow(Next(p, v, bound), bound)
  {
    if InBlock(p) {
      hide Ok, Next;
      BlockStays(p, v, bound);
    } else {
      hide OkTables, OkLens, OkData, OkCurrent;
    }
  }

  /** The block's bytes are out; the checksums must agree. */
  ghost function Deliver(p: Phase): (q: Phase)
    requires p.Output? && Ok(p)
    ensures Ok(q) && !q.Output?
  {
    hide OutputStage.BlockOutput, Checksum, Combine;
    var u := OutputStage.BlockOutput(p.column, p.b.origPtr, p.b.randomised);
    if u.corrupt || Checksum(u.out) != p.b.crc then Failed(DataError)
    else Marker(0, p.b.st.(combined := Combine(p.b.st.combined, Checksum(u.out))))
  }

  lemma {:induction false} NarrowDelivered(p: Phase, bound: nat)
    requires p.Output? && Ok(p) && Narrow(p, bound)
    ensures Narrow(Deliver(p), bound)
  {
    hide OutputStage.BlockOutput, Checksum, Combine;
  }

  // ----- runs

  /** The phase reached, the bits too few to leave it, and the bytes of the blocks accepted on the way. */
  datatype Result = Result(phase: Phase, rest: bits, out: seq<byte>)

  function Behind(out: seq<byte>, r: Result): Result { r.(out := out + r.out) }

  ghost function Accepted(p: Phase): seq<byte>
    requires p.Output? && Ok(p)
  {
    hide OutputStage.BlockOutput, Deliver;
    if Deliver(p).Failed? then [] else OutputStage.BlockOutput(p.column, p.b.origPtr, p.b.randomised).out
  }

  /** As far as the bits go. */
  ghost function Run(p: Phase, b: bits, maxOutBound: nat): (r: Result)
    requires Ok(p)
    ensures Ok(r.phase)
    decreases |b|, if p.Output? then 1 else 0
  {
    if p.Output? then Behind(Accepted(p), Run(Deliver(p), b, maxOutBound))
    else if Terminal(p) || |b| < Width(p) then Result(p, b, [])
    else Run(Next(p, Val(b[..Width(p)]), maxOutBound), b[Width(p)..], maxOutBound)
  }

  /** A run that has ended, or starves at once. */
  lemma {:induction false} TerminalRun(p: Phase, b: bits, bound: nat)
    requires Ok(p)
    ensures Terminal(p) ==> Run(p, b, bound) == Result(p, b, [])
    ensures !p.Output? && |b| < Width(p) ==> Run(p, b, bound) == Result(p, b, [])
  {
    hide Ok, Next, Deliver, Accepted;
  }

  /** As far as the bits go, but no further than the end of a block: (phase, bits left). */
  ghost function Parse(p: Phase, b: bits, maxOutBound: nat): (r: (Phase, bits))
    requires Ok(p)
    ensures Ok(r.0)
    decreases |b|
  {
    if p.Output? || Terminal(p) || |b| < Width(p) then (p, b)
    else Parse(Next(p, Val(b[..Width(p)]), maxOutBound), b[Width(p)..], maxOutBound)
  }

  /** A run goes on from where the parse stops. */
  lemma {:induction false} ParseRun(p: Phase, b: bits, bound: nat)
    requires Ok(p)
    ensures Run(p, b, bound) == Run(Parse(p, b, bound).0, Parse(p, b, bound).1, bound)
    decreases |b|
  {
    hide Next, Deliver, Ok, Accepted;
    if !p.Output? && !Terminal(p) && |b| >= Width(p) {
      var w := Width(p);
      ParseRun(Next(p, Val(b[..w]), bound), b[w..], bound);
    }
  }

  lemma {:induction false} ParseConcat(p: Phase, a: bits, b: bits, bound: nat)
    requires Ok(p)
    ensures var r := Parse(p, a, bound); Parse(p, a + b, bound) == Parse(r.0, r.1 + b, bound)
    decreases |a|
  {
    hide Next, Ok;
    if !p.Output? && !Terminal(p) && |a| >= Width(p) {
      var w := Width(p);
      assert (a + b)[..w] == a[..w] && (a + b)[w..] == a[w..] + b;
      ParseConcat(Next(p, Val(a[..w]), bound), a[w..], b, bound);
    }
  }

  /** Resumable: the input may be split between any two bits. */
  lemma {:induction false} RunConcat(p: Phase, a: bits, b: bits, bound: nat)
    requires Ok(p)
    ensures var r := Run(p, a, bound);
            Run(p, a + b, bound) == Behind(r.out, Run(r.phase, r.rest + b, bound))
    decreases |a|, if p.Output? then 1 else 0
  {
    hide Next, Deliver, Ok, Accepted;
    if p.Output? {
      RunConcat(Deliver(p), a, b, bound);
      var r := Run(Deliver(p), a, bound);
      var s := Run(r.phase, r.rest + b, bound);
      assert Accepted(p) + (r.out + s.out) == Accepted(p) + r.out + s.out;
    } else if !Terminal(p) && |a| >= Width(p) {
      var w := Width(p);
      assert (a + b)[..w] == a[..w] && (a + b)[w..] == a[w..] + b;
      RunConcat(Next(p, Val(a[..w]), bound), a[w..], b, bound);
    } else {
      var s := Run(p, a + b, bound);
      assert [] + s.out == s.out;
    }
  }

  /** Wherever a run stands that began under the bound, it is under the bound. */
  lemma {:induction false} NarrowRun(p: Phase, b: bits, bound: nat)
    requires Ok(p) && Narrow(p, bound)
    ensures Narrow(Run(p, b, bound).phase, bound) && Narrow(Parse(p, b, bound).0, bound)
    decreases |b|, if p.Output? then 1 else 0
  {
    hide Next, Deliver, Ok, Accepted, Narrow;
    if p.Output? {
      NarrowDelivered(p, bound);
      NarrowRun(Deliver(p), b, bound);
    } else if !Terminal(p) && |b| >= Width(p) {
      var w := Width(p);
      NarrowStep(p, Val(b[..w]), bound);
      NarrowRun(Next(p, Val(b[..w]), bound), b[w..], bound);
    }
  }

  /** What has failed stays failed, whatever follows. */
  lemma {:induction false} FailedForGood(p: Phase, a: bits, b: bits, bound: nat)
    requires Ok(p) && Terminal(Run(p, a, bound).phase)
    ensures Run(p, a + b, bound).phase == Run(p, a, bound).phase
  {
    RunConcat(p, a, b, bound);
  }
}
