/**
 * BZ2_decompress up to the first symbol: stream and block headers, the map of bytes in use,
 * selectors and code lengths, one field at a time, with the loop counters and tables that
 * are kept from one suspension to the next.
 */
module HeaderReader {
  import opened Prelude
  import opened Bits
  import opened Crc
  import opened HuffmanCodes
  import opened MoveToFront
  import opened MtfEncoder
  import opened Decompress
  import RunLength

  /** The points of suspension, by what is waited for. */
  datatype Label =
    | MagicByte(k: nat) | MarkByte(k: nat) | CrcByte(k: nat) | RandomBit | OrigByte(k: nat)
    | GroupFlag | ByteFlag | GroupCount | SelectorCount | SelectorBit | FirstLength | MoreBit | SignBit
    | EndByte(k: nat) | CombinedByte(k: nat) | Symbols | Idle | Broken(e: Error)

  /** What is saved there, under the source's names. */
  datatype Save = Save(
    at: Label, i: nat, j: nat, t: nat, nGroups: nat, nSelectors: nat, curr: nat, nInUse: nat, seqToUnseq: seq<byte>,
    nblockLimit: nat, calculatedCombinedCRC: word, storedCRC: nat, blockRandomised: bool, origPtr: nat,
    inUse16: seq<bool>, inUse: InUse, selectorMtf: seq<nat>, selector: seq<nat>, len: seq<Lengths>)

  /** The tables have the sizes of the arrays they stand for. */
  predicate Sized(s: Save) {
    && |s.inUse16| == 16 && |s.selectorMtf| == |s.selector| == MAX_SELECTORS && |s.len| == MAX_GROUPS
    && forall t {:trigger s.len[t]} :: 0 <= t < |s.len| ==> |s.len[t]| == MAX_ALPHA_SIZE
  }

  lemma {:induction false} StillSized(s: Save, r: Save)
    requires Sized(s) && r.inUse16 == s.inUse16 && r.selectorMtf == s.selectorMtf && r.selector == s.selector
      && r.len == s.len
    ensures Sized(r)
  {
  }

  function Empty(): (s: Save)
    ensures Sized(s)
  {
    Save(MagicByte(0), 0, 0, 0, 0, 0, 0, 0, [], 0, 0, 0, false, 0, Repeat(false, 16), Repeat(false, 256),
         Repeat(0, MAX_SELECTORS), Repeat(0, MAX_SELECTORS), Repeat(Repeat(0, MAX_ALPHA_SIZE), MAX_GROUPS))
  }

  function StreamIn(s: Save): Stream { Stream(s.nblockLimit, s.calculatedCombinedCRC) }

  function BlockIn(s: Save): Block { Block(StreamIn(s), s.storedCRC, s.origPtr, s.blockRandomised) }

  function TablesIn(s: Save): Tables
    requires s.nSelectors <= |s.selector|
  {
    Tables(s.inUse, s.nGroups, s.selector[..s.nSelectors], BlockIn(s))
  }

  /** The first n tables, as long as the alphabet. */
  ghost predicate LensIn(s: Save, lens: seq<Lengths>) {
    && Sized(s) && |lens| <= MAX_GROUPS && s.nInUse + 2 <= MAX_ALPHA_SIZE
    && forall t {:trigger lens[t]} :: 0 <= t < |lens| ==> lens[t] == s.len[t][..s.nInUse + 2]
  }

  predicate UsedIn(s: Save, used: InUse) { s.inUse == used && s.seqToUnseq == UsedBytes(used)
      && s.nInUse == |s.seqToUnseq| }

  /** The selector numbers read so far, of which no more are stored than there is room for. */
  predicate SelectorsIn(s: Save, sel: seq<nat>) {
    && s.i == |sel| && Sized(s)
    && var m := if |sel| > MAX_SELECTORS then MAX_SELECTORS else |sel|; s.selectorMtf[..m] == sel[..m]
  }

  ghost predicate CurrentIn(s: Save, curr: nat, cur: Lengths, lens: seq<Lengths>, t: Tables) {
    && s.curr == curr && s.i == |cur| && s.t == |lens| < MAX_GROUPS && LensIn(s, lens) && UsedIn(s, t.used)
    && s.nSelectors <= MAX_SELECTORS && TablesIn(s) == t && s.i <= MAX_ALPHA_SIZE && s.len[s.t][..s.i] == cur
  }

  predicate InHeaderAt(s: Save, p: Phase)
    requires InHeader(p)
  {
    match p
    case Magic(k) => s.at == MagicByte(k)
    case Marker(k, st) => s.at == MarkByte(k) && StreamIn(s) == st
    case BlockCrc(k, crc, st) => s.at == CrcByte(k) && StreamIn(s) == st && s.storedCRC == crc
    case RandBit(crc, st) => s.at == RandomBit && StreamIn(s) == st && s.storedCRC == crc
    case OrigPtr(k, b) => s.at == OrigByte(k) && BlockIn(s) == b
    case EndMarker(k, st) => s.at == EndByte(k) && StreamIn(s) == st
    case StreamCrc(k, crc, st) => s.at == CombinedByte(k) && StreamIn(s) == st && s.storedCRC == crc
  }

  predicate InTablesAt(s: Save, p: Phase)
    requires Sized(s) && InTables(p)
  {
    match p
    case Mapping1(f16, b) => s.at == GroupFlag && BlockIn(s) == b && s.i == |f16| < 16 && s.inUse16[..s.i] == f16
    case Mapping2(f16, f, b) =>
      && s.at == ByteFlag && BlockIn(s) == b && s.inUse16 == f16 && s.i < 16 && s.j < 16 && s.inUse16[s.i]
      && |f| == 16 * s.i + s.j && s.inUse == f + Repeat(false, 256 - |f|)
    case Selector1(used, b) => s.at == GroupCount && BlockIn(s) == b && UsedIn(s, used)
    case Selector2(used, nGroups, b) => s.at == SelectorCount && BlockIn(s) == b && UsedIn(s, used)
      && s.nGroups == nGroups
    case Selector3(j, sel, nSelectors, used, nGroups, b) =>
      && s.at == SelectorBit && BlockIn(s) == b && UsedIn(s, used) && s.nGroups == nGroups && s.nSelectors == nSelectors
      && s.j == j && SelectorsIn(s, sel)
  }

  ghost predicate InLengthsAt(s: Save, p: Phase) {
    match p
    case Coding1(lens, t) =>
      && s.at == FirstLength && s.t == |lens| && LensIn(s, lens) && UsedIn(s, t.used)
      && s.nSelectors <= MAX_SELECTORS && TablesIn(s) == t
    case Coding2(curr, cur, lens, t) => s.at == MoreBit && CurrentIn(s, curr, cur, lens, t)
    case Coding3(curr, cur, lens, t) => s.at == SignBit && CurrentIn(s, curr, cur, lens, t)
    case MtfVal(d) =>
      && s.at == Symbols && LensIn(s, d.lens) && |d.lens| == s.nGroups && UsedIn(s, d.t.used)
      && s.nSelectors <= MAX_SELECTORS && TablesIn(s) == d.t
    case _ => false
  }

  predicate OverAt(s: Save, p: Phase) {
    match p
    case StreamEnd => s.at == Idle
    case Failed(e) => s.at == Broken(e)
    case _ => false
  }

  /** The fields are those of a decoder in this phase. */
  ghost predicate Means(s: Save, p: Phase) {
    && Sized(s)
    && if InHeader(p) then InHeaderAt(s, p) else if InTables(p) then InTablesAt(s, p)
      else if Terminal(p) then OverAt(s, p) else InLengthsAt(s, p)
  }

  // ----- headers

  /** A byte of a header, or the bit that says whether the block is randomised. */
  method HeaderField(s: Save, v: nat, bound: nat, ghost p: Phase) returns (r: Save)
    requires Ok(p) && InHeader(p) && Means(s, p)
    ensures Means(r, NextHeader(p, v, bound))
  {
    hide InLengthsAt, NextMagic, NextOrigPtr, NextMarker, NextEndMarker, NextStreamCrc;
    match s.at
    case MagicByte(k) => r := MagicField(s, k, v, bound);
    case MarkByte(k) => r := MarkField(s, k, v);
    case CrcByte(k) =>
      r := s.(storedCRC := 0x100 * s.storedCRC + v, at := if k < 3 then CrcByte(k + 1) else RandomBit);
    case RandomBit =>
      r := s.(blockRandomised := v == 1, at := OrigByte(0), origPtr := 0);
    case OrigByte(k) => r := OrigField(s, k, v);
    case EndByte(k) => r := EndField(s, k, v);
    case CombinedByte(k) => r := CombinedField(s, k, v);
  }

  method MarkField(s: Save, k: nat, v: nat) returns (r: Save)
    requires k < 6 && OkStream(StreamIn(s)) && Means(s, Marker(k, StreamIn(s)))
    ensures Means(r, NextMarker(k, v, StreamIn(s)))
  {
    hide InLengthsAt;
    if k == 0 && v == END_MARK[0] {
      r := s.(at := EndByte(1));
    } else if v != BLOCK_MARK[k] {
      r := s.(at := Broken(DataError));
    } else {
      r := if k < 5 then s.(at := MarkByte(k + 1)) else s.(at := CrcByte(0), storedCRC := 0);
    }
  }

  method EndField(s: Save, k: nat, v: nat) returns (r: Save)
    requires 1 <= k < 6 && OkStream(StreamIn(s)) && Means(s, EndMarker(k, StreamIn(s)))
    ensures Means(r, NextEndMarker(k, v, StreamIn(s)))
  {
    hide InLengthsAt;
    if v != END_MARK[k] {
      r := s.(at := Broken(DataError));
    } else {
      r := if k < 5 then s.(at := EndByte(k + 1)) else s.(at := CombinedByte(0), storedCRC := 0);
    }
  }

  method CombinedField(s: Save, k: nat, v: nat) returns (r: Save)
    requires k < 4 && OkStream(StreamIn(s)) && Means(s, StreamCrc(k, s.storedCRC, StreamIn(s)))
    ensures Means(r, NextStreamCrc(k, s.storedCRC, v, StreamIn(s)))
  {
    hide InLengthsAt;
    r := s.(storedCRC := 0x100 * s.storedCRC + v);
    if k < 3 {
      r := r.(at := CombinedByte(k + 1));
    } else {
      r := r.(at := if r.storedCRC != r.calculatedCombinedCRC then Broken(DataError) else Idle);
    }
  }

  method MagicField(s: Save, k: nat, v: nat, bound: nat) returns (r: Save)
    requires k < 4 && Means(s, Magic(k))
    ensures Means(r, NextMagic(k, v, bound))
  {
    hide InLengthsAt;
    if k < 3 {
      r := s.(at := if v == [0x42, 0x5a, 0x68][k] then MagicByte(k + 1) else Broken(MagicError));
    } else if v < 0x31 || v > 0x39 {
      r := s.(at := Broken(MagicError));
    } else {
      var nblockLimit := (v - 0x30) * 100_000;
      if bound > 0 && bound < nblockLimit {
        nblockLimit := bound;
      }
      r := s.(at := MarkByte(0), nblockLimit := nblockLimit, calculatedCombinedCRC := 0);
    }
  }

  method OrigField(s: Save, k: nat, v: nat) returns (r: Save)
    requires k < 3 && OkStream(StreamIn(s)) && Means(s, OrigPtr(k, BlockIn(s)))
    ensures Means(r, NextOrigPtr(k, v, BlockIn(s)))
  {
    hide InLengthsAt;
    r := s.(origPtr := 0x100 * s.origPtr + v);
    if k < 2 {
      r := r.(at := OrigByte(k + 1));
    } else if r.origPtr > 10 + r.nblockLimit {
      r := r.(at := Broken(DataError));
    } else {
      r := r.(at := GroupFlag, i := 0);
    }
  }

  // ----- the map of bytes in use

  method GroupField(s: Save, v: nat, ghost p: Phase) returns (r: Save)
    requires Ok(p) && p.Mapping1? && Means(s, p)
    ensures Means(r, NextTables(p, v))
  {
    hide Fill, InLengthsAt, InHeaderAt, NextSelector, UsedIn, SelectorsIn, AfterMapping;
    r := s.(inUse16 := s.inUse16[s.i := v == 1], i := s.i + 1);
    assert r.inUse16[..r.i] == p.f16 + [v == 1];
    if r.i == 16 {
      assert r.inUse16 == p.f16 + [v == 1];
      r := r.(inUse := Repeat(false, 256), i := 0, j := 0);
      r := NextGroup(r, [], p.b);
    }
  }

  method ByteField(s: Save, v: nat, ghost p: Phase) returns (r: Save)
    requires Ok(p) && p.Mapping2? && Means(s, p)
    ensures Means(r, NextTables(p, v))
  {
    hide Fill, InLengthsAt, InHeaderAt, NextSelector, UsedIn, SelectorsIn;
    ghost var f := p.f + [v == 1];
    var k := 16 * s.i + s.j;
    r := s.(inUse := s.inUse[k := v == 1], j := s.j + 1);
    assert r.inUse == f + Repeat(false, 256 - |f|) by {
      RunLength.RepeatFront(false, 256 - |p.f|);
    }
    if r.j == 16 {
      r := r.(i := r.i + 1, j := 0);
      r := NextGroup(r, f, p.b);
    } else {
      InsideGroup(s.inUse16, f);
    }
  }

  lemma {:induction false} InsideGroup(f16: seq<bool>, f: seq<bool>)
    requires |f16| == 16 && |f| < 256 && (|f| % 16 != 0 || f16[|f| / 16])
    ensures Fill(f16, f) == f
  {
  }

  lemma {:induction false} GroupSkipped(f16: seq<bool>, f: seq<bool>)
    requires |f16| == 16 && |f| < 256 && |f| % 16 == 0 && !f16[|f| / 16]
    ensures Fill(f16, f) == Fill(f16, f + Repeat(false, 16))
  {
  }

  lemma {:induction false} AllGroups(f16: seq<bool>, f: seq<bool>)
    requires |f16| == 16 && |f| == 256
    ensures Fill(f16, f) == f
  {
  }

  lemma {:induction false} MoreFalse(m: nat, n: nat)
    ensures Repeat(false, m) + Repeat(false, n) == Repeat(false, m + n)
  {
  }

  /** From the beginning of a group of sixteen: groups not in use are passed over. */
  method NextGroup(s: Save, ghost f: seq<bool>, ghost b: Block) returns (r: Save)
    requires Sized(s) && s.i <= 16 && s.j == 0 && |f| == 16 * s.i && s.inUse == f + Repeat(false, 256 - |f|)
    requires BlockIn(s) == b && OkStream(b.st)
    ensures Means(r, AfterMapping(s.inUse16, f, b))
  {
    hide UsedBytes, InLengthsAt, InHeaderAt, SelectorsIn, Fill;
    r := s;
    ghost var g := f;
    while r.i < 16 && !r.inUse16[r.i]
      invariant r == s.(i := r.i) && r.i <= 16 && |g| == 16 * r.i && s.inUse == g + Repeat(false, 256 - |g|)
      invariant Fill(s.inUse16, f) == Fill(s.inUse16, g)
      decreases 16 - r.i
    {
      GroupSkipped(s.inUse16, g);
      MoreFalse(16, 240 - |g|);
      assert g + Repeat(false, 256 - |g|) == (g + Repeat(false, 16)) + Repeat(false, 240 - |g|);
      g := g + Repeat(false, 16);
      r := r.(i := r.i + 1);
    }
    if r.i < 16 {
      InsideGroup(s.inUse16, g);
      r := r.(at := ByteFlag);
    } else {
      AllGroups(s.inUse16, g);
      assert s.inUse == g;
      r := MapRead(r);
    }
  }

  /** The map is complete. */
  method MapRead(s: Save) returns (r: Save)
    requires Sized(s)
    ensures Means(r, if |UsedBytes(s.inUse)| == 0 then Failed(DataError) else Selector1(s.inUse, BlockIn(s)))
  {
    hide InLengthsAt, InHeaderAt, SelectorsIn;
    var seqToUnseq := MakeDecodeMaps(s.inUse);
    r := s.(seqToUnseq := seqToUnseq, nInUse := |seqToUnseq|, at := if seqToUnseq == [] then Broken(DataError)
      else GroupCount);
  }

  /** makeMaps_d */
  method MakeDecodeMaps(inUse: InUse) returns (seqToUnseq: seq<byte>)
    ensures seqToUnseq == UsedBytes(inUse)
  {
    seqToUnseq := [];
    for i := 0 to 256
      invariant seqToUnseq == UsedBelow(inUse, i)
    {
      if inUse[i] {
        seqToUnseq := seqToUnseq + [i];
      }
    }
  }

  // ----- selectors

  method CountField(s: Save, v: nat, ghost p: Phase) returns (r: Save)
    requires Ok(p) && (p.Selector1? || p.Selector2?) && Means(s, p)
    ensures Means(r, NextTables(p, v))
  {
    hide InLengthsAt, InHeaderAt, Fill, AfterMapping, AfterSelectors, UsedBytes, UndoSelectors, NextSelector;
    if s.at.GroupCount? {
      r := if v < 2 || v > MAX_GROUPS then s.(at := Broken(DataError)) else s.(at := SelectorCount, nGroups := v);
    } else {
      r := if v < 1 then s.(at := Broken(DataError)) else s.(at := SelectorBit, nSelectors := v, i := 0, j := 0);
    }
  }

  method SelectorField(s: Save, v: nat, ghost p: Phase) returns (r: Save)
    requires Ok(p) && p.Selector3? && Means(s, p) && v < 2
    ensures Means(r, NextTables(p, v))
  {
    hide InLengthsAt, InHeaderAt, Fill, AfterMapping, AfterSelectors, UsedBytes, UndoSelectors;
    if v == 1 {
      r := s.(j := s.j + 1);
      if r.j >= r.nGroups {
        r := r.(at := Broken(DataError));
      }
    } else {
      r := s.(i := s.i + 1, j := 0, selectorMtf := if s.i < MAX_SELECTORS then s.selectorMtf[s.i := s.j]
        else s.selectorMtf);
      assert SelectorsIn(r, p.sel + [p.j]);
      if r.i >= r.nSelectors {
        r := AllSelectors(r, p.sel + [p.j], p.b);
      }
    }
  }

  /** The last selector is read: those there is no room for are forgotten, and the numbers undone. */
  method AllSelectors(s: Save, ghost sel: seq<nat>, ghost b: Block) returns (r: Save)
    requires SelectorsIn(s, sel) && sel != [] && |sel| == s.nSelectors && UsedIn(s, s.inUse) && s.nInUse > 0
      && BlockIn(s) == b
    requires OkStream(b.st) && 2 <= s.nGroups <= MAX_GROUPS
    requires forall i {:trigger sel[i]} :: 0 <= i < |sel| ==> sel[i] < s.nGroups
    ensures Means(r, AfterSelectors(sel, s.inUse, s.nGroups, b))
  {
    hide InTablesAt, InHeaderAt, UsedBytes, UndoSelectors;
    r := s;
    if r.nSelectors > MAX_SELECTORS {
      r := r.(nSelectors := MAX_SELECTORS);
    }
    ghost var kept := if |sel| > MAX_SELECTORS then sel[..MAX_SELECTORS] else sel;
    assert r.selectorMtf[..r.nSelectors] == kept;
    var selector := UndoMtf(r.selectorMtf[..r.nSelectors], r.nGroups);
    r := r.(selector := selector + r.selector[|selector|..], t := 0, at := FirstLength);
    assert r.selector[..r.nSelectors] == selector;
    UsedFew(s.inUse);
  }

  method UndoMtf(selectorMtf: seq<nat>, nGroups: nat) returns (selector: seq<nat>)
    requires forall i {:trigger selectorMtf[i]} :: 0 <= i < |selectorMtf| ==> selectorMtf[i] < nGroups
    ensures selector == UndoSelectors(selectorMtf, Identity(nGroups))
  {
    hide UndoSelectors;
    var pos := new nat[nGroups](v => v);
    assert pos[..] == Identity(nGroups);
    selector := [];
    ghost var all := UndoSelectors(selectorMtf, Identity(nGroups));
    assert selectorMtf[0..] == selectorMtf && [] + all == all;
    for i := 0 to |selectorMtf|
      invariant forall k {:trigger selectorMtf[i..][k]} :: 0 <= k < |selectorMtf| - i ==> selectorMtf[i..][k] < nGroups
      invariant selector + UndoSelectors(selectorMtf[i..], pos[..]) == all
    {
      ghost var y, rest := pos[..], selectorMtf[i..];
      assert rest[0] == selectorMtf[i] && rest[1..] == selectorMtf[i + 1..];
      assert forall k {:trigger rest[1..][k]} :: 0 <= k < |rest| - 1 ==> rest[1..][k] == rest[k + 1];
      UndoNext(selector, rest, y);
      var tmp := ToFront(pos, selectorMtf[i]);
      selector := selector + [tmp];
    }
    assert selectorMtf[|selectorMtf|..] == [];
    UndoNone(pos[..]);
    assert selector + [] == selector;
  }

  lemma {:induction false} UndoNone(pos: seq<nat>)
    ensures UndoSelectors([], pos) == []
  {
  }

  lemma {:induction false} UndoNext(done: seq<nat>, rest: seq<nat>, pos: seq<nat>)
    requires rest != [] && forall k {:trigger rest[k]} :: 0 <= k < |rest| ==> rest[k] < |pos|
    requires forall k {:trigger rest[1..][k]} :: 0 <= k < |rest| - 1 ==> rest[1..][k] < |pos|
    ensures done + UndoSelectors(rest, pos) == done + [pos[rest[0]]] + UndoSelectors(rest[1..], MoveFront(pos, rest[0]))
  {
  }

  /** The entry at v moves to the front. */
  method ToFront(pos: array<nat>, v0: nat) returns (tmp: nat)
    requires v0 < pos.Length
    modifies pos
    ensures tmp == old(pos[v0]) && pos[..] == MoveFront(old(pos[..]), v0)
  {
    ghost var y := pos[..];
    var v := v0;
    tmp := pos[v];
    while v > 0
      invariant v <= v0 && tmp == y[v0]
      invariant forall k {:trigger pos[k]} :: 0 <= k < pos.Length ==> pos[k] == if v < k <= v0 then y[k - 1] else y[k]
    {
      pos[v] := pos[v - 1];
      v := v - 1;
    }
    pos[0] := tmp;
    assert pos[..] == MoveFront(y, v0);
  }

  // ----- code lengths

  method CodingField(s: Save, v: nat, ghost p: Phase) returns (r: Save)
    requires Ok(p) && (p.Coding1? || p.Coding2? || p.Coding3?) && Means(s, p) && (!p.Coding1? ==> v < 2)
    ensures Means(r, NextCoding(p, v))
  {
    hide UsedBytes, InTablesAt, InHeaderAt, AddLength, CheckCurr, OkLens, OkTables, LensIn, TablesIn, Means;
    CodingMeans(s, p);
    match s.at
    case FirstLength =>
      FirstOf(s, v, p.lens, p.t);
      r := CheckLength(s.(curr := v, i := 0), [], p.lens, p.t);
    case MoreBit =>
      if v == 0 {
        r := StoreLength(s, p.curr, p.cur, p.lens, p.t);
      } else {
        r := s.(at := SignBit);
        CurrentElsewhere(s, r, p.curr, p.cur, p.lens, p.t);
        MeansCoding(r, Coding3(p.curr, p.cur, p.lens, p.t));
      }
    case SignBit =>
      r := s.(curr := if v == 0 then s.curr + 1 else s.curr - 1);
      CurrentElsewhere(s, r, p.curr, p.cur, p.lens, p.t);
      r := CheckLength(r, p.cur, p.lens, p.t);
  }

  lemma {:induction false} CodingMeans(s: Save, p: Phase)
    requires Ok(p) && (p.Coding1? || p.Coding2? || p.Coding3?) && Means(s, p)
    ensures Sized(s) && InLengthsAt(s, p)
    ensures !p.Coding1? ==> OkCurrent(1, p.cur, p.lens, p.t)
  {
  }

  lemma {:induction false} MeansCoding(s: Save, p: Phase)
    requires (p.Coding1? || p.Coding2? || p.Coding3?) && Sized(s) && InLengthsAt(s, p)
    ensures Means(s, p)
  {
    hide InLengthsAt;
  }

  /** Where it is suspended and what length it holds is apart from the tables. */
  lemma {:induction false} CurrentElsewhere(s: Save, r: Save, curr: nat, cur: Lengths, lens: seq<Lengths>, t: Tables)
    requires CurrentIn(s, curr, cur, lens, t) && r == s.(at := r.at, curr := r.curr)
    ensures CurrentIn(r, r.curr, cur, lens, t)
  {
    hide UsedBytes;
  }

  lemma {:induction false} FirstOf(s: Save, v: nat, lens: seq<Lengths>, t: Tables)
    requires Ok(Coding1(lens, t)) && Sized(s) && InLengthsAt(s, Coding1(lens, t))
    ensures OkCurrent(1, [], lens, t) && CurrentIn(s.(curr := v, i := 0), v, [], lens, t)
  {
    hide UsedBytes;
  }

  method CheckLength(s: Save, ghost cur: Lengths, ghost lens: seq<Lengths>, ghost t: Tables) returns (r: Save)
    requires OkCurrent(1, cur, lens, t) && Sized(s) && CurrentIn(s, s.curr, cur, lens, t)
    ensures (1 <= s.curr <= LONGEST ==> OkCurrent(s.curr, cur, lens, t)) && Means(r, CheckCurr(s.curr, cur, lens, t))
  {
    hide CurrentIn, OkTables, OkLens;
    r := s.(at := if s.curr < 1 || s.curr > 20 then Broken(DataError) else MoreBit);
    CurrentElsewhere(s, r, s.curr, cur, lens, t);
  }

  /** A length is stored; after the last of a table comes the next table, after the last table the symbols. */
  method StoreLength(s: Save, ghost curr: nat, ghost cur: Lengths, ghost lens: seq<Lengths>, ghost t: Tables)
    returns (r: Save)
    requires OkCurrent(curr, cur, lens, t) && s.at == MoreBit && CurrentIn(s, curr, cur, lens, t)
    ensures Means(r, AddLength(curr, cur, lens, t))
  {
    hide InTablesAt, InHeaderAt, UsedBytes;
    var row := s.len[s.t][s.i := s.curr];
    r := s.(len := s.len[s.t := row], i := s.i + 1);
    assert row[..r.i] == cur + [curr];
    if r.i == r.nInUse + 2 {
      r := r.(t := r.t + 1, i := 0);
      r := r.(at := if r.t < r.nGroups then FirstLength else Symbols);
    }
  }

  // ----- all of them

  /** One field of a header or of the tables has arrived, with value v. */
  method Field(s: Save, v: nat, bound: nat, ghost p: Phase) returns (r: Save)
    requires Ok(p) && !Terminal(p) && !p.MtfVal? && !p.MtfBit? && !p.Output? && Means(s, p) && v < Pow2(Width(p))
    ensures Means(r, Next(p, v, bound))
  {
    hide NextHeader, NextTables, NextCoding;
    OneBitOnly(p, v);
    match s.at
    case GroupFlag => r := GroupField(s, v, p);
    case ByteFlag => r := ByteField(s, v, p);
    case GroupCount => r := CountField(s, v, p);
    case SelectorCount => r := CountField(s, v, p);
    case SelectorBit => r := SelectorField(s, v, p);
    case FirstLength => r := CodingField(s, v, p);
    case MoreBit => r := CodingField(s, v, p);
    case SignBit => r := CodingField(s, v, p);
    case _ => r := HeaderField(s, v, bound, p);
  }

  lemma {:induction false} OneBitOnly(p: Phase, v: nat)
    requires Ok(p) && v < Pow2(Width(p))
    ensures Width(p) == 1 ==> v < 2
  {
    assert Pow2(1) == 2;
  }

  // ----- what the label tells

  predicate Over(at: Label) { at.Idle? || at.Broken? }

  lemma {:induction false} AtTells(s: Save, p: Phase)
    requires Means(s, p)
    ensures (s.at.Symbols? <==> p.MtfVal?) && (s.at.MagicByte? <==> p.Magic?) && (s.at.MarkByte? <==> p.Marker?)
    ensures (Over(s.at) <==> Terminal(p)) && (s.at.Idle? <==> p.StreamEnd?)
    ensures (s.at.Broken? <==> p.Failed?) && (p.Failed? ==> s.at.e == p.e)
    ensures Sized(s) && (p.Marker? ==> StreamIn(s) == p.st)
  {
    hide UsedBytes, LensIn, CurrentIn, SelectorsIn, TablesIn;
  }

  /** How many bits are asked for. */
  function FieldWidth(at: Label): nat {
    match at
    case RandomBit => 1
    case GroupFlag => 1
    case ByteFlag => 1
    case GroupCount => 3
    case SelectorCount => 15
    case SelectorBit => 1
    case FirstLength => 5
    case MoreBit => 1
    case SignBit => 1
    case _ => 8
  }

  lemma {:induction false} WidthIs(s: Save, p: Phase)
    requires Ok(p) && Means(s, p) && !Terminal(p) && !p.MtfVal?
    ensures FieldWidth(s.at) == Width(p)
  {
    hide UsedBytes, LensIn, CurrentIn, SelectorsIn, TablesIn, OkTables, OkLens;
  }

  /** The tables read, cut to the alphabet. */
  function LensOf(s: Save): seq<Lengths>
    requires Sized(s) && s.nGroups <= MAX_GROUPS && s.nInUse + 2 <= MAX_ALPHA_SIZE
  {
    seq(s.nGroups, t requires 0 <= t < s.nGroups => s.len[t][..s.nInUse + 2])
  }

  lemma {:induction false} TablesRead(s: Save, d: Data)
    requires Means(s, MtfVal(d))
    ensures Sized(s) && s.nGroups <= MAX_GROUPS && s.nInUse + 2 <= MAX_ALPHA_SIZE && s.nSelectors <= |s.selector|
    ensures s.seqToUnseq == UsedBytes(d.t.used) && TablesIn(s) == d.t && LensOf(s) == d.lens && BlockIn(s) == d.t.b
  {
    hide UsedBytes;
  }
}
