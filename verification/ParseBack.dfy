/**
 * The decoder reads back what the encoder writes: header, byte map, selectors, code
 * lengths and symbols, for every plan.
 */
module ParseBack {
  import opened Prelude
  import opened Bits
  import opened BitWriter
  import opened Crc
  import opened HuffmanCodes
  import opened MoveToFront
  import opened MtfEncoder
  import opened BwtDecoder
  import opened Decompress
  import opened BlockFormat

  /** From phase p, the bits b lead to phase q with none left over, and no block is given out on the way. */
  ghost predicate Leads(p: Phase, b: bits, q: Phase, bound: nat) {
    Ok(p) && Ok(q) && Parse(p, b, bound) == Parse(q, [], bound)
  }

  lemma {:induction false} LeadsTrans(p: Phase, a: bits, q: Phase, b: bits, r: Phase, bound: nat)
    requires Leads(p, a, q, bound) && Leads(q, b, r, bound)
    ensures Leads(p, a + b, r, bound)
  {
    hide Parse, Ok;
    ParseConcat(p, a, b, bound);
    ParseConcat(q, [], b, bound);
    assert [] + b == b;
  }

  lemma {:induction false} LeadsThere(p: Phase, a: bits, q: Phase, rest: bits, bound: nat)
    requires Leads(p, a, q, bound)
    ensures Ok(p) && Ok(q) && Run(p, a + rest, bound) == Run(q, rest, bound)
  {
    hide Parse, Run, Ok;
    ParseConcat(p, a, rest, bound);
    ParseConcat(q, [], rest, bound);
    ParseRun(p, a + rest, bound);
    ParseRun(q, rest, bound);
    assert [] + rest == rest;
  }

  lemma {:induction false} LeadsNext(p: Phase, w: nat, v: nat, bound: nat)
    requires Ok(p) && !Terminal(p) && !p.Output? && w == Width(p) && v < Pow2(w)
    ensures Leads(p, Enc(w, v), Next(p, v, bound), bound)
  {
    hide Next, Ok, Enc, Val, Pow2;
    var b := Enc(w, v);
    ValEnc(w, v);
    assert b[..w] == b && b[w..] == [];
  }

  lemma {:induction false} LeadsByte(p: Phase, v: nat, bound: nat)
    requires Ok(p) && !Terminal(p) && !p.Output? && Width(p) == 8 && v < 256
    ensures Leads(p, Enc(8, v), Next(p, v, bound), bound)
  {
    hide Next, Ok, Leads, Enc;
    ShlByConstants(0);
    LeadsNext(p, 8, v, bound);
  }

  lemma {:induction false} LeadsBit(p: Phase, x: bool, bound: nat)
    requires Ok(p) && !Terminal(p) && !p.Output? && Width(p) == 1
    ensures Leads(p, [x], Next(p, Bit(x), bound), bound)
  {
    hide Next, Ok, Leads;
    LeadsNext(p, 1, Bit(x), bound);
    assert Enc(1, Bit(x)) == [x] by {
      assert Enc(0, 0) == [];
    }
  }

  // ----- fixed fields

  lemma {:induction false} HeaderBack(level: nat, bound: nat)
    requires 1 <= level <= 9
    ensures Leads(Magic(0), HeaderBits(level), Marker(0, StartStream(level, bound)), bound)
  {
    hide Leads, Enc;
    LeadsByte(Magic(0), 0x42, bound);
    LeadsByte(Magic(1), 0x5a, bound);
    LeadsByte(Magic(2), 0x68, bound);
    LeadsByte(Magic(3), 0x30 + level, bound);
    LeadsTrans(Magic(0), Enc(8, 0x42), Magic(1), Enc(8, 0x5a), Magic(2), bound);
    LeadsTrans(Magic(0), Enc(8, 0x42) + Enc(8, 0x5a), Magic(2), Enc(8, 0x68), Magic(3), bound);
    LeadsTrans(Magic(0), Enc(8, 0x42) + Enc(8, 0x5a) + Enc(8, 0x68), Magic(3), Enc(8, 0x30 + level),
               Marker(0, StartStream(level, bound)), bound);
  }

  lemma {:induction false} MarkBack(st: Stream, bound: nat)
    requires OkStream(st)
    ensures Leads(Marker(0, st), MarkBits(BLOCK_MARK), BlockCrc(0, 0, st), bound)
  {
    hide Leads, Enc;
    var m := BLOCK_MARK;
    var a := Enc(8, m[0]);
    LeadsByte(Marker(0, st), m[0], bound);
    LeadsByte(Marker(1, st), m[1], bound);
    LeadsTrans(Marker(0, st), a, Marker(1, st), Enc(8, m[1]), Marker(2, st), bound);
    LeadsByte(Marker(2, st), m[2], bound);
    LeadsTrans(Marker(0, st), a + Enc(8, m[1]), Marker(2, st), Enc(8, m[2]), Marker(3, st), bound);
    LeadsByte(Marker(3, st), m[3], bound);
    LeadsTrans(Marker(0, st), a + Enc(8, m[1]) + Enc(8, m[2]), Marker(3, st), Enc(8, m[3]), Marker(4, st), bound);
    LeadsByte(Marker(4, st), m[4], bound);
    LeadsTrans(Marker(0, st), a + Enc(8, m[1]) + Enc(8, m[2]) + Enc(8, m[3]), Marker(4, st), Enc(8, m[4]),
      Marker(5, st), bound);
    LeadsByte(Marker(5, st), m[5], bound);
    LeadsTrans(Marker(0, st), a + Enc(8, m[1]) + Enc(8, m[2]) + Enc(8, m[3]) + Enc(8, m[4]), Marker(5, st),
               Enc(8, m[5]), BlockCrc(0, 0, st), bound);
  }

  lemma {:induction false} EndMarkBack(st: Stream, bound: nat)
    requires OkStream(st)
    ensures Leads(Marker(0, st), MarkBits(END_MARK), StreamCrc(0, 0, st), bound)
  {
    hide Leads, Enc;
    var m := END_MARK;
    var a := Enc(8, m[0]);
    LeadsByte(Marker(0, st), m[0], bound);
    LeadsByte(EndMarker(1, st), m[1], bound);
    LeadsTrans(Marker(0, st), a, EndMarker(1, st), Enc(8, m[1]), EndMarker(2, st), bound);
    LeadsByte(EndMarker(2, st), m[2], bound);
    LeadsTrans(Marker(0, st), a + Enc(8, m[1]), EndMarker(2, st), Enc(8, m[2]), EndMarker(3, st), bound);
    LeadsByte(EndMarker(3, st), m[3], bound);
    LeadsTrans(Marker(0, st), a + Enc(8, m[1]) + Enc(8, m[2]), EndMarker(3, st), Enc(8, m[3]), EndMarker(4, st), bound);
    LeadsByte(EndMarker(4, st), m[4], bound);
    LeadsTrans(Marker(0, st), a + Enc(8, m[1]) + Enc(8, m[2]) + Enc(8, m[3]), EndMarker(4, st), Enc(8, m[4]),
      EndMarker(5, st), bound);
    LeadsByte(EndMarker(5, st), m[5], bound);
    LeadsTrans(Marker(0, st), a + Enc(8, m[1]) + Enc(8, m[2]) + Enc(8, m[3]) + Enc(8, m[4]), EndMarker(5, st),
               Enc(8, m[5]), StreamCrc(0, 0, st), bound);
  }

  /** Four bytes put back together. */
  lemma {:induction false} CrcBack(st: Stream, crc: word, bound: nat)
    requires OkStream(st)
    ensures Leads(BlockCrc(0, 0, st), Enc(32, crc), RandBit(crc, st), bound)
  {
    hide Leads, Enc;
    var a, b, c, d := crc / 0x100_0000 % 0x100, crc / 0x1_0000 % 0x100, crc / 0x100 % 0x100, crc % 0x100;
    FourBytes(crc);
    Digits(crc);
    var p1, p2, p3 := BlockCrc(1, a, st), BlockCrc(2, 0x100 * a + b, st), BlockCrc(3, 0x100 * (0x100 * a + b) + c, st);
    LeadsByte(BlockCrc(0, 0, st), a, bound);
    LeadsByte(p1, b, bound);
    LeadsTrans(BlockCrc(0, 0, st), Enc(8, a), p1, Enc(8, b), p2, bound);
    LeadsByte(p2, c, bound);
    LeadsTrans(BlockCrc(0, 0, st), Enc(8, a) + Enc(8, b), p2, Enc(8, c), p3, bound);
    LeadsByte(p3, d, bound);
    LeadsTrans(BlockCrc(0, 0, st), Enc(8, a) + Enc(8, b) + Enc(8, c), p3, Enc(8, d), RandBit(crc, st), bound);
  }

  lemma {:induction false} StreamCrcByte(k: nat, crc: nat, v: nat, st: Stream, bound: nat)
    requires k < 4 && v < 256 && OkStream(st)
    ensures Leads(StreamCrc(k, crc, st), Enc(8, v), NextStreamCrc(k, crc, v, st), bound)
  {
    hide Leads, Enc, NextStreamCrc;
    LeadsByte(StreamCrc(k, crc, st), v, bound);
  }

  /** The last field of a stream is taken for its checksum, or refused. */
  lemma {:induction false} StreamCrcBack(st: Stream, crc: word, bound: nat)
    requires OkStream(st)
    ensures Leads(StreamCrc(0, 0, st), Enc(32, crc), if crc == st.combined then StreamEnd else Failed(DataError), bound)
  {
    hide Leads, Enc;
    var a, b, c, d := crc / 0x100_0000 % 0x100, crc / 0x1_0000 % 0x100, crc / 0x100 % 0x100, crc % 0x100;
    FourBytes(crc);
    Digits(crc);
    var p1, p2, p3 := StreamCrc(1, a, st), StreamCrc(2, 0x100 * a + b, st),
      StreamCrc(3, 0x100 * (0x100 * a + b) + c, st);
    StreamCrcByte(0, 0, a, st, bound);
    StreamCrcByte(1, a, b, st, bound);
    LeadsTrans(StreamCrc(0, 0, st), Enc(8, a), p1, Enc(8, b), p2, bound);
    StreamCrcByte(2, 0x100 * a + b, c, st, bound);
    LeadsTrans(StreamCrc(0, 0, st), Enc(8, a) + Enc(8, b), p2, Enc(8, c), p3, bound);
    StreamCrcByte(3, 0x100 * (0x100 * a + b) + c, d, st, bound);
    LeadsTrans(StreamCrc(0, 0, st), Enc(8, a) + Enc(8, b) + Enc(8, c), p3, Enc(8, d),
               if crc == st.combined then StreamEnd else Failed(DataError), bound);
  }

  lemma {:induction false} ThreeBytes(u: nat)
    requires u < 0x100_0000
    ensures Enc(8, u / 0x1_0000) + Enc(8, u / 0x100 % 0x100) + Enc(8, u % 0x100) == Enc(24, u)
    ensures u == 0x1_0000 * (u / 0x1_0000) + 0x100 * (u / 0x100 % 0x100) + u % 0x100 && u / 0x1_0000 < 0x100
  {
    hide Enc, Shl, Pow2;
    Digits(u);
    var b, c, d := u / 0x1_0000, u / 0x100 % 0x100, u % 0x100;
    ShlByConstants(0);
    ShlByConstants(b);
    ShlByConstants(0x100 * b + c);
    EncJoin(8, 8, b, c);
    EncJoin(16, 8, 0x100 * b + c, d);
  }

  lemma {:induction false} OrigPtrBack(b: Block, o: nat, bound: nat)
    requires OkStream(b.st) && o <= 10 + b.st.limit && b.origPtr == 0
    ensures Leads(OrigPtr(0, b), Enc(24, o), Mapping1([], b.(origPtr := o)), bound)
  {
    hide Leads, Enc;
    ThreeBytes(o);
    var x, y, z := o / 0x1_0000, o / 0x100 % 0x100, o % 0x100;
    var p1, p2 := OrigPtr(1, b.(origPtr := x)), OrigPtr(2, b.(origPtr := 0x100 * x + y));
    LeadsByte(OrigPtr(0, b), x, bound);
    LeadsByte(p1, y, bound);
    LeadsTrans(OrigPtr(0, b), Enc(8, x), p1, Enc(8, y), p2, bound);
    LeadsByte(p2, z, bound);
    LeadsTrans(OrigPtr(0, b), Enc(8, x) + Enc(8, y), p2, Enc(8, z), Mapping1([], b.(origPtr := o)), bound);
  }

  // ----- the byte map

  lemma {:induction false} Mapping1Back(f16: seq<bool>, i: nat, b: Block, bound: nat)
    requires OkStream(b.st) && |f16| == 16 && i < 16
    ensures Leads(Mapping1(f16[..i], b), f16[i..], AfterMapping(f16, [], b), bound)
    decreases 16 - i
  {
    hide Leads, AfterMapping;
    LeadsBit(Mapping1(f16[..i], b), f16[i], bound);
    assert f16[..i] + [f16[i]] == f16[..i + 1];
    assert f16[i..] == [f16[i]] + f16[i + 1..];
    if i == 15 {
      assert f16[..16] == f16 && f16[i..] == [f16[15]];
    } else {
      Mapping1Back(f16, i + 1, b, bound);
      LeadsTrans(Mapping1(f16[..i], b), [f16[i]], Mapping1(f16[..i + 1], b), f16[i + 1..], AfterMapping(f16, [], b),
        bound);
    }
  }

  /** An unused group: sixteen flags, all clear, and none of them written. */
  lemma {:induction false} UnusedGroup(u: InUse, k: nat)
    requires k <= 240 && k % 16 == 0 && !GroupUsed(u, k / 16)
    ensures u[..k] + Repeat(false, 16) == u[..k + 16]
    ensures RestFlags(u, k) == RestFlags(u, k + 16)
  {
    forall i {:trigger u[i]} | k <= i < k + 16
      ensures !u[i]
    {
      assert i / 16 == k / 16;
    }
    SkipFlags(u, k, k + 16, k / 16);
  }

  lemma {:induction false} Mapping2Back(u: InUse, k: nat, b: Block, bound: nat)
    requires OkStream(b.st) && k <= 256 && |UsedBytes(u)| > 0
    requires k % 16 == 0 || GroupUsed(u, k / 16)
    ensures Leads(AfterMapping(Used16(u), u[..k], b), RestFlags(u, k), Selector1(u, b), bound)
    decreases 256 - k
  {
    hide Leads, RestFlags, GroupUsed, Ok, OkStream, Repeat, Run, UsedBelow, UsedBytes;
    if k == 256 {
      MapDone(u, b, bound);
      assert u[..k] == u;
    } else if GroupUsed(u, k / 16) {
      Mapping2Back(u, k + 1, b, bound);
      OneFlag(u, k, b, bound);
      LeadsTrans(Mapping2(Used16(u), u[..k], b), [u[k]], AfterMapping(Used16(u), u[..k + 1], b), RestFlags(u, k + 1),
        Selector1(u, b), bound);
    } else {
      UnusedGroup(u, k);
      Mapping2Back(u, k + 16, b, bound);
      assert Fill(Used16(u), u[..k]) == Fill(Used16(u), u[..k + 16]);
    }
  }

  lemma {:induction false} MapDone(u: InUse, b: Block, bound: nat)
    requires OkStream(b.st) && |UsedBytes(u)| > 0
    ensures Leads(AfterMapping(Used16(u), u, b), RestFlags(u, 256), Selector1(u, b), bound)
  {
  }

  lemma {:induction false} NothingToFill(u: InUse, k: nat)
    requires k < 256 && GroupUsed(u, k / 16)
    ensures Fill(Used16(u), u[..k]) == u[..k]
  {
    hide GroupUsed;
  }

  lemma {:induction false} OneFlag(u: InUse, k: nat, b: Block, bound: nat)
    requires OkStream(b.st) && k < 256 && GroupUsed(u, k / 16)
    ensures AfterMapping(Used16(u), u[..k], b) == Mapping2(Used16(u), u[..k], b)
    ensures Leads(Mapping2(Used16(u), u[..k], b), [u[k]], AfterMapping(Used16(u), u[..k + 1], b), bound)
    ensures RestFlags(u, k) == [u[k]] + RestFlags(u, k + 1)
  {
    hide Leads, Used16, UsedBytes, Fill, GroupUsed;
    NothingToFill(u, k);
    LeadsBit(Mapping2(Used16(u), u[..k], b), u[k], bound);
    assert u[..k] + [u[k]] == u[..k + 1];
  }

  lemma {:induction false} MapBack(u: InUse, b: Block, bound: nat)
    requires OkStream(b.st) && |UsedBytes(u)| > 0
    ensures Leads(Mapping1([], b), Used16(u) + RestFlags(u, 0), Selector1(u, b), bound)
  {
    hide Leads, AfterMapping, RestFlags;
    var f16 := Used16(u);
    Mapping1Back(f16, 0, b, bound);
    Mapping2Back(u, 0, b, bound);
    assert f16[..0] == [] && f16[0..] == f16 && u[..0] == [];
    LeadsTrans(Mapping1([], b), f16, AfterMapping(f16, [], b), RestFlags(u, 0), Selector1(u, b), bound);
  }

  // ----- selectors

  /** Move-to-front coding of the selectors is undone. */
  lemma {:induction false} SelectorsUndone(sel: seq<nat>, pos: seq<nat>)
    requires forall i {:trigger sel[i]} :: 0 <= i < |sel| ==> sel[i] in pos
    ensures forall i {:trigger MtfSelectors(sel, pos)[i]} :: 0 <= i < |sel| ==> MtfSelectors(sel, pos)[i] < |pos|
    ensures UndoSelectors(MtfSelectors(sel, pos), pos) == sel
    decreases |sel|
  {
    if sel != [] {
      var j := IndexOf(pos, sel[0]);
      SelectorsStayIn(sel, pos, j);
      SelectorsUndone(sel[1..], MoveFront(pos, j));
      var m := MtfSelectors(sel, pos);
      assert m[1..] == MtfSelectors(sel[1..], MoveFront(pos, j));
      assert forall i {:trigger m[i]} :: 1 <= i < |m| ==> m[i] == m[1..][i - 1];
    }
  }

  /** j ones count up to j. */
  lemma {:induction false} UnaryBack(p: Phase, m: nat, bound: nat)
    requires p.Selector3? && Ok(p) && p.j + m < p.nGroups
    ensures Leads(p, Repeat(true, m), p.(j := p.j + m), bound)
    decreases m
  {
    hide Leads, Ok;
    if m == 0 {
      LeadsNothing(p, bound);
    } else {
      UnaryBack(p, m - 1, bound);
      var q := p.(j := p.j + (m - 1));
      SelectorOk(p, m - 1);
      LeadsBit(q, true, bound);
      LeadsTrans(p, Repeat(true, m - 1), q, [true], p.(j := p.j + m), bound);
    }
  }

  lemma {:induction false} LeadsNothing(p: Phase, bound: nat)
    requires Ok(p)
    ensures Leads(p, [], p, bound)
  {
  }

  lemma {:induction false} SelectorOk(p: Phase, m: nat)
    requires p.Selector3? && Ok(p) && p.j + m < p.nGroups
    ensures Ok(p.(j := p.j + m))
  {
  }

  lemma {:induction false} SelectorsBack(p: Phase, js: seq<nat>, bound: nat)
    requires p.Selector3? && Ok(p) && p.j == 0 && js != [] && |p.sel| + |js| == p.nSelectors
    requires forall i {:trigger js[i]} :: 0 <= i < |js| ==> js[i] < p.nGroups
    ensures forall i {:trigger (p.sel + js)[i]} :: 0 <= i < |p.sel + js| ==> (p.sel + js)[i] < p.nGroups
    ensures Leads(p, UnaryBits(js), AfterSelectors(p.sel + js, p.used, p.nGroups, p.b), bound)
    decreases |js|
  {
    hide Leads, AfterSelectors;
    var j, rest := js[0], js[1..];
    var q := p.(j := j);
    UnaryBack(p, j, bound);
    SelectorOk(p, j);
    LeadsBit(q, false, bound);
    var sel' := p.sel + [j];
    assert sel' + rest == p.sel + js;
    assert forall i {:trigger rest[i]} :: 0 <= i < |rest| ==> rest[i] == js[i + 1];
    LeadsTrans(p, Repeat(true, j), q, [false], Next(q, 0, bound), bound);
    if rest == [] {
      assert UnaryBits(rest) == [] && Repeat(true, j) + [false] + [] == Repeat(true, j) + [false];
      assert p.sel + js == sel';
    } else {
      var p' := p.(j := 0, sel := sel');
      SelectorsBack(p', rest, bound);
      LeadsTrans(p, Repeat(true, j) + [false], p', UnaryBits(rest), AfterSelectors(p.sel + js, p.used, p.nGroups, p.b),
        bound);
    }
  }
}
