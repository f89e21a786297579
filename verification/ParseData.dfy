/** The code lengths and the block's symbols read back, and with them whole blocks. */
module ParseData {
  import opened Prelude
  import opened Bits
  import opened Crc
  import opened HuffmanCodes
  import opened MoveToFront
  import opened MtfEncoder
  import opened BwtDecoder
  import opened Decompress
  import opened BlockFormat
  import opened ParseBack

  // ----- code lengths

  lemma {:induction false} TwoBits()
    ensures Enc(2, 2) == [true, false] && Enc(2, 3) == [true, true]
  {
    assert Enc(1, 1) == [true] by {
      assert Enc(0, 0) == [];
    }
  }

  lemma {:induction false} OneStep(curr: nat, cur: Lengths, lens: seq<Lengths>, t: Tables, up: bool, bound: nat)
    requires OkCurrent(curr, cur, lens, t)
    requires if up then curr < LONGEST else curr > 1
    ensures Leads(Coding2(curr, cur, lens, t), if up then Enc(2, 2) else Enc(2, 3),
                  Coding2(if up then curr + 1 else curr - 1, cur, lens, t), bound)
  {
    hide Leads, Enc, OkTables, OkLens;
    TwoBits();
    LeadsBit(Coding2(curr, cur, lens, t), true, bound);
    LeadsBit(Coding3(curr, cur, lens, t), !up, bound);
    LeadsTrans(Coding2(curr, cur, lens, t), [true], Coding3(curr, cur, lens, t), [!up],
               Coding2(if up then curr + 1 else curr - 1, cur, lens, t), bound);
    assert [true] + [!up] == [true, !up];
  }

  lemma {:induction false} DeltaBack(curr: nat, len: nat, cur: Lengths, lens: seq<Lengths>, t: Tables, bound: nat)
    requires OkCurrent(curr, cur, lens, t) && 1 <= len <= LONGEST
    ensures OkCurrent(len, cur, lens, t)
    ensures Leads(Coding2(curr, cur, lens, t), DeltaBits(curr, len), AddLength(len, cur, lens, t), bound)
    decreases if curr < len then len - curr else curr - len
  {
    hide Leads, Enc, OkTables, OkLens, AddLength;
    if curr == len {
      LeadsBit(Coding2(curr, cur, lens, t), false, bound);
    } else {
      var next := if curr < len then curr + 1 else curr - 1;
      OneStep(curr, cur, lens, t, curr < len, bound);
      DeltaBack(next, len, cur, lens, t, bound);
      LeadsTrans(Coding2(curr, cur, lens, t), if curr < len then Enc(2, 2) else Enc(2, 3), Coding2(next, cur, lens, t),
                 DeltaBits(next, len), AddLength(len, cur, lens, t), bound);
    }
  }

  lemma {:induction false} OkMore(curr: nat, len: nat, cur: Lengths, lens: seq<Lengths>, t: Tables)
    requires OkCurrent(curr, cur, lens, t) && 1 <= len <= LONGEST
    ensures |cur| + 1 < AlphaSize(t.used) ==> OkCurrent(len, cur + [len], lens, t)
    ensures |cur| + 1 == AlphaSize(t.used) ==> OkLens(lens + [cur + [len]], t)
  {
    var cur' := cur + [len];
    assert Rank(t.used, 256) <= 256;
    assert forall i {:trigger cur'[i]} :: 0 <= i < |cur'| ==> 1 <= cur'[i] <= LONGEST;
  }

  lemma {:induction false} TableBack(curr: nat, cur: Lengths, rest: Lengths, lens: seq<Lengths>, t: Tables, bound: nat)
    requires OkCurrent(curr, cur, lens, t) && rest != [] && |cur| + |rest| == AlphaSize(t.used) && AllLengths(rest)
    ensures OkLens(lens + [cur + rest], t)
    ensures Leads(Coding2(curr, cur, lens, t), TableBits(rest, curr), AddTable(lens + [cur + rest], t), bound)
    decreases |rest|
  {
    hide Leads, OkTables, OkLens, AddTable, DeltaBits;
    var len, rest' := rest[0], rest[1..];
    DeltaBack(curr, len, cur, lens, t, bound);
    OkMore(curr, len, cur, lens, t);
    if rest' == [] {
      assert cur + rest == cur + [len];
      assert DeltaBits(curr, len) + TableBits(rest', len) == DeltaBits(curr, len);
    } else {
      assert cur + rest == cur + [len] + rest';
      TableBack(len, cur + [len], rest', lens, t, bound);
      LeadsTrans(Coding2(curr, cur, lens, t), DeltaBits(curr, len), Coding2(len, cur + [len], lens, t),
                 TableBits(rest', len), AddTable(lens + [cur + rest], t), bound);
    }
  }

  lemma {:induction false} FiveBits(v: nat)
    requires v <= LONGEST
    ensures v < Pow2(5)
  {
    assert Pow2(5) == 32;
  }

  lemma {:induction false} FirstLength(v: nat, lens: seq<Lengths>, t: Tables, bound: nat)
    requires OkTables(t) && OkLens(lens, t) && |lens| < t.nGroups && 1 <= v <= LONGEST
    ensures OkCurrent(v, [], lens, t)
    ensures Leads(Coding1(lens, t), Enc(5, v), Coding2(v, [], lens, t), bound)
  {
    hide Leads, Enc, Pow2, OkTables, OkLens;
    FiveBits(v);
    LeadsNext(Coding1(lens, t), 5, v, bound);
  }

  lemma {:induction false} OneTable(table: Lengths, lens: seq<Lengths>, t: Tables, bound: nat)
    requires OkTables(t) && OkLens(lens, t) && |lens| < t.nGroups
    requires InRange(table) && |table| == AlphaSize(t.used)
    ensures OkLens(lens + [table], t)
    ensures Leads(Coding1(lens, t), Enc(5, table[0]) + TableBits(table, table[0]), AddTable(lens + [table], t), bound)
  {
    hide Leads, Enc, OkTables, OkLens, AddTable, TableBits;
    FirstLength(table[0], lens, t, bound);
    TableBack(table[0], [], table, lens, t, bound);
    assert [] + table == table;
    LeadsTrans(Coding1(lens, t), Enc(5, table[0]), Coding2(table[0], [], lens, t), TableBits(table, table[0]),
               AddTable(lens + [table], t), bound);
  }

  lemma {:induction false} AllTablesBack(lens: seq<Lengths>, rest: seq<Lengths>, t: Tables, bound: nat)
    requires OkTables(t) && OkLens(lens, t) && rest != [] && OkLens(rest, t) && |lens| + |rest| == t.nGroups
    requires forall k {:trigger rest[k]} :: 0 <= k < |rest| ==> rest[k] != []
    ensures OkLens(lens + rest, t)
    ensures Leads(Coding1(lens, t), AllTableBits(rest), AddTable(lens + rest, t), bound)
    decreases |rest|
  {
    hide Leads, Enc, OkTables, TableBits;
    var table, rest' := rest[0], rest[1..];
    OneTable(table, lens, t, bound);
    assert forall k {:trigger rest'[k]} :: 0 <= k < |rest'| ==> rest'[k] == rest[k + 1];
    var b := Enc(5, table[0]) + TableBits(table, table[0]);
    if rest' == [] {
      assert lens + rest == lens + [table];
      assert b + AllTableBits(rest') == b;
    } else {
      assert lens + rest == lens + [table] + rest';
      AllTablesBack(lens + [table], rest', t, bound);
      LeadsTrans(Coding1(lens, t), b, Coding1(lens + [table], t), AllTableBits(rest'), AddTable(lens + rest, t), bound);
    }
  }

  // ----- symbols

  lemma {:induction false} CutAt(b: bits, n: nat)
    requires n < |b|
    ensures b[n..] == [b[n]] + b[n + 1..] && b[..n] + [b[n]] == b[..n + 1]
  {
  }

  /** With the first n bits of a code in hand, the rest of them lead to its symbol. */
  lemma {:induction false} BitsBack(d: Data, s: nat, n: nat, bound: nat)
    requires OkData(d) && d.groupNo >= 0 && Decodable(GroupLens(d)) && s < |GroupLens(d)|
    requires MinLen(GroupLens(d)) <= n <= GroupLens(d)[s]
    ensures var code := CodeBits(GroupLens(d), s);
            Leads(Decide(n, Val(code[..n]), d), code[n..], TakeSymbol(s, d), bound)
    decreases GroupLens(d)[s] - n
  {
    hide Leads, OkData, TakeSymbol, LookUp, Decodable, Enc, Decide;
    var l := GroupLens(d);
    var code := CodeBits(l, s);
    LookUpInvertsCode(l, s, n);
    DecideIs(n, Val(code[..n]), d);
    if n == l[s] {
      assert code[n..] == [];
      LeadsNothing(TakeSymbol(s, d), bound);
    } else {
      var p := MtfBit(n + 1, Val(code[..n]), d);
      OneMoreBit(d, s, n, bound);
      BitsBack(d, s, n + 1, bound);
      CutAt(code, n);
      LeadsTrans(p, [code[n]], Decide(n + 1, Val(code[..n + 1]), d), code[n + 1..], TakeSymbol(s, d), bound);
    }
  }

  lemma {:induction false} DecideIs(zn: nat, zvec: nat, d: Data)
    requires OkData(d) && d.groupNo >= 0 && MinLen(GroupLens(d)) <= zn
    ensures LookUp(GroupLens(d), zn, zvec) == Longer ==> Decide(zn, zvec, d) == MtfBit(zn + 1, zvec, d)
    ensures LookUp(GroupLens(d), zn, zvec).Found? ==>
              LookUp(GroupLens(d), zn, zvec).sym < AlphaSize(d.t.used)
              && Decide(zn, zvec, d) == TakeSymbol(LookUp(GroupLens(d), zn, zvec).sym, d)
  {
    hide OkTables, OkLens, TakeSymbol;
  }

  lemma {:induction false} OneMoreBit(d: Data, s: nat, n: nat, bound: nat)
    requires OkData(d) && d.groupNo >= 0 && Decodable(GroupLens(d)) && s < |GroupLens(d)|
    requires MinLen(GroupLens(d)) <= n < GroupLens(d)[s]
    ensures var code := CodeBits(GroupLens(d), s);
            && Ok(MtfBit(n + 1, Val(code[..n]), d))
            && Leads(MtfBit(n + 1, Val(code[..n]), d), [code[n]], Decide(n + 1, Val(code[..n + 1]), d), bound)
  {
    hide Leads, OkData, TakeSymbol, Decide, Decodable, Enc;
    var l := GroupLens(d);
    var code := CodeBits(l, s);
    LookUpInvertsCode(l, s, n);
    LeadsBit(MtfBit(n + 1, Val(code[..n]), d), code[n], bound);
    ValSnoc(code[..n], code[n]);
    CutAt(code, n);
  }

  /** A code leads to its symbol. */
  lemma {:induction false} CodeBack(d: Data, s: nat, bound: nat)
    requires OkData(d) && d.groupNo >= 0 && Decodable(GroupLens(d)) && s < |GroupLens(d)|
    ensures Leads(MtfVal(d), CodeBits(GroupLens(d), s), TakeSymbol(s, d), bound)
  {
    hide Leads, OkData, TakeSymbol, Decide, LookUp, Decodable, AlphaSize, AskMtf, Base, Bit, Enc, EndOfBlock;
    var l := GroupLens(d);
    var code, m := CodeBits(l, s), MinLen(l);
    EncVal(code[..m]);
    LeadsNext(MtfVal(d), m, Val(code[..m]), bound);
    BitsBack(d, s, m, bound);
    assert code == code[..m] + code[m..];
    LeadsTrans(MtfVal(d), code[..m], Decide(m, Val(code[..m]), d), code[m..], TakeSymbol(s, d), bound);
  }

  /** Where the reader is when it has asked for symbol i. */
  function Asked(t: Tables, lens: seq<Lengths>, m: Mtf, i: nat): Data {
    Data(t, lens, m, i / GROUP_SIZE, GROUP_SIZE - 1 - i % GROUP_SIZE)
  }

  /** And before it asks. */
  function Asking(t: Tables, lens: seq<Lengths>, m: Mtf, i: nat): Data {
    if i == 0 then Data(t, lens, m, -1, 0) else Asked(t, lens, m, i - 1)
  }

  predicate OkParts(t: Tables, lens: seq<Lengths>, m: Mtf) {
    && OkStream(t.b.st) && OkTables(t) && OkLens(lens, t) && |lens| == t.nGroups
    && Ready(m) && |m.list| == |UsedBytes(t.used)| && |m.out| <= t.b.st.limit
  }

  lemma {:induction false} AskNext(t: Tables, lens: seq<Lengths>, m: Mtf, i: nat)
    requires OkParts(t, lens, m) && i / GROUP_SIZE < |t.selectors|
    ensures OkData(Asking(t, lens, m, i)) && OkData(Asked(t, lens, m, i))
    ensures AskMtf(Asking(t, lens, m, i)) == MtfVal(Asked(t, lens, m, i))
  {
    hide OkTables, OkLens, Ready;
    if i > 0 {
      NextPlace(i);
    }
  }

  lemma {:induction false} NextPlace(i: nat)
    requires i > 0
    ensures i % 50 == 0 ==> (i - 1) % 50 == 49 && i / 50 == (i - 1) / 50 + 1
    ensures i % 50 != 0 ==> (i - 1) % 50 == i % 50 - 1 && i / 50 == (i - 1) / 50
  {
  }

  /** The symbols from i on, in their codes, lead to the end of the block. */
  lemma {:induction false} SymbolsBack(t: Tables, lens: seq<Lengths>, m: Mtf, syms: seq<nat>, i: nat, bound: nat)
    requires OkParts(t, lens, m) && AllCodable(syms, t.selectors, lens) && i < |syms|
    requires forall k {:trigger lens[k]} :: 0 <= k < |lens| ==> Decodable(lens[k])
    requires syms[|syms| - 1] == AlphaSize(t.used) - 1
    requires InAlphabet(syms[i..|syms| - 1], |m.list|)
    requires var r := Feed(m, syms[i..|syms| - 1], t.b.st.limit);
             r.Some? && Flush(r.value, t.b.st.limit).Some?
    ensures var column := Flush(Feed(m, syms[i..|syms| - 1], t.b.st.limit).value, t.b.st.limit).value.out;
            && |column| <= t.b.st.limit
            && OkData(Asking(t, lens, m, i))
            && Leads(AskMtf(Asking(t, lens, m, i)), DataBits(syms, t.selectors, lens, i), EndOfBlock(column, t.b),
              bound)
    decreases |syms| - i
  {
    hide Leads, AskMtf, EndOfBlock, OkTables, OkLens, Flush, CodeBits, Decodable, Step, InRange, Kraft, MoveFront,
      OfBytes, Ok, OkData, Pow2;
    var limit := t.b.st.limit;
    var d := Asked(t, lens, m, i);
    assert Codable(syms, t.selectors, lens, i);
    AskNext(t, lens, m, i);
    SelectedLens(t, lens, m, i);
    CodeBack(d, syms[i], bound);
    var code, rest := CodeBits(GroupLens(d), syms[i]), syms[i..|syms| - 1];
    if i == |syms| - 1 {
      assert rest == [];
      assert DataBits(syms, t.selectors, lens, i) == code + [] == code;
    } else {
      assert rest[0] == syms[i] && rest[1..] == syms[i + 1..|syms| - 1];
      var m' := Step(m, syms[i], limit).value;
      OkAfterStep(t, lens, m, syms[i]);
      SymbolsBack(t, lens, m', syms, i + 1, bound);
      assert TakeSymbol(syms[i], d) == AskMtf(Asking(t, lens, m', i + 1));
      LeadsTrans(MtfVal(d), code, AskMtf(Asking(t, lens, m', i + 1)), DataBits(syms, t.selectors, lens, i + 1),
                 EndOfBlock(Flush(Feed(m, rest, limit).value, limit).value.out, t.b), bound);
    }
  }

  lemma {:induction false} SelectedLens(t: Tables, lens: seq<Lengths>, m: Mtf, i: nat)
    requires OkParts(t, lens, m) && i / GROUP_SIZE < |t.selectors| && OkData(Asked(t, lens, m, i))
    ensures t.selectors[i / GROUP_SIZE] < |lens|
    ensures GroupLens(Asked(t, lens, m, i)) == lens[t.selectors[i / GROUP_SIZE]]
  {
  }

  lemma {:induction false} OkAfterStep(t: Tables, lens: seq<Lengths>, m: Mtf, sym: nat)
    requires OkParts(t, lens, m) && sym <= |m.list| && Step(m, sym, t.b.st.limit).Some?
    ensures OkParts(t, lens, Step(m, sym, t.b.st.limit).value)
  {
  }
}
