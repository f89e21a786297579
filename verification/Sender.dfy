/** sendMTFValues: a block's tables and symbols written out bit by bit. */
module Sender {
  import opened Prelude
  import opened Bits
  import opened BitWriter
  import opened Crc
  import opened HuffmanCodes
  import opened MoveToFront
  import opened MtfEncoder
  import opened Decompress
  import opened BlockFormat
  import TableChoice

  // ----- small fields

  lemma {:induction false} OneBit(x: bool)
    ensures Enc(1, Bit(x)) == [x] && Bit(x) < Pow2(1)
  {
    assert Enc(0, 0) == [];
    assert Pow2(1) == 2;
  }

  method PutBit(out: Writer, x: bool)
    requires out.Valid()
    modifies out
    ensures out.Valid() && out.Written() == old(out.Written()) + [x]
  {
    hide Enc, Pow2;
    OneBit(x);
    out.Put(1, if x then 1 else 0);
  }

  method PutChar(out: Writer, c: byte)
    requires out.Valid()
    modifies out
    ensures out.Valid() && out.Written() == old(out.Written()) + Enc(8, c)
  {
    hide Enc, Pow2;
    ShlByConstants(0);
    out.Put(8, c);
  }

  method PutMark(out: Writer, m: seq<byte>)
    requires out.Valid() && |m| == 6
    modifies out
    ensures out.Valid() && out.Written() == old(out.Written()) + MarkBits(m)
  {
    hide Enc, Writer.Valid, Writer.Written;
    ghost var w := out.Written();
    PutChar(out, m[0]);
    PutChar(out, m[1]);
    PutChar(out, m[2]);
    PutChar(out, m[3]);
    PutChar(out, m[4]);
    PutChar(out, m[5]);
    SixAppended(w, Enc(8, m[0]), Enc(8, m[1]), Enc(8, m[2]), Enc(8, m[3]), Enc(8, m[4]), Enc(8, m[5]));
  }

  lemma {:induction false} SixAppended(w: bits, a: bits, b: bits, c: bits, d: bits, e: bits, f: bits)
    ensures w + a + b + c + d + e + f == w + (a + b + c + d + e + f)
  {
  }

  // ----- the byte map

  method MarkGroups(u: InUse) returns (f16: seq<bool>)
    ensures f16 == Used16(u)
  {
    f16 := [];
    for i: nat := 0 to 16
      invariant |f16| == i && forall k {:trigger f16[k]} :: 0 <= k < i ==> f16[k] == GroupUsed(u, k)
    {
      var inUse := false;
      for j := 0 to 16
        invariant inUse <==> exists k {:trigger u[k]} :: 16 * i <= k < 16 * i + j && u[k]
      {
        ghost var was := inUse;
        if u[16 * i + j] {
          inUse := true;
        }
      }
      assert inUse == GroupUsed(u, i);
      f16 := f16 + [inUse];
    }
  }

  lemma {:induction false} NextFlag(w: bits, u: InUse, k: nat)
    requires k < 256
    ensures GroupUsed(u, k / 16) ==> w + RestFlags(u, k) == w + [u[k]] + RestFlags(u, k + 1)
    ensures !GroupUsed(u, k / 16) ==> w + RestFlags(u, k) == w + RestFlags(u, k + 1)
  {
    assert [] + RestFlags(u, k + 1) == RestFlags(u, k + 1);
  }

  method PutMap(out: Writer, u: InUse)
    requires out.Valid()
    modifies out
    ensures out.Valid() && out.Written() == old(out.Written()) + MapBits(u)
  {
    hide RestFlags, GroupUsed, Writer.Valid, Writer.Written;
    var f16 := MarkGroups(u);
    ghost var w := out.Written();
    for i := 0 to 16
      invariant out.Valid() && out.Written() == w + f16[..i]
    {
      PutBit(out, f16[i]);
      assert f16[..i] + [f16[i]] == f16[..i + 1];
    }
    assert f16[..16] == f16;
    ghost var all := w + f16 + RestFlags(u, 0);
    for i: nat := 0 to 16
      invariant out.Valid() && out.Written() + RestFlags(u, 16 * i) == all
    {
      ghost var before := out.Written();
      if f16[i] {
        for j: nat := 0 to 16
          invariant out.Valid() && out.Written() + RestFlags(u, 16 * i + j) == all
        {
          NextFlag(out.Written(), u, 16 * i + j);
          assert (16 * i + j) / 16 == i;
          PutBit(out, u[16 * i + j]);
        }
      } else {
        SkipGroup(before, u, i);
      }
    }
    FlagsEnd(out.Written(), u);
    assert w + f16 + RestFlags(u, 0) == w + (f16 + RestFlags(u, 0));
  }

  lemma {:induction false} FlagsEnd(w: bits, u: InUse)
    ensures w + RestFlags(u, 256) == w
  {
  }

  lemma {:induction false} SkipGroup(w: bits, u: InUse, i: nat)
    requires i < 16 && !GroupUsed(u, i)
    ensures RestFlags(u, 16 * i) == RestFlags(u, 16 * i + 16)
  {
    SkipFlags(u, 16 * i, 16 * i + 16, i);
  }

  // ----- selectors

  /** The place of v in pos, which moves to the front. */
  method PlaceToFront(pos: array<nat>, n: nat, v: nat) returns (j: nat)
    requires n <= pos.Length && v in pos[..n]
    modifies pos
    ensures j == IndexOf(old(pos[..n]), v) && pos[..n] == MoveFront(old(pos[..n]), j)
  {
    ghost var y := pos[..];
    ghost var at := IndexOf(pos[..n], v);
    assert y[at] == v;
    var tmp := pos[0];
    j := 0;
    while v != tmp
      invariant 0 <= j <= at && tmp == y[j]
      invariant forall k {:trigger y[k]} :: 0 <= k < j ==> y[k] != v
      invariant forall k {:trigger pos[k]} :: 0 <= k < pos.Length ==> pos[k] == if 1 <= k <= j then y[k - 1] else y[k]
      decreases at - j
    {
      j := j + 1;
      var tmp2 := tmp;
      tmp := pos[j];
      pos[j] := tmp2;
    }
    pos[0] := tmp;
    IndexOfFirst(y[..n], v, j);
    assert pos[..n] == MoveFront(y[..n], j);
  }

  method CodeSelectors(sel: seq<nat>, nGroups: nat) returns (mtf: seq<nat>)
    requires forall i {:trigger sel[i]} :: 0 <= i < |sel| ==> sel[i] in Identity(nGroups)
    ensures mtf == MtfSelectors(sel, Identity(nGroups))
  {
    var pos := new nat[nGroups](i => i);
    assert pos[..nGroups] == Identity(nGroups);
    mtf := [];
    ghost var all := MtfSelectors(sel, Identity(nGroups));
    assert sel[0..] == sel && [] + all == all;
    for i := 0 to |sel|
      invariant forall k {:trigger sel[i..][k]} :: 0 <= k < |sel| - i ==> sel[i..][k] in pos[..nGroups]
      invariant mtf + MtfSelectors(sel[i..], pos[..nGroups]) == all
    {
      ghost var p, rest := pos[..nGroups], sel[i..];
      assert rest[0] == sel[i] && rest[1..] == sel[i + 1..];
      SelectorsStayIn(rest, p, IndexOf(p, rest[0]));
      var j := PlaceToFront(pos, nGroups, sel[i]);
      NextSelector(mtf, rest, p);
      mtf := mtf + [j];
    }
    assert sel[|sel|..] == [];
    assert mtf + [] == mtf;
  }

  lemma {:induction false} NextSelector(done: seq<nat>, rest: seq<nat>, pos: seq<nat>)
    requires rest != [] && forall i {:trigger rest[i]} :: 0 <= i < |rest| ==> rest[i] in pos
    ensures var j := IndexOf(pos, rest[0]);
            && (forall i {:trigger rest[1..][i]} :: 0 <= i < |rest| - 1 ==> rest[1..][i] in MoveFront(pos, j))
            && done + MtfSelectors(rest, pos) == done + [j] + MtfSelectors(rest[1..], MoveFront(pos, j))
  {
    SelectorsStayIn(rest, pos, IndexOf(pos, rest[0]));
  }

  lemma {:induction false} NextUnary(w: bits, js: seq<nat>)
    requires js != []
    ensures w + UnaryBits(js) == w + Repeat(true, js[0]) + [false] + UnaryBits(js[1..])
  {
  }

  method PutUnary(out: Writer, js: seq<nat>)
    requires out.Valid()
    modifies out
    ensures out.Valid() && out.Written() == old(out.Written()) + UnaryBits(js)
  {
    hide UnaryBits, Writer.Valid, Writer.Written;
    ghost var all := out.Written() + UnaryBits(js);
    assert js[0..] == js;
    for i := 0 to |js|
      invariant out.Valid() && out.Written() + UnaryBits(js[i..]) == all
    {
      ghost var w := out.Written();
      NextUnary(w, js[i..]);
      assert js[i..][0] == js[i] && js[i..][1..] == js[i + 1..];
      assert w + Repeat(true, 0) == w;
      for j := 0 to js[i]
        invariant out.Valid() && out.Written() == w + Repeat(true, j)
      {
        PutBit(out, true);
        assert w + Repeat(true, j) + [true] == w + Repeat(true, j + 1);
      }
      PutBit(out, false);
    }
    assert js[|js|..] == [];
    NoUnary(out.Written());
  }

  lemma {:induction false} NoUnary(w: bits)
    ensures w + UnaryBits([]) == w
  {
  }

  // ----- code lengths

  lemma {:induction false} DeltaStep(w: bits, curr: nat, len: nat)
    ensures curr < len ==> w + DeltaBits(curr, len) == w + Enc(2, 2) + DeltaBits(curr + 1, len)
    ensures curr > len ==> w + DeltaBits(curr, len) == w + Enc(2, 3) + DeltaBits(curr - 1, len)
    ensures curr == len ==> w + DeltaBits(curr, len) == w + [false]
  {
  }

  method PutDelta(out: Writer, curr0: nat, len: nat)
    requires out.Valid()
    modifies out
    ensures out.Valid() && out.Written() == old(out.Written()) + DeltaBits(curr0, len)
  {
    hide DeltaBits, Enc, Pow2, Writer.Valid, Writer.Written;
    ghost var all := out.Written() + DeltaBits(curr0, len);
    var curr := curr0;
    TwoFits();
    while curr < len
      invariant out.Valid() && out.Written() + DeltaBits(curr, len) == all
    {
      DeltaStep(out.Written(), curr, len);
      out.Put(2, 2);
      curr := curr + 1;
    }
    while curr > len
      invariant curr >= len && out.Valid() && out.Written() + DeltaBits(curr, len) == all
    {
      DeltaStep(out.Written(), curr, len);
      out.Put(2, 3);
      curr := curr - 1;
    }
    DeltaStep(out.Written(), curr, len);
    PutBit(out, false);
  }

  lemma {:induction false} TwoFits()
    ensures 3 < Pow2(2) && 20 < Pow2(5)
  {
    assert Pow2(2) == 4 && Pow2(5) == 32;
  }

  lemma {:induction false} NextLength(w: bits, lens: Lengths, curr: nat)
    requires lens != []
    ensures w + TableBits(lens, curr) == w + DeltaBits(curr, lens[0]) + TableBits(lens[1..], lens[0])
  {
  }

  method PutTable(out: Writer, lens: Lengths)
    requires out.Valid() && lens != [] && lens[0] <= LONGEST
    modifies out
    ensures out.Valid() && out.Written() == old(out.Written()) + (Enc(5, lens[0]) + TableBits(lens, lens[0]))
  {
    hide TableBits, Enc, Pow2, DeltaBits, Writer.Valid, Writer.Written;
    TwoFits();
    ghost var w := out.Written();
    out.Put(5, lens[0]);
    assert w + Enc(5, lens[0]) + TableBits(lens, lens[0]) == w + (Enc(5, lens[0]) + TableBits(lens, lens[0]));
    ghost var all := out.Written() + TableBits(lens, lens[0]);
    var curr := lens[0];
    assert lens[0..] == lens;
    for i := 0 to |lens|
      invariant out.Valid() && out.Written() + TableBits(lens[i..], curr) == all
    {
      NextLength(out.Written(), lens[i..], curr);
      assert lens[i..][0] == lens[i] && lens[i..][1..] == lens[i + 1..];
      PutDelta(out, curr, lens[i]);
      curr := lens[i];
    }
    assert lens[|lens|..] == [];
    NoLengths(out.Written(), curr);
  }

  lemma {:induction false} NoLengths(w: bits, curr: nat)
    ensures w + TableBits([], curr) == w
  {
  }

  predicate Full(lens: seq<Lengths>) {
    forall t {:trigger lens[t]} :: 0 <= t < |lens| ==> lens[t] != []
  }

  lemma {:induction false} NextTable(w: bits, lens: seq<Lengths>)
    requires lens != [] && Full(lens)
    ensures Full(lens[1..])
    ensures w + AllTableBits(lens) == w + (Enc(5, lens[0][0]) + TableBits(lens[0], lens[0][0]))
      + AllTableBits(lens[1..])
  {
    assert forall t {:trigger lens[1..][t]} :: 0 <= t < |lens| - 1 ==> lens[1..][t] == lens[t + 1];
  }

  method PutTables(out: Writer, lens: seq<Lengths>)
    requires out.Valid() && Full(lens) && forall t {:trigger lens[t]} :: 0 <= t < |lens| ==>
      lens[t] != [] && lens[t][0] <= LONGEST
    modifies out
    ensures out.Valid() && out.Written() == old(out.Written()) + AllTableBits(lens)
  {
    hide AllTableBits, TableBits, Enc, Writer.Valid, Writer.Written;
    ghost var all := out.Written() + AllTableBits(lens);
    assert lens[0..] == lens;
    for t := 0 to |lens|
      invariant Full(lens[t..]) && out.Valid() && out.Written() + AllTableBits(lens[t..]) == all
    {
      NextTable(out.Written(), lens[t..]);
      assert lens[t..][0] == lens[t] && lens[t..][1..] == lens[t + 1..];
      PutTable(out, lens[t]);
    }
    assert lens[|lens|..] == [];
    NoTables(out.Written());
  }

  lemma {:induction false} NoTables(w: bits)
    ensures w + AllTableBits([]) == w
  {
  }

  // ----- symbols

  predicate CodesFor(code: seq<int>, lens: Lengths) {
    |code| == |lens| && forall i {:trigger code[i]} :: 0 <= i < |lens| ==> code[i] == Code(lens, i)
  }

  method MakeCodes(lens: Lengths) returns (code: seq<int>)
    requires InRange(lens)
    ensures CodesFor(code, lens)
  {
    var minLen, maxLen := 32, 0;
    for i := 0 to |lens|
      invariant forall k :: 0 <= k < i ==> minLen <= lens[k] <= maxLen
    {
      if lens[i] > maxLen {
        maxLen := lens[i];
      }
      if lens[i] < minLen {
        minLen := lens[i];
      }
    }
    var c := new int[MAX_ALPHA_SIZE];
    AssignCodes(c, lens, minLen, maxLen);
    code := c[..|lens|];
  }

  predicate AllCodes(codes: seq<seq<int>>, lens: seq<Lengths>) {
    |codes| == |lens| && forall t {:trigger codes[t]} :: 0 <= t < |lens| ==> CodesFor(codes[t], lens[t])
  }

  method MakeAllCodes(lens: seq<Lengths>) returns (codes: seq<seq<int>>)
    requires forall t {:trigger lens[t]} :: 0 <= t < |lens| ==> InRange(lens[t])
    ensures AllCodes(codes, lens)
  {
    hide CodesFor, InRange;
    codes := [];
    for t := 0 to |lens|
      invariant |codes| == t && forall k {:trigger codes[k]} :: 0 <= k < t ==> CodesFor(codes[k], lens[k])
    {
      assert InRange(lens[t]);
      var c := MakeCodes(lens[t]);
      codes := codes + [c];
    }
  }

  lemma {:induction false} NextSymbol(w: bits, syms: seq<nat>, sel: seq<nat>, lens: seq<Lengths>, i: nat)
    requires AllCodable(syms, sel, lens) && i < |syms|
    ensures Codable(syms, sel, lens, i)
    ensures w + DataBits(syms, sel, lens, i) == w + CodeBits(lens[sel[i / GROUP_SIZE]], syms[i])
      + DataBits(syms, sel, lens, i + 1)
  {
    assert syms[i] >= 0;
  }

  method PutSymbol(out: Writer, lens: Lengths, code: seq<int>, s: nat)
    requires out.Valid() && CodesFor(code, lens) && Decodable(lens) && s < |lens|
    modifies out
    ensures out.Valid() && out.Written() == old(out.Written()) + CodeBits(lens, s)
  {
    hide Enc, Pow2, Code, Kraft;
    CodeFits(lens, s);
    assert code[s] == Code(lens, s);
    out.Put(lens[s], code[s]);
  }

  method PutData(out: Writer, syms: seq<nat>, sel: seq<nat>, lens: seq<Lengths>)
    requires out.Valid() && AllCodable(syms, sel, lens) && |sel| == TableChoice.GroupsOf(|syms|)
    requires forall t {:trigger lens[t]} :: 0 <= t < |lens| ==> Decodable(lens[t])
    modifies out
    ensures out.Valid() && out.Written() == old(out.Written()) + DataBits(syms, sel, lens, 0)
  {
    hide DataBits, Decodable, AllCodes, CodesFor, CodeBits, Writer.Valid, Writer.Written;
    ghost var all := out.Written() + DataBits(syms, sel, lens, 0);
    InRangeOf(lens);
    var codes := MakeAllCodes(lens);
    var selCtr, gs: nat := 0, 0;
    while gs < |syms|
      invariant gs <= |syms| && gs <= GROUP_SIZE * selCtr < gs + GROUP_SIZE
        && (gs < |syms| ==> gs == GROUP_SIZE * selCtr)
      invariant out.Valid() && out.Written() + DataBits(syms, sel, lens, gs) == all
    {
      var ge: nat := if gs + GROUP_SIZE < |syms| then gs + GROUP_SIZE else |syms|;
      for i := gs to ge
        invariant out.Valid() && out.Written() + DataBits(syms, sel, lens, i) == all
      {
        NextSymbol(out.Written(), syms, sel, lens, i);
        assert i / GROUP_SIZE == selCtr;
        CodesOf(codes, lens, sel[selCtr]);
        PutSymbol(out, lens[sel[selCtr]], codes[sel[selCtr]], syms[i]);
      }
      gs := ge;
      selCtr := selCtr + 1;
    }
    NoSymbols(out.Written(), syms, sel, lens);
    // assertion 3007
    assert selCtr == |sel|;
  }

  lemma {:induction false} InRangeOf(lens: seq<Lengths>)
    requires forall t {:trigger lens[t]} :: 0 <= t < |lens| ==> Decodable(lens[t])
    ensures forall t {:trigger lens[t]} :: 0 <= t < |lens| ==> InRange(lens[t])
  {
  }

  lemma {:induction false} CodesOf(codes: seq<seq<int>>, lens: seq<Lengths>, t: nat)
    requires AllCodes(codes, lens) && t < |lens|
    ensures |codes| == |lens| && CodesFor(codes[t], lens[t])
  {
  }

  lemma {:induction false} NoSymbols(w: bits, syms: seq<nat>, sel: seq<nat>, lens: seq<Lengths>)
    requires AllCodable(syms, sel, lens)
    ensures w + DataBits(syms, sel, lens, |syms|) == w
  {
  }
}
