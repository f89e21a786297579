/**
 * Canonical Huffman codes: code assignment, the limit/base/perm decode tables,
 * and the bit-at-a-time lookup that runs on them.
 */
module HuffmanCodes {
  import opened Prelude
  import opened Bits
  import opened Buckets

  const MAX_ALPHA_SIZE := 258
  const MAX_CODE_LEN := 23
  const LONGEST := 20

  /** One code length per symbol. */
  type Lengths = seq<nat>

  predicate AllLengths(lens: Lengths) { forall i {:trigger lens[i]} :: 0 <= i < |lens| ==> 1 <= lens[i] <= LONGEST }

  predicate InRange(lens: Lengths) {
    0 < |lens| <= MAX_ALPHA_SIZE && AllLengths(lens)
  }

  /** The code of the first symbol of length n. */
  function First(lens: Lengths, n: nat): nat
    decreases lens, n, 0
  {
    if n == 0 then 0 else 2 * Used(lens, n - 1)
  }

  /** One past the code of the last symbol of length n. */
  function Used(lens: Lengths, n: nat): nat
    decreases lens, n, 1
  {
    First(lens, n) + Count(lens, n, |lens|)
  }

  function Code(lens: Lengths, i: nat): nat
    requires i < |lens|
  {
    First(lens, lens[i]) + Count(lens, lens[i], i)
  }

  function CodeBits(lens: Lengths, i: nat): (b: bits)
    requires i < |lens|
  {
    Enc(lens[i], Code(lens, i))
  }

  function MinLen(lens: Lengths): (m: nat)
    ensures forall i :: 0 <= i < |lens| ==> m <= lens[i]
    ensures m <= 32
  {
    if lens == [] then 32
    else
      var m := MinLen(lens[..|lens| - 1]);
      if lens[|lens| - 1] < m then lens[|lens| - 1] else m
  }

  function MaxLen(lens: Lengths): (m: nat)
    ensures forall i :: 0 <= i < |lens| ==> lens[i] <= m
  {
    if lens == [] then 0
    else
      var m := MaxLen(lens[..|lens| - 1]);
      if lens[|lens| - 1] > m then lens[|lens| - 1] else m
  }

  lemma {:induction false} MinMaxAttained(lens: Lengths)
    requires InRange(lens)
    ensures exists i :: 0 <= i < |lens| && lens[i] == MinLen(lens)
    ensures exists i :: 0 <= i < |lens| && lens[i] == MaxLen(lens)
  {
    if |lens| > 1 {
      var t := lens[..|lens| - 1];
      MinMaxAttained(t);
      var i :| 0 <= i < |t| && t[i] == MinLen(t);
      var j :| 0 <= j < |t| && t[j] == MaxLen(t);
      assert lens[i] == MinLen(t) && lens[j] == MaxLen(t);
      assert lens[|t|] <= MaxLen(lens) && lens[|t|] >= MinLen(lens);
    } else {
      assert lens[0] == MinLen(lens) == MaxLen(lens);
    }
  }

  lemma {:induction false} FirstOfShortest(lens: Lengths, n: nat)
    requires forall i :: 0 <= i < |lens| ==> n <= lens[i]
    ensures First(lens, n) == 0
  {
    if n > 0 {
      FirstOfShortest(lens, n - 1);
      CountNone(lens, n - 1, |lens|);
    }
  }

  lemma {:induction false} StartOfShortest(lens: Lengths, n: nat)
    requires forall i :: 0 <= i < |lens| ==> n <= lens[i]
    ensures Start(lens, n) == 0
  {
    if n > 0 {
      StartOfShortest(lens, n - 1);
      CountNone(lens, n - 1, |lens|);
    }
  }

  // ----- code assignment

  method AssignCodes(code: array<int>, lens: Lengths, minLen: nat, maxLen: nat)
    requires |lens| <= code.Length
    requires forall i :: 0 <= i < |lens| ==> minLen <= lens[i] <= maxLen
    modifies code
    ensures forall i {:trigger code[i]} :: 0 <= i < |lens| ==> code[i] == Code(lens, i)
    ensures forall i :: |lens| <= i < code.Length ==> code[i] == old(code[i])
  {
    var vec := 0;
    var n := minLen;
    FirstOfShortest(lens, minLen);
    while n <= maxLen
      invariant minLen <= n
      invariant vec == First(lens, n)
      invariant forall i {:trigger code[i]} :: 0 <= i < |lens| && lens[i] < n ==> code[i] == Code(lens, i)
      invariant forall i :: |lens| <= i < code.Length ==> code[i] == old(code[i])
    {
      for i := 0 to |lens|
        invariant vec == First(lens, n) + Count(lens, n, i)
        invariant forall k {:trigger code[k]} :: 0 <= k < |lens| && (lens[k] < n || (lens[k] == n && k < i)) ==>
          code[k] == Code(lens, k)
        invariant forall k :: |lens| <= k < code.Length ==> code[k] == old(code[k])
      {
        if lens[i] == n {
          code[i] := vec;
          vec := vec + 1;
        }
      }
      vec := 2 * vec;
      n := n + 1;
    }
  }

  // ----- Kraft's inequality and the width of the codes

  /** Sum over the symbols of 2^(limit - length). */
  function Kraft(lens: Lengths, limit: nat): nat {
    if lens == [] then 0
    else Kraft(lens[..|lens| - 1], limit) + Share(lens[|lens| - 1], limit)
  }

  function Share(len: nat, limit: nat): nat {
    if len <= limit then Pow2(limit - len) else 0
  }

  lemma {:induction false} UsedSnoc(lens: Lengths, len: nat, n: nat)
    ensures Used(lens + [len], n) == Used(lens, n) + Share(len, n)
  {
    CountOfPrefix(lens, lens + [len], n, |lens|);
    if n > 0 {
      UsedSnoc(lens, len, n - 1);
    }
  }

  lemma {:induction false} UsedNone(n: nat)
    ensures Used([], n) == 0
  {
    if n > 0 {
      UsedNone(n - 1);
    }
  }

  /** The code space consumed down to level n is the Kraft sum at that level. */
  lemma {:induction false} UsedIsKraft(lens: Lengths, n: nat)
    ensures Used(lens, n) == Kraft(lens, n)
  {
    if lens == [] {
      UsedNone(n);
    } else {
      var t := lens[..|lens| - 1];
      UsedIsKraft(t, n);
      UsedSnoc(t, lens[|t|], n);
      assert lens == t + [lens[|t|]];
    }
  }

  /** What is used at one level is used twice over at the next. */
  lemma {:induction false} UsedGrows(lens: Lengths, m: nat, n: nat)
    requires m <= n
    ensures Shl(Used(lens, m), n - m) <= Used(lens, n)
  {
    if m < n {
      UsedGrows(lens, m, n - 1);
    }
  }

  predicate Decodable(lens: Lengths) {
    InRange(lens) && Kraft(lens, LONGEST) <= Pow2(LONGEST)
  }

  lemma {:induction false} UsedFits(lens: Lengths, n: nat, limit: nat)
    requires Kraft(lens, limit) <= Pow2(limit) && n <= limit
    ensures Used(lens, n) <= Pow2(n)
  {
    UsedGrows(lens, n, limit);
    UsedIsKraft(lens, limit);
    ShlOne(n);
    ShlShl(1, n, limit - n);
    ShlOne(limit);
    ShlMonotone(Pow2(n), Used(lens, n), limit - n);
  }

  /** Every code fits its length and lies in its length's range. */
  lemma {:induction false} CodeFits(lens: Lengths, i: nat)
    requires Decodable(lens) && i < |lens|
    ensures First(lens, lens[i]) <= Code(lens, i) < Used(lens, lens[i]) <= Pow2(lens[i])
  {
    UsedFits(lens, lens[i], LONGEST);
    CountMonotone(lens, lens[i], i, |lens|);
  }

  lemma {:induction false} QuotientAtLeast(u: nat, v: nat, k: nat, c: nat)
    requires k >= 1 && 2 * Shl(u, k - 1) <= c < Shl(v, k) + Pow2(k)
    ensures u <= v
  {
    ShlMonotone(v, u, k);
  }

  lemma {:induction false} ValOfCode(lens: Lengths, i: nat)
    requires Decodable(lens) && i < |lens|
    ensures Val(CodeBits(lens, i)) == Code(lens, i) < Used(lens, lens[i])
  {
    CodeFits(lens, i);
    ValEnc(lens[i], Code(lens, i));
  }

  /** A longer code, cut to n bits, lies past every code of length n. */
  lemma {:induction false} CutCode(lens: Lengths, i: nat, n: nat)
    requires Decodable(lens) && i < |lens| && n < lens[i]
    ensures Used(lens, n) <= Val(CodeBits(lens, i)[..n])
  {
    hide Count, Decodable, Enc;
    var m := lens[i];
    ValOfCode(lens, i);
    ValPrefix(CodeBits(lens, i), n);
    UsedGrows(lens, n, m - 1);
    assert 2 * Used(lens, m - 1) == First(lens, m) <= Code(lens, i);
    QuotientAtLeast(Used(lens, n), Val(CodeBits(lens, i)[..n]), m - n, Code(lens, i));
  }

  lemma {:induction false} CodesDiffer(lens: Lengths, i: nat, j: nat)
    requires i < |lens| && j < |lens| && i != j && lens[i] == lens[j]
    ensures Code(lens, i) != Code(lens, j)
  {
    if i < j {
      CountMonotone(lens, lens[i], i, j);
    } else {
      CountMonotone(lens, lens[i], j, i);
    }
  }

  /** No code is a prefix of another symbol's code. */
  lemma {:induction false} PrefixFree(lens: Lengths, i: nat, j: nat)
    requires Decodable(lens) && i < |lens| && j < |lens| && i != j
    ensures !(CodeBits(lens, i) <= CodeBits(lens, j))
  {
    ValOfCode(lens, i);
    ValOfCode(lens, j);
    if lens[i] < lens[j] {
      assert CodeBits(lens, i) <= CodeBits(lens, j) ==> CodeBits(lens, i) == CodeBits(lens, j)[..lens[i]];
      CutCode(lens, j, lens[i]);
    } else if lens[i] == lens[j] {
      CodesDiffer(lens, i, j);
      PrefixOfSameLength(CodeBits(lens, i), CodeBits(lens, j));
    }
  }

  lemma {:induction false} PrefixOfSameLength(a: bits, b: bits)
    requires |a| == |b|
    ensures a <= b ==> a == b
  {
    assert b[..|b|] == b;
  }

  // ----- decoding

  /** limit[n] once the tables are built. */
  function Limit(lens: Lengths, n: nat): int {
    if MinLen(lens) <= n <= MaxLen(lens) then Used(lens, n) - 1 else 0
  }

  /** base[n] once the tables are built. */
  function Base(lens: Lengths, n: nat): int {
    if MinLen(lens) < n <= MaxLen(lens) then First(lens, n) - Start(lens, n) else Start(lens, n)
  }

  datatype Lookup = Found(sym: nat) | Longer | Corrupt

  /** One round of the decode loop with zn bits of value zvec in hand. */
  function LookUp(lens: Lengths, zn: nat, zvec: nat): Lookup {
    if zn > LONGEST then Corrupt
    else if zvec > Limit(lens, zn) then Longer
    else
      var k := zvec - Base(lens, zn);
      if k < 0 || k >= MAX_ALPHA_SIZE || k >= Start(lens, LONGEST + 1) then Corrupt
      else Found(At(lens, LONGEST + 1, k))
  }

  /** A symbol found is one of the alphabet. */
  lemma {:induction false} FoundInAlphabet(lens: Lengths, zn: nat, zvec: nat)
    requires LookUp(lens, zn, zvec).Found?
    ensures LookUp(lens, zn, zvec).sym < |lens|
  {
  }

  lemma {:induction false} MinAndMax(lens: Lengths)
    requires InRange(lens)
    ensures 1 <= MinLen(lens) <= MaxLen(lens) <= LONGEST
    ensures Start(lens, LONGEST + 1) == |lens|
  {
    MinMaxAttained(lens);
    StartTotal(lens, LONGEST + 1);
  }

  /**
   * Decoding inverts code assignment: read bit by bit from the shortest length, the
   * loop asks for more on every proper prefix of symbol i's code and stops with i on
   * the whole of it.
   */
  lemma {:induction false} LookUpInvertsCode(lens: Lengths, i: nat, n: nat)
    requires Decodable(lens) && i < |lens| && MinLen(lens) <= n <= lens[i]
    ensures LookUp(lens, n, Val(CodeBits(lens, i)[..n])) == if n < lens[i] then Longer else Found(i)
  {
    hide Enc, Val, Pow2, Kraft, MinLen, MaxLen;
    if n < lens[i] {
      CutCode(lens, i, n);
    } else {
      assert CodeBits(lens, i)[..n] == CodeBits(lens, i);
      CodeFits(lens, i);
      ValEnc(n, Code(lens, i));
      AtSlot(lens, LONGEST + 1, i);
      MinAndMax(lens);
      BaseInRange(lens, n);
      assert Code(lens, i) - Base(lens, n) == Slot(lens, i);
    }
  }

  lemma {:induction false} BaseInRange(lens: Lengths, n: nat)
    requires InRange(lens) && MinLen(lens) <= n <= MaxLen(lens)
    ensures Base(lens, n) == First(lens, n) - Start(lens, n)
  {
    if n == MinLen(lens) {
      FirstOfShortest(lens, n);
      StartOfShortest(lens, n);
    }
  }

  /**
   * The loop never reads a stale perm entry: whatever bits arrive, a value that stops
   * it indexes one of the alphaSize entries written for this table, so the range check
   * on the index never fails. This needs no Kraft condition.
   */
  lemma {:induction false} LookUpStaysInTable(lens: Lengths, zn: nat, zvec: nat)
    requires InRange(lens)
    requires MinLen(lens) <= zn <= LONGEST
    requires zn > MinLen(lens) ==> zvec / 2 > Limit(lens, zn - 1)
    requires zvec <= Limit(lens, zn)
    ensures 0 <= zvec - Base(lens, zn) < |lens|
    ensures LookUp(lens, zn, zvec).Found?
  {
    MinAndMax(lens);
    if zn <= MaxLen(lens) {
      BaseInRange(lens, zn);
      StartMonotone(lens, zn, LONGEST + 1);
      if zn == MinLen(lens) {
        FirstOfShortest(lens, zn);
      }
    } else {
      MinMaxAttained(lens);
      var i :| 0 <= i < |lens| && lens[i] == MaxLen(lens);
      CountMonotone(lens, lens[i], i, |lens|);
    }
  }

  /** Tables over which a table-based lookup is exact. */
  ghost predicate TablesFor(lens: Lengths, limit: seq<int>, base: seq<int>, perm: seq<nat>) {
    && |limit| == |base| == |perm| == MAX_ALPHA_SIZE >= |lens|
    && (forall n {:trigger limit[n]} :: 0 <= n < MAX_CODE_LEN ==> limit[n] == Limit(lens, n))
    && (forall n {:trigger base[n]} :: 0 <= n < MAX_CODE_LEN ==> base[n] == Base(lens, n))
    && (forall s {:trigger Slot(lens, s)} :: 0 <= s < |lens| ==> Slot(lens, s) < |perm| && perm[Slot(lens, s)] == s)
  }

  /** The entries of all symbols shorter than n, and of those of length n below i, are in place. */
  ghost predicate PermFor(lens: Lengths, perm: array<nat>, n: nat, i: nat)
    reads perm
  {
    forall s {:trigger Slot(lens, s)} :: 0 <= s < |lens| && (lens[s] < n || (lens[s] == n && s < i)) ==>
      Slot(lens, s) < perm.Length && perm[Slot(lens, s)] == s
  }

  method CreateDecodeTables(limit: array<int>, base: array<int>, perm: array<nat>,
                            lens: Lengths, minLen: nat, maxLen: nat)
    requires InRange(lens) && minLen == MinLen(lens) && maxLen == MaxLen(lens)
    requires limit.Length == base.Length == perm.Length == MAX_ALPHA_SIZE
    requires limit != base
    modifies limit, base, perm
    ensures TablesFor(lens, limit[..], base[..], perm[..])
  {
    MinAndMax(lens);
    FillPerm(perm, lens, minLen, maxLen);
    CountLengths(base, lens);
    FillLimit(limit, base, lens, minLen, maxLen);
    var i := minLen + 1;
    while i <= maxLen
      invariant minLen + 1 <= i <= maxLen + 1
      invariant forall n {:trigger limit[n]} :: 0 <= n < MAX_CODE_LEN ==> limit[n] == Limit(lens, n)
      invariant forall n {:trigger base[n]} :: 0 <= n < MAX_CODE_LEN ==>
        base[n] == if n < i then Base(lens, n) else Start(lens, n)
      invariant PermFor(lens, perm, LONGEST + 1, 0)
    {
      base[i] := (limit[i - 1] + 1) * 2 - base[i];
      i := i + 1;
    }
  }

  method FillPerm(perm: array<nat>, lens: Lengths, minLen: nat, maxLen: nat)
    requires InRange(lens) && perm.Length == MAX_ALPHA_SIZE
    requires maxLen <= LONGEST && forall i :: 0 <= i < |lens| ==> minLen <= lens[i] <= maxLen
    modifies perm
    ensures PermFor(lens, perm, LONGEST + 1, 0)
  {
    StartOfShortest(lens, minLen);
    StartTotal(lens, LONGEST + 1);
    var pp, i := 0, minLen;
    while i <= maxLen
      invariant minLen <= i && pp == Start(lens, i)
      invariant PermFor(lens, perm, i, 0)
    {
      for j := 0 to |lens|
        invariant pp == Start(lens, i) + Count(lens, i, j)
        invariant PermFor(lens, perm, i, j)
      {
        if lens[j] == i {
          PermNext(lens, perm, j);
          assert pp == Slot(lens, j);
          perm[pp] := j;
          pp := pp + 1;
        }
      }
      i := i + 1;
    }
  }

  /** The next free slot is in the table and is not taken by an earlier symbol. */
  lemma {:induction false} PermNext(lens: Lengths, perm: array<nat>, j: nat)
    requires InRange(lens) && j < |lens|
    ensures Slot(lens, j) < |lens|
    ensures forall s {:trigger Slot(lens, s)} ::
      0 <= s < |lens| && (lens[s] < lens[j] || (lens[s] == lens[j] && s < j)) ==>
              Slot(lens, s) < Slot(lens, j)
  {
    StartTotal(lens, LONGEST + 1);
    AtSlot(lens, LONGEST + 1, j);
    forall s | 0 <= s < |lens| && (lens[s] < lens[j] || (lens[s] == lens[j] && s < j))
      ensures Slot(lens, s) < Slot(lens, j)
    {
      SlotOrder(lens, s, j);
    }
  }

  /** base[n] := how many lengths are below n, by counting and then summing. */
  method CountLengths(base: array<int>, lens: Lengths)
    requires InRange(lens) && base.Length == MAX_ALPHA_SIZE
    modifies base
    ensures forall n {:trigger base[n]} :: 0 <= n < MAX_CODE_LEN ==> base[n] == Start(lens, n)
  {
    for k := 0 to MAX_CODE_LEN
      invariant forall n {:trigger base[n]} :: 0 <= n < k ==> base[n] == 0
    {
      base[k] := 0;
    }
    for k := 0 to |lens|
      invariant base[0] == 0
      invariant forall n {:trigger base[n]} :: 1 <= n < MAX_CODE_LEN ==> base[n] == Count(lens, n - 1, k)
    {
      base[lens[k] + 1] := base[lens[k] + 1] + 1;
    }
    for k := 1 to MAX_CODE_LEN
      invariant base[0] == 0
      invariant forall n {:trigger base[n]} :: 0 <= n < k ==> base[n] == Start(lens, n)
      invariant forall n {:trigger base[n]} :: k <= n < MAX_CODE_LEN ==> base[n] == Count(lens, n - 1, |lens|)
    {
      base[k] := base[k] + base[k - 1];
    }
  }

  method FillLimit(limit: array<int>, base: array<int>, lens: Lengths, minLen: nat, maxLen: nat)
    requires InRange(lens) && minLen == MinLen(lens) && maxLen == MaxLen(lens) <= LONGEST
    requires limit.Length == base.Length == MAX_ALPHA_SIZE && limit != base
    requires forall n {:trigger base[n]} :: 0 <= n < MAX_CODE_LEN ==> base[n] == Start(lens, n)
    modifies limit
    ensures forall n {:trigger limit[n]} :: 0 <= n < MAX_CODE_LEN ==> limit[n] == Limit(lens, n)
  {
    for k := 0 to MAX_CODE_LEN
      invariant forall n {:trigger limit[n]} :: 0 <= n < k ==> limit[n] == 0
    {
      limit[k] := 0;
    }
    FirstOfShortest(lens, minLen);
    var vec, i := 0, minLen;
    while i <= maxLen
      invariant minLen <= i && vec == First(lens, i)
      invariant forall n {:trigger limit[n]} :: 0 <= n < MAX_CODE_LEN ==>
        limit[n] == if n < i then Limit(lens, n) else 0
    {
      vec := vec + (base[i + 1] - base[i]);
      limit[i] := vec - 1;
      vec := 2 * vec;
      i := i + 1;
    }
  }

  /** One round of the decode loop, on the tables. */
  method LookUpInTables(ghost lens: Lengths, limit: seq<int>, base: seq<int>, perm: seq<nat>,
                        zn: nat, zvec: nat) returns (r: Lookup)
    requires InRange(lens) && TablesFor(lens, limit, base, perm)
    requires MinLen(lens) <= zn && (MinLen(lens) < zn <= LONGEST ==> zvec / 2 > Limit(lens, zn - 1))
    ensures r == LookUp(lens, zn, zvec)
  {
    if zn > LONGEST {
      return Corrupt;
    }
    if zvec > limit[zn] {
      return Longer;
    }
    LookUpStaysInTable(lens, zn, zvec);
    return Found(perm[zvec - base[zn]]);
  }
}
