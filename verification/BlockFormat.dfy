/** The bits the encoder writes for a block and for a stream. */
module BlockFormat {
  import opened Prelude
  import opened Bits
  import opened Crc
  import opened HuffmanCodes
  import opened MoveToFront
  import opened MtfEncoder
  import opened BwtInverse
  import opened RandTable
  import opened Decompress
  import TableChoice

  /**
   * All the choices that go into one block. It may be randomised, and there may be selectors to
   * spare, as other encoders have had it.
   */
  datatype Plan = Plan(block: seq<byte>, order: seq<nat>, origPtr: nat, used: InUse,
                       nGroups: nat, selectors: seq<nat>, lens: seq<Lengths>,
                       randomised: bool, spare: seq<nat>)

  /** A block as this encoder makes it. */
  predicate Plain(p: Plan) { !p.randomised && p.spare == [] }

  /** The run form that the block stands for. */
  function Text(p: Plan): (s: seq<byte>)
    ensures |s| == |p.block|
  {
    if p.randomised then Derandomised(p.block) else p.block
  }

  function AllSelectors(p: Plan): seq<nat> { p.selectors + p.spare }

  predicate ValidPlan(p: Plan) {
    && 0 < |p.block| <= MAX_BLOCK_BYTES && SortsRotations(p.block, p.order)
    && p.origPtr < |p.block| && p.order[p.origPtr] == 0
    && Covers(p.used, p.block)
    && 2 <= p.nGroups <= MAX_GROUPS && |p.lens| == p.nGroups
    && (forall t {:trigger p.lens[t]} :: 0 <= t < p.nGroups ==>
      Decodable(p.lens[t]) && |p.lens[t]| == AlphaSize(p.used))
    && Rows(p.order, |p.block|) && AllIn(Column(p), UsedBytes(p.used))
    && |p.selectors| == TableChoice.GroupsOf(|Syms(p)|)
    && (forall i {:trigger p.selectors[i]} :: 0 <= i < |p.selectors| ==> p.selectors[i] < p.nGroups)
    && |p.selectors| + |p.spare| < 0x8000
    && (forall i {:trigger p.spare[i]} :: 0 <= i < |p.spare| ==> p.spare[i] < p.nGroups)
  }

  const MAX_BLOCK_BYTES := 900_000

  function Column(p: Plan): (l: seq<byte>)
    requires Rows(p.order, |p.block|)
    ensures |l| == |p.block|
  {
    LastColumn(p.block, p.order)
  }

  /** The symbols of the block, with the end marker. */
  function Syms(p: Plan): (s: seq<nat>)
    requires Rows(p.order, |p.block|) && AllIn(Column(p), UsedBytes(p.used))
    ensures 1 <= |s| <= |p.block| + 1
  {
    Symbols(Column(p), UsedBytes(p.used), 0) + [AlphaSize(p.used) - 1]
  }

  // ----- the pieces

  function GroupUsed(u: InUse, i: nat): bool
    requires i < 16
  {
    exists k {:trigger u[k]} :: 16 * i <= k < 16 * i + 16 && u[k]
  }

  function Used16(u: InUse): (f: seq<bool>)
    ensures |f| == 16
  {
    seq(16, i requires 0 <= i < 16 => GroupUsed(u, i))
  }

  /** The flags from byte value k on, of the groups in use. */
  function RestFlags(u: InUse, k: nat): bits
    requires k <= 256
    decreases 256 - k
  {
    if k == 256 then [] else (if GroupUsed(u, k / 16) then [u[k]] else []) + RestFlags(u, k + 1)
  }

  /** Groups not in use have no flags. */
  lemma {:induction false} SkipFlags(u: InUse, k: nat, m: nat, g: nat)
    requires g < 16 && !GroupUsed(u, g) && 16 * g <= k <= m <= 16 * g + 16
    ensures RestFlags(u, k) == RestFlags(u, m)
    decreases m - k
  {
    if k < m {
      assert k / 16 == g;
      SkipFlags(u, k + 1, m, g);
    }
  }

  function MtfSelectors(sel: seq<nat>, pos: seq<nat>): (r: seq<nat>)
    requires forall i {:trigger sel[i]} :: 0 <= i < |sel| ==> sel[i] in pos
    ensures |r| == |sel|
    decreases |sel|
  {
    if sel == [] then []
    else
      var j := IndexOf(pos, sel[0]);
      SelectorsStayIn(sel, pos, j);
      [j] + MtfSelectors(sel[1..], MoveFront(pos, j))
  }

  lemma {:induction false} SelectorsStayIn(sel: seq<nat>, pos: seq<nat>, j: nat)
    requires sel != [] && j < |pos| && forall i {:trigger sel[i]} :: 0 <= i < |sel| ==> sel[i] in pos
    ensures forall i {:trigger sel[1..][i]} :: 0 <= i < |sel| - 1 ==> sel[1..][i] in MoveFront(pos, j)
  {
    MoveFrontKeeps(pos, j);
    forall i {:trigger sel[1..][i]} | 0 <= i < |sel| - 1
      ensures sel[1..][i] in MoveFront(pos, j)
    {
      assert sel[1..][i] == sel[i + 1];
    }
  }

  /** Each number in unary. */
  function UnaryBits(js: seq<nat>): bits {
    if js == [] then [] else Repeat(true, js[0]) + [false] + UnaryBits(js[1..])
  }

  /** From length curr to length len, one step at a time. */
  function DeltaBits(curr: nat, len: nat): bits
    decreases if curr < len then len - curr else curr - len
  {
    if curr < len then Enc(2, 2) + DeltaBits(curr + 1, len)
    else if curr > len then Enc(2, 3) + DeltaBits(curr - 1, len)
    else [false]
  }

  function TableBits(lens: Lengths, curr: nat): bits
    decreases |lens|
  {
    if lens == [] then [] else DeltaBits(curr, lens[0]) + TableBits(lens[1..], lens[0])
  }

  function AllTableBits(lens: seq<Lengths>): bits
    requires forall t {:trigger lens[t]} :: 0 <= t < |lens| ==> lens[t] != []
    decreases |lens|
  {
    if lens == [] then []
    else
      assert forall t {:trigger lens[1..][t]} :: 0 <= t < |lens| - 1 ==> lens[1..][t] == lens[t + 1];
      Enc(5, lens[0][0]) + TableBits(lens[0], lens[0][0]) + AllTableBits(lens[1..])
  }

  /** Symbol i can be coded with the table its group selects. */
  predicate Codable(syms: seq<nat>, selectors: seq<nat>, lens: seq<Lengths>, i: nat) {
    i / GROUP_SIZE < |selectors| && selectors[i / GROUP_SIZE] < |lens| && i < |syms|
      && syms[i] < |lens[selectors[i / GROUP_SIZE]]|
  }

  predicate AllCodable(syms: seq<nat>, selectors: seq<nat>, lens: seq<Lengths>) {
    forall i: nat {:trigger syms[i]} :: i < |syms| ==> Codable(syms, selectors, lens, i)
  }

  function DataBits(syms: seq<nat>, selectors: seq<nat>, lens: seq<Lengths>, i: nat): bits
    requires AllCodable(syms, selectors, lens) && i <= |syms|
    decreases |syms| - i
  {
    if i == |syms| then []
    else
      assert syms[i] >= 0;
      CodeBits(lens[selectors[i / GROUP_SIZE]], syms[i]) + DataBits(syms, selectors, lens, i + 1)
  }

  lemma {:induction false} PlanCodable(p: Plan)
    requires ValidPlan(p)
    ensures AllCodable(Syms(p), p.selectors, p.lens)
    ensures forall t {:trigger p.lens[t]} :: 0 <= t < |p.lens| ==> p.lens[t] != []
    ensures var sel := AllSelectors(p); forall i {:trigger sel[i]} :: 0 <= i < |sel| ==> sel[i] in Identity(p.nGroups)
  {
    var s := Syms(p);
    SymbolsInAlphabet(Column(p), UsedBytes(p.used), 0);
    forall i: nat {:trigger Codable(s, p.selectors, p.lens, i)} | i < |s|
      ensures Codable(s, p.selectors, p.lens, i)
    {
      var g := i / GROUP_SIZE;
      assert g < TableChoice.GroupsOf(|s|);
      assert p.selectors[g] < p.nGroups;
      assert |p.lens[p.selectors[g]]| == AlphaSize(p.used);
      if i < |s| - 1 {
        assert s[i] == Symbols(Column(p), UsedBytes(p.used), 0)[i];
      }
    }
    var sel := AllSelectors(p);
    forall i {:trigger sel[i]} | 0 <= i < |sel|
      ensures sel[i] in Identity(p.nGroups)
    {
      assert sel[i] == if i < |p.selectors| then p.selectors[i] else p.spare[i - |p.selectors|];
      assert Identity(p.nGroups)[sel[i]] == sel[i];
    }
  }

  // ----- blocks and streams

  function MarkBits(m: seq<byte>): bits
    requires |m| == 6
  {
    Enc(8, m[0]) + Enc(8, m[1]) + Enc(8, m[2]) + Enc(8, m[3]) + Enc(8, m[4]) + Enc(8, m[5])
  }

  function HeaderBits(level: nat): bits {
    Enc(8, 0x42) + Enc(8, 0x5a) + Enc(8, 0x68) + Enc(8, 0x30 + level)
  }

  function SelectorBits(p: Plan): bits
    requires ValidPlan(p)
  {
    PlanCodable(p);
    var sel := AllSelectors(p);
    Enc(3, p.nGroups) + Enc(15, |sel|) + UnaryBits(MtfSelectors(sel, Identity(p.nGroups)))
  }

  function MapBits(u: InUse): bits { Used16(u) + RestFlags(u, 0) }

  function FrontBits(origPtr: nat, randomised: bool, crc: word): bits {
    MarkBits(BLOCK_MARK) + Enc(32, crc) + Enc(1, if randomised then 1 else 0) + Enc(24, origPtr)
  }

  /** A block whose unpacked bytes have checksum crc. */
  function BlockBits(p: Plan, crc: word): bits
    requires ValidPlan(p)
  {
    PlanCodable(p);
    FrontBits(p.origPtr, p.randomised, crc) + MapBits(p.used) + SelectorBits(p) + AllTableBits(p.lens)
    + DataBits(Syms(p), p.selectors, p.lens, 0)
  }

  function TrailerBits(combined: word): bits {
    MarkBits(END_MARK) + Enc(32, combined)
  }
}
