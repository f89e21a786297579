/**
 * The encoder's choice of coding tables: a first guess, then four rounds of giving every
 * group of fifty symbols to the table that codes it most cheaply and refitting the
 * tables to what they were given. Whatever it chooses can be decoded.
 */
module TableChoice {
  import opened Prelude
  import Buckets
  import opened HuffmanCodes
  import opened Decompress
  import HF = HuffmanForest
  import HL = HuffmanLengths
  import opened HuffmanOptimal

  const ITERATIONS := 4
  const GREATER_COST := 15
  const MAX_LEN := 17

  function NumTables(nMTF: nat): (n: nat)
    ensures 2 <= n <= MAX_GROUPS
  {
    if nMTF < 200 then 2 else if nMTF < 600 then 3 else if nMTF < 1200 then 4 else if nMTF < 2400 then 5 else 6
  }

  /** How many selectors n symbols take. */
  function GroupsOf(n: nat): nat { (n + GROUP_SIZE - 1) / GROUP_SIZE }

  function Total(f: seq<nat>): nat {
    if f == [] then 0 else Total(f[..|f| - 1]) + f[|f| - 1]
  }

  lemma {:induction false} TotalBump(f: seq<nat>, i: nat)
    requires i < |f|
    ensures Total(f[i := f[i] + 1]) == Total(f) + 1
  {
    var g := f[i := f[i] + 1];
    if i == |f| - 1 {
      assert g[..|g| - 1] == f[..|f| - 1];
    } else {
      TotalBump(f[..|f| - 1], i);
      assert g[..|g| - 1] == f[..|f| - 1][i := f[i] + 1];
    }
  }

  lemma {:induction false} TotalZeros(n: nat)
    ensures Total(Repeat(0, n)) == 0
  {
    if n > 0 {
      TotalZeros(n - 1);
      assert Repeat(0, n)[..n - 1] == Repeat(0, n - 1);
    }
  }

  /** Zero frequencies count as one. */
  lemma {:induction false} WeightsAtMost(f: seq<nat>, i: nat)
    requires i <= |f|
    ensures HF.Sum(HL.Weights(f), i) <= Total(f[..i]) + i
  {
    if i > 0 {
      WeightsAtMost(f, i - 1);
      assert f[..i][..i - 1] == f[..i - 1];
    }
  }

  // ----- the first guess

  predicate Sized(lens: seq<seq<nat>>, nGroups: nat, alphaSize: nat) {
    |lens| == nGroups && forall t {:trigger lens[t]} :: 0 <= t < |lens| ==> |lens[t]| == alphaSize
  }

  predicate Cheap(lens: seq<seq<nat>>) {
    forall t {:trigger lens[t]} :: 0 <= t < |lens| ==> forall v {:trigger lens[t][v]} :: 0 <= v < |lens[t]| ==>
      lens[t][v] <= LONGEST
  }

  /** Table nPart - 1 is cheap on the symbols gs..ge and dear on the others. */
  function Guess(alphaSize: nat, gs: int, ge: int): (lens: seq<nat>)
    ensures |lens| == alphaSize && forall v {:trigger lens[v]} :: 0 <= v < alphaSize ==> lens[v] <= LONGEST
  {
    seq(alphaSize, v => if gs <= v <= ge then 0 else GREATER_COST)
  }

  /** What Guess means, entry by entry. */
  lemma {:induction false} GuessAt(alphaSize: nat, gs: int, ge: int)
    ensures forall v {:trigger Guess(alphaSize, gs, ge)[v]} :: 0 <= v < alphaSize ==>
              Guess(alphaSize, gs, ge)[v] == if gs <= v <= ge then 0 else GREATER_COST
  {
  }

  /** Symbol v costs nothing in the table that owns it, and 15 bits in every other. */
  ghost predicate Owned(lens: seq<seq<nat>>, owner: seq<nat>, from: nat) {
    forall t {:trigger lens[t]} :: from <= t < |lens| ==>
      forall v {:trigger lens[t][v]} :: 0 <= v < |lens[t]| ==>
        lens[t][v] == if v < |owner| && owner[v] == t then 0 else GREATER_COST
  }

  /** The tables own stretches of the alphabet, the last table the first one. */
  ghost predicate InStretches(owner: seq<nat>, from: nat, nGroups: nat) {
    && (forall v {:trigger owner[v]} :: 0 <= v < |owner| ==> from <= owner[v] < nGroups)
    && forall u, v {:trigger owner[u], owner[v]} :: 0 <= u < v < |owner| ==> owner[u] >= owner[v]
  }

  lemma {:induction false} TotalTake(f: seq<nat>, i: nat)
    requires i < |f|
    ensures Total(f[..i + 1]) == Total(f[..i]) + f[i]
  {
    assert f[..i + 1][..i] == f[..i];
  }

  lemma {:induction false} TotalTakeGrows(f: seq<nat>, i: nat, j: nat)
    requires i <= j <= |f|
    ensures Total(f[..i]) <= Total(f[..j]) <= Total(f)
    ensures Total(f[..i]) == Total(f) ==> forall v {:trigger f[v]} :: i <= v < |f| ==> f[v] == 0
    decreases |f| - i
  {
    if i < |f| {
      TotalTake(f, i);
      TotalTakeGrows(f, i + 1, if j == i then i + 1 else j);
    } else {
      assert f[..i] == f;
    }
  }

  /** The first guess: every symbol that occurs is cheap in one table, and dear in the others. */
  method InitialTables(mtfFreq: seq<nat>, nMTF: nat, nGroups: nat) returns (lens: seq<seq<nat>>, ghost owner: seq<nat>)
    requires nGroups >= 2 && nMTF == Total(mtfFreq)
    ensures Sized(lens, nGroups, |mtfFreq|) && |owner| <= |mtfFreq| && Owned(lens, owner, 0)
      && InStretches(owner, 0, nGroups)
    ensures forall v {:trigger mtfFreq[v]} :: |owner| <= v < |mtfFreq| ==> mtfFreq[v] == 0
  {
    hide Guess, Total;
    var alphaSize := |mtfFreq|;
    lens := seq(nGroups, _ => Guess(alphaSize, 0, -1));
    owner := [];
    TotalTakeGrows(mtfFreq, 0, 0);
    NothingTaken(mtfFreq);
    var nPart, remF, gs: int := nGroups, nMTF as int, 0;
    while nPart > 0
      invariant 0 <= nPart <= nGroups && 0 <= gs == |owner| <= alphaSize
      invariant Sized(lens, nGroups, alphaSize) && Owned(lens, owner, nPart) && InStretches(owner, nPart, nGroups)
      invariant remF == nMTF - Total(mtfFreq[..gs]) && (nPart == 0 ==> remF <= 0 || gs == alphaSize)
    {
      var tFreq, ge, aFreq := remF / nPart, gs - 1, 0;
      while aFreq < tFreq && ge < alphaSize - 1
        invariant gs - 1 <= ge <= alphaSize - 1 && aFreq == Total(mtfFreq[..ge + 1]) - Total(mtfFreq[..gs])
        decreases alphaSize - ge
      {
        ge := ge + 1;
        TotalTake(mtfFreq, ge);
        aFreq := aFreq + mtfFreq[ge];
      }
      if ge > gs && nPart != nGroups && nPart != 1 && (nGroups - nPart) % 2 == 1 {
        TotalTake(mtfFreq, ge);
        aFreq := aFreq - mtfFreq[ge];
        ge := ge - 1;
      }
      GuessAt(alphaSize, gs, ge);
      owner := owner + seq(ge + 1 - gs, _ => nPart - 1);
      lens := lens[nPart - 1 := Guess(alphaSize, gs, ge)];
      nPart := nPart - 1;
      gs := ge + 1;
      remF := remF - aFreq;
    }
    TotalTakeGrows(mtfFreq, gs, gs);
    assert gs == alphaSize ==> mtfFreq[..gs] == mtfFreq;
  }

  lemma {:induction false} NothingTaken(f: seq<nat>)
    ensures Total(f[..0]) == 0
  {
  }

  /** So no length is above 15. */
  lemma {:induction false} OwnedIsCheap(lens: seq<seq<nat>>, owner: seq<nat>)
    requires Owned(lens, owner, 0)
    ensures Cheap(lens)
  {
    forall t {:trigger lens[t]} | 0 <= t < |lens|
      ensures forall v {:trigger lens[t][v]} :: 0 <= v < |lens[t]| ==> lens[t][v] <= LONGEST
    {
    }
  }

  // ----- one round

  /** The bits that a table spends on the symbols gs to ge. */
  function GroupCost(syms: seq<nat>, gs: nat, ge: nat, lens: seq<nat>): nat
    requires gs <= ge <= |syms| && forall i {:trigger syms[i]} :: 0 <= i < |syms| ==> syms[i] < |lens|
    decreases ge - gs
  {
    if gs == ge then 0 else GroupCost(syms, gs, ge - 1, lens) + lens[syms[ge - 1]]
  }

  /** Sixteen bits are enough for it, so costs can be summed in packed pairs. */
  method Cost(syms: seq<nat>, gs: nat, ge: nat, lens: seq<nat>) returns (cost: nat)
    requires gs <= ge <= |syms| && ge - gs <= GROUP_SIZE
    requires forall i {:trigger syms[i]} :: 0 <= i < |syms| ==> syms[i] < |lens|
    requires forall v {:trigger lens[v]} :: 0 <= v < |lens| ==> lens[v] <= LONGEST
    ensures cost == GroupCost(syms, gs, ge, lens) <= LONGEST * GROUP_SIZE < 0x1_0000
  {
    cost := 0;
    for i := gs to ge
      invariant cost == GroupCost(syms, gs, i, lens) <= LONGEST * (i - gs)
    {
      cost := cost + lens[syms[i]];
    }
  }

  /** No table codes the group in fewer bits than table b. */
  ghost predicate Least(syms: seq<nat>, gs: nat, ge: nat, lens: seq<seq<nat>>, alphaSize: nat, b: nat, n: nat)
    requires gs <= ge <= |syms| && forall i {:trigger syms[i]} :: 0 <= i < |syms| ==> syms[i] < alphaSize
    requires Sized(lens, |lens|, alphaSize) && b < |lens| && n <= |lens|
  {
    forall t {:trigger lens[t]} :: 0 <= t < n ==> GroupCost(syms, gs, ge, lens[b]) <= GroupCost(syms, gs, ge, lens[t])
  }

  method Cheapest(syms: seq<nat>, gs: nat, ge: nat, lens: seq<seq<nat>>, alphaSize: nat) returns (bt: nat)
    requires gs <= ge <= |syms| && ge - gs <= GROUP_SIZE && |lens| >= 2 && Sized(lens, |lens|, alphaSize) && Cheap(lens)
    requires forall i {:trigger syms[i]} :: 0 <= i < |syms| ==> syms[i] < alphaSize
    ensures bt < |lens| && Least(syms, gs, ge, lens, alphaSize, bt, |lens|)
  {
    hide GroupCost;
    var bc, b: int := 999_999_999, -1;
    for t := 0 to |lens|
      invariant -1 <= b < t && (t > 0 ==> b >= 0)
      invariant if t == 0 then bc == 999_999_999
        else bc == GroupCost(syms, gs, ge, lens[b]) && Least(syms, gs, ge, lens, alphaSize, b, t)
    {
      assert |lens[t]| == alphaSize;
      var c := Cost(syms, gs, ge, lens[t]);
      if c < bc {
        bc, b := c, t;
      }
    }
    bt := b;
  }

  predicate Bounded(rfreq: seq<seq<nat>>, n: nat) {
    forall t {:trigger rfreq[t]} :: 0 <= t < |rfreq| ==> Total(rfreq[t]) <= n
  }

  /** How often v occurs among the first n symbols in groups that are given to table t. */
  function Uses(syms: seq<nat>, sel: seq<nat>, t: nat, v: nat, n: nat): nat
    requires n <= |syms|
  {
    if n == 0 then 0
    else
      var g := (n - 1) / GROUP_SIZE;
      Uses(syms, sel, t, v, n - 1) + if syms[n - 1] == v && g < |sel| && sel[g] == t then 1 else 0
  }

  /** The frequencies so far are those of the groups that each table has been given. */
  ghost predicate Gathered(rfreq: seq<seq<nat>>, syms: seq<nat>, sel: seq<nat>, n: nat)
    requires n <= |syms|
  {
    forall t {:trigger rfreq[t]} :: 0 <= t < |rfreq| ==> forall v {:trigger rfreq[t][v]} :: 0 <= v < |rfreq[t]| ==>
      rfreq[t][v] == Uses(syms, sel, t, v, n)
  }

  lemma {:induction false} UsesSame(syms: seq<nat>, sel: seq<nat>, b: nat, t: nat, v: nat, n: nat)
    requires n <= |syms| && n <= GROUP_SIZE * |sel|
    ensures Uses(syms, sel + [b], t, v, n) == Uses(syms, sel, t, v, n)
  {
    if n > 0 {
      UsesSame(syms, sel, b, t, v, n - 1);
    }
  }

  /** The next group's table does not change what is counted before it. */
  lemma {:induction false} GatheredMore(rfreq: seq<seq<nat>>, syms: seq<nat>, sel: seq<nat>, b: nat, n: nat)
    requires n <= |syms| && n <= GROUP_SIZE * |sel| && Gathered(rfreq, syms, sel, n)
    ensures Gathered(rfreq, syms, sel + [b], n)
  {
    hide Uses;
    forall t {:trigger rfreq[t]} | 0 <= t < |rfreq|
      ensures forall v {:trigger rfreq[t][v]} :: 0 <= v < |rfreq[t]| ==>
        rfreq[t][v] == Uses(syms, sel + [b], t, v, n)
    {
      forall v {:trigger rfreq[t][v]} | 0 <= v < |rfreq[t]|
        ensures rfreq[t][v] == Uses(syms, sel + [b], t, v, n)
      {
        UsesSame(syms, sel, b, t, v, n);
      }
    }
  }

  lemma {:induction false} GatherOne(rfreq: seq<seq<nat>>, syms: seq<nat>, sel: seq<nat>, bt: nat, i: nat)
    requires i < |syms| && bt < |rfreq| && syms[i] < |rfreq[bt]| && Gathered(rfreq, syms, sel, i)
    requires i / GROUP_SIZE < |sel| && sel[i / GROUP_SIZE] == bt
    ensures var f := rfreq[bt]; Gathered(rfreq[bt := f[syms[i] := f[syms[i]] + 1]], syms, sel, i + 1)
  {
    var f := rfreq[bt];
    var r := rfreq[bt := f[syms[i] := f[syms[i]] + 1]];
    forall t {:trigger r[t]} | 0 <= t < |r|
      ensures forall v {:trigger r[t][v]} :: 0 <= v < |r[t]| ==> r[t][v] == Uses(syms, sel, t, v, i + 1)
    {
      assert |r[t]| == |rfreq[t]|;
      forall v {:trigger r[t][v]} | 0 <= v < |r[t]|
        ensures r[t][v] == Uses(syms, sel, t, v, i + 1)
      {
        assert rfreq[t][v] == Uses(syms, sel, t, v, i);
      }
    }
  }

  /** Count the symbols of one group in its table's frequencies. */
  method CountGroup(syms: seq<nat>, gs: nat, ge: nat, rfreq0: seq<seq<nat>>, bt: nat, alphaSize: nat,
      ghost sel: seq<nat>) returns (rfreq: seq<seq<nat>>)
    requires gs <= ge <= |syms| && bt < |rfreq0| && Sized(rfreq0, |rfreq0|, alphaSize) && Bounded(rfreq0, gs)
    requires forall i {:trigger syms[i]} :: 0 <= i < |syms| ==> syms[i] < alphaSize
    requires Gathered(rfreq0, syms, sel, gs)
    requires forall i {:trigger syms[i]} :: gs <= i < ge ==> i / GROUP_SIZE < |sel| && sel[i / GROUP_SIZE] == bt
    ensures Sized(rfreq, |rfreq0|, alphaSize) && Bounded(rfreq, ge) && Gathered(rfreq, syms, sel, ge)
  {
    hide Total, Uses, Gathered;
    rfreq := rfreq0;
    for i := gs to ge
      invariant Sized(rfreq, |rfreq0|, alphaSize) && Bounded(rfreq, i) && Gathered(rfreq, syms, sel, i)
    {
      assert |rfreq[bt]| == alphaSize && syms[i] < alphaSize;
      TotalBump(rfreq[bt], syms[i]);
      GatherOne(rfreq, syms, sel, bt, i);
      var f := rfreq[bt];
      rfreq := rfreq[bt := f[syms[i] := f[syms[i]] + 1]];
    }
  }

  predicate Selects(sel: seq<nat>, n: nat, nGroups: nat) {
    |sel| == GroupsOf(n) && forall i {:trigger sel[i]} :: 0 <= i < |sel| ==> sel[i] < nGroups
  }

  /** Every group is coded by a table that is cheapest for it. */
  ghost predicate Greedy(sel: seq<nat>, syms: seq<nat>, lens: seq<seq<nat>>, alphaSize: nat)
    requires forall i {:trigger syms[i]} :: 0 <= i < |syms| ==> syms[i] < alphaSize
    requires Sized(lens, |lens|, alphaSize)
  {
    forall g {:trigger sel[g]} :: 0 <= g < |sel| ==>
      GROUP_SIZE * g <= |syms| && sel[g] < |lens|
      && Least(syms, GROUP_SIZE * g, if GROUP_SIZE * g + GROUP_SIZE < |syms| then GROUP_SIZE * g + GROUP_SIZE
        else |syms|, lens, alphaSize, sel[g], |lens|)
  }

  lemma {:induction false} NextGroup(gs: nat, n: nat)
    requires gs < n && gs % GROUP_SIZE == 0
    ensures var ge := if gs + 50 < n then gs + 50 else n;
            GroupsOf(ge) == GroupsOf(gs) + 1 && GROUP_SIZE * GroupsOf(gs) == gs && (ge < n ==> ge % GROUP_SIZE == 0)
  {
  }

  method Round(syms: seq<nat>, lens: seq<seq<nat>>, nGroups: nat, alphaSize: nat)
    returns (sel: seq<nat>, rfreq: seq<seq<nat>>)
    requires nGroups >= 2 && Sized(lens, nGroups, alphaSize) && Cheap(lens)
    requires forall i {:trigger syms[i]} :: 0 <= i < |syms| ==> syms[i] < alphaSize
    ensures Selects(sel, |syms|, nGroups) && Sized(rfreq, nGroups, alphaSize) && Bounded(rfreq, |syms|)
    ensures Greedy(sel, syms, lens, alphaSize) && Gathered(rfreq, syms, sel, |syms|)
  {
    hide Total, Least, Gathered, Uses;
    TotalZeros(alphaSize);
    sel, rfreq := [], seq(nGroups, _ => Repeat(0, alphaSize));
    var gs: nat := 0;
    NothingGathered(rfreq, syms, sel);
    while gs < |syms|
      invariant gs <= |syms| && (gs < |syms| ==> gs % GROUP_SIZE == 0)
      invariant Selects(sel, gs, nGroups) && Sized(rfreq, nGroups, alphaSize) && Bounded(rfreq, gs)
      invariant Greedy(sel, syms, lens, alphaSize) && Gathered(rfreq, syms, sel, gs)
    {
      var ge: nat := if gs + GROUP_SIZE < |syms| then gs + GROUP_SIZE else |syms|;
      NextGroup(gs, |syms|);
      var bt := Cheapest(syms, gs, ge, lens, alphaSize);
      GatheredMore(rfreq, syms, sel, bt, gs);
      SameGroup(gs, ge, |sel|);
      sel := sel + [bt];
      rfreq := CountGroup(syms, gs, ge, rfreq, bt, alphaSize, sel);
      gs := ge;
    }
  }

  lemma {:induction false} NothingGathered(rfreq: seq<seq<nat>>, syms: seq<nat>, sel: seq<nat>)
    requires forall t {:trigger rfreq[t]} :: 0 <= t < |rfreq| ==>
      forall v {:trigger rfreq[t][v]} :: 0 <= v < |rfreq[t]| ==> rfreq[t][v] == 0
    ensures Gathered(rfreq, syms, sel, 0)
  {
  }

  lemma {:induction false} SameGroup(gs: nat, ge: nat, g: nat)
    requires gs == GROUP_SIZE * g && ge <= gs + GROUP_SIZE
    ensures forall i: nat :: gs <= i < ge ==> i / GROUP_SIZE == g
  {
  }

  // ----- refitting

  /** The lengths are the cheapest for these frequencies, halved as often as codes are too long, not if they are few. */
  ghost predicate BestFor(freq: seq<nat>, lens: Lengths) {
    exists k: nat {:trigger HL.AllScaled(freq, k)} ::
      && Optimal(HL.AllScaled(freq, k), lens) && HL.MustHalve(freq, k, MAX_LEN)
      && (Total(freq) + |freq| < 6765 ==> k == 0)
  }

  /** The frequencies of the groups given to table t. */
  function UsesOf(syms: seq<nat>, sel: seq<nat>, t: nat, alphaSize: nat): seq<nat> {
    seq(alphaSize, v requires 0 <= v < alphaSize => Uses(syms, sel, t, v, |syms|))
  }

  /** Every table is the best for the groups it has been given. */
  ghost predicate BestFit(syms: seq<nat>, sel: seq<nat>, lens: seq<Lengths>, alphaSize: nat) {
    forall t {:trigger lens[t]} :: 0 <= t < |lens| ==> BestFor(UsesOf(syms, sel, t, alphaSize), lens[t])
  }

  lemma {:induction false} GatheredFits(rfreq: seq<seq<nat>>, syms: seq<nat>, sel: seq<nat>, lens: seq<Lengths>,
      alphaSize: nat)
    requires Gathered(rfreq, syms, sel, |syms|) && Sized(rfreq, |rfreq|, alphaSize) && |lens| == |rfreq|
    requires forall t {:trigger lens[t]} :: 0 <= t < |lens| ==> BestFor(rfreq[t], lens[t])
    ensures BestFit(syms, sel, lens, alphaSize)
  {
    hide Uses, BestFor;
    forall t {:trigger lens[t]} | 0 <= t < |lens|
      ensures BestFor(UsesOf(syms, sel, t, alphaSize), lens[t])
    {
      assert |rfreq[t]| == alphaSize;
      assert rfreq[t] == UsesOf(syms, sel, t, alphaSize);
    }
  }

  predicate InAlphabet(syms: seq<nat>, alphaSize: nat) {
    forall i {:trigger syms[i]} :: 0 <= i < |syms| ==> syms[i] < alphaSize
  }

  /** The first round goes by the first guess. */
  ghost predicate FromGuess(syms: seq<nat>, alphaSize: nat, nGroups: nat, sel: seq<nat>, before: seq<seq<nat>>,
      owner: seq<nat>)
    requires InAlphabet(syms, alphaSize)
  {
    && Sized(before, nGroups, alphaSize) && Owned(before, owner, 0) && InStretches(owner, 0, nGroups)
    && Greedy(sel, syms, before, alphaSize)
    && forall v: nat {:trigger Buckets.Count(syms, v, |syms|)} :: |owner| <= v < alphaSize ==>
      Buckets.Count(syms, v, |syms|) == 0
  }

  /**
   * The tables and selectors after a round and n more: each group is given to a table cheapest for
   * it, of the tables of the round before, and then each table is made the best for its groups.
   */
  ghost predicate Refined(n: nat, syms: seq<nat>, alphaSize: nat, nGroups: nat, sel: seq<nat>, lens: seq<Lengths>)
    requires InAlphabet(syms, alphaSize)
  {
    && BestFit(syms, sel, lens, alphaSize)
    && if n == 0 then
         exists before, owner {:trigger FromGuess(syms, alphaSize, nGroups, sel, before, owner)} ::
           FromGuess(syms, alphaSize, nGroups, sel, before, owner)
       else
         exists before, sel' {:trigger Refined(n - 1, syms, alphaSize, nGroups, sel', before)} ::
           Refined(n - 1, syms, alphaSize, nGroups, sel', before) && Sized(before, nGroups, alphaSize)
           && Greedy(sel, syms, before, alphaSize)
  }

  predicate Fitted(lens: seq<Lengths>, nGroups: nat, alphaSize: nat) {
    && Sized(lens, nGroups, alphaSize)
    && forall t {:trigger lens[t]} :: 0 <= t < |lens| ==>
      Decodable(lens[t]) && Kraft(lens[t], LONGEST) == Pow2(LONGEST) && MaxAtMost(lens[t])
  }

  predicate AllWithin(lens: seq<Lengths>) { forall t {:trigger lens[t]} :: 0 <= t < |lens| ==> MaxAtMost(lens[t]) }

  predicate MaxAtMost(l: Lengths) { forall v {:trigger l[v]} :: 0 <= v < |l| ==> 1 <= l[v] <= MAX_LEN }

  method FitTable(freq: seq<nat>) returns (lens: Lengths)
    requires 3 <= |freq| <= MAX_ALPHA_SIZE && Total(freq) <= 1_000_000
    ensures |lens| == |freq| && Decodable(lens) && Kraft(lens, LONGEST) == Pow2(LONGEST) && MaxAtMost(lens)
    ensures BestFor(freq, lens)
  {
    hide Total, Kraft, Pow2, Optimal, HL.AllScaled, HL.MustHalve;
    var len := new nat[MAX_ALPHA_SIZE];
    WeightsAtMost(freq, |freq|);
    assert freq[..|freq|] == freq;
    ghost var k := HL.MakeCodeLengths(len, freq, MAX_LEN);
    lens := len[..|freq|];
  }

  method FitTables(rfreq: seq<seq<nat>>, alphaSize: nat) returns (lens: seq<Lengths>)
    requires 3 <= alphaSize <= MAX_ALPHA_SIZE && Sized(rfreq, |rfreq|, alphaSize) && Bounded(rfreq, 1_000_000)
    ensures Fitted(lens, |rfreq|, alphaSize)
    ensures forall t {:trigger lens[t]} :: 0 <= t < |lens| ==> BestFor(rfreq[t], lens[t])
  {
    hide Total, Kraft, Pow2, Decodable, MaxAtMost, BestFor;
    lens := [];
    for t := 0 to |rfreq|
      invariant Fitted(lens, t, alphaSize)
      invariant forall t {:trigger lens[t]} :: 0 <= t < |lens| ==> BestFor(rfreq[t], lens[t])
    {
      assert |rfreq[t]| == alphaSize;
      var l := FitTable(rfreq[t]);
      lens := lens + [l];
    }
  }

  lemma {:induction false} FittedIsCheap(lens: seq<Lengths>, nGroups: nat, alphaSize: nat)
    requires Fitted(lens, nGroups, alphaSize)
    ensures Cheap(lens)
  {
  }

  /** Selectors and tables for a block's symbols, refined four times, every table a complete code of lengths 1 to 17. */
  method ChooseTables(syms: seq<nat>, alphaSize: nat) returns (nGroups: nat, sel: seq<nat>, lens: seq<Lengths>)
    requires 3 <= alphaSize <= MAX_ALPHA_SIZE && |syms| <= 1_000_000
    requires forall i {:trigger syms[i]} :: 0 <= i < |syms| ==> syms[i] < alphaSize
    ensures nGroups == NumTables(|syms|) && Selects(sel, |syms|, nGroups) && Fitted(lens, nGroups, alphaSize)
    ensures Refined(ITERATIONS - 1, syms, alphaSize, nGroups, sel, lens)
  {
    hide Total, Kraft, Pow2, Fitted, Cheap, Sized, Selects, Bounded, Owned, InStretches, Greedy, Gathered, BestFit,
      BestFor, Refined, FromGuess;
    nGroups := NumTables(|syms|);
    var mtfFreq := CountSymbols(syms, alphaSize);
    ghost var owner;
    var l;
    l, owner := InitialTables(mtfFreq, |syms|, nGroups);
    OwnedIsCheap(l, owner);
    var rfreq;
    sel, rfreq := Round(syms, l, nGroups, alphaSize);
    BoundedMore(rfreq, |syms|);
    SizedSame(rfreq, nGroups, alphaSize);
    SizedSame(l, nGroups, alphaSize);
    lens := FitTables(rfreq, alphaSize);
    FittedIsSized(lens, nGroups, alphaSize);
    GatheredFits(rfreq, syms, sel, lens, alphaSize);
    FirstRound(syms, alphaSize, nGroups, sel, lens, l, owner, mtfFreq);
    for iter := 1 to ITERATIONS
      invariant Selects(sel, |syms|, nGroups) && Fitted(lens, nGroups, alphaSize)
      invariant Refined(iter - 1, syms, alphaSize, nGroups, sel, lens)
    {
      ghost var before, sel' := lens, sel;
      FittedIsCheap(lens, nGroups, alphaSize);
      FittedIsSized(lens, nGroups, alphaSize);
      sel, rfreq := Round(syms, lens, nGroups, alphaSize);
      BoundedMore(rfreq, |syms|);
      SizedSame(rfreq, nGroups, alphaSize);
      lens := FitTables(rfreq, alphaSize);
      FittedIsSized(lens, nGroups, alphaSize);
      GatheredFits(rfreq, syms, sel, lens, alphaSize);
      NextRound(iter, syms, alphaSize, nGroups, sel, lens, before, sel');
    }
  }

  lemma {:induction false} FirstRound(syms: seq<nat>, alphaSize: nat, nGroups: nat, sel: seq<nat>, lens: seq<Lengths>,
      before: seq<seq<nat>>, owner: seq<nat>, freq: seq<nat>)
    requires InAlphabet(syms, alphaSize) && BestFit(syms, sel, lens, alphaSize)
    requires Sized(before, nGroups, alphaSize) && Owned(before, owner, 0) && InStretches(owner, 0, nGroups)
    requires SizedOk(before, alphaSize) && Greedy(sel, syms, before, alphaSize)
    requires |freq| == alphaSize && forall v: nat {:trigger freq[v]} :: v < alphaSize ==>
      freq[v] == Buckets.Count(syms, v, |syms|)
    requires forall v {:trigger freq[v]} :: |owner| <= v < |freq| ==> freq[v] == 0
    ensures Refined(0, syms, alphaSize, nGroups, sel, lens)
  {
    hide BestFit, Owned, InStretches, Greedy, Sized;
    forall v: nat {:trigger Buckets.Count(syms, v, |syms|)} | |owner| <= v < alphaSize
      ensures Buckets.Count(syms, v, |syms|) == 0
    {
      assert freq[v] == 0;
    }
    assert FromGuess(syms, alphaSize, nGroups, sel, before, owner);
  }

  lemma {:induction false} NextRound(n: nat, syms: seq<nat>, alphaSize: nat, nGroups: nat, sel: seq<nat>,
      lens: seq<Lengths>, before: seq<Lengths>, sel': seq<nat>)
    requires n >= 1 && InAlphabet(syms, alphaSize) && BestFit(syms, sel, lens, alphaSize)
    requires Refined(n - 1, syms, alphaSize, nGroups, sel', before)
    requires Sized(before, nGroups, alphaSize) && SizedOk(before, alphaSize) && Greedy(sel, syms, before, alphaSize)
    ensures Refined(n, syms, alphaSize, nGroups, sel, lens)
  {
    hide BestFit, Greedy, Sized;
  }

  predicate SizedOk(lens: seq<seq<nat>>, alphaSize: nat) { Sized(lens, |lens|, alphaSize) }

  lemma {:induction false} FittedIsSized(lens: seq<Lengths>, nGroups: nat, alphaSize: nat)
    requires Fitted(lens, nGroups, alphaSize)
    ensures Sized(lens, nGroups, alphaSize) && |lens| == nGroups && SizedOk(lens, alphaSize)
  {
  }

  lemma {:induction false} SizedSame(f: seq<seq<nat>>, nGroups: nat, alphaSize: nat)
    requires Sized(f, nGroups, alphaSize)
    ensures |f| == nGroups && SizedOk(f, alphaSize)
  {
  }

  lemma {:induction false} BoundedMore(f: seq<seq<nat>>, n: nat)
    requires Bounded(f, n) && n <= 1_000_000
    ensures Bounded(f, 1_000_000)
  {
  }

  /** mtfFreq: how often each symbol occurs. */
  method CountSymbols(syms: seq<nat>, alphaSize: nat) returns (freq: seq<nat>)
    requires forall i {:trigger syms[i]} :: 0 <= i < |syms| ==> syms[i] < alphaSize
    ensures |freq| == alphaSize && forall v: nat {:trigger freq[v]} :: v < alphaSize ==>
      freq[v] == Buckets.Count(syms, v, |syms|)
    ensures Total(freq) == |syms|
  {
    hide Total;
    freq := Repeat(0, alphaSize);
    TotalZeros(alphaSize);
    for i := 0 to |syms|
      invariant |freq| == alphaSize && forall v: nat {:trigger freq[v]} :: v < alphaSize ==>
        freq[v] == Buckets.Count(syms, v, i)
      invariant Total(freq) == i
    {
      TotalBump(freq, syms[i]);
      freq := freq[syms[i] := freq[syms[i]] + 1];
    }
  }
}
