/**
 * The last stage of the decoder: bytes fetched along the inverse transform, run lengths
 * undone, suspended whenever the output space runs out. One object is the output part
 * of the decoder's state, for one block.
 */
module OutputStage {
  import opened Prelude
  import opened Crc
  import opened RunLength
  import opened BwtInverse
  import opened BwtDecoder
  import opened RandTable
  import Buckets

  /** Everything to be written for the n bytes of s: w already is, and `len` copies of ch are owed. */
  ghost predicate Progress(s: seq<byte>, n: nat, w: seq<byte>, used: nat, ch: byte, len: nat) {
    && 1 <= used <= n + 2 && n < |s|
    && Unrle(s, n, 0) == Prepend(w, Remaining(s, n, used, ch, len))
  }

  lemma {:induction false} ProgressStart(s: seq<byte>, n: nat, ch: byte)
    requires n < |s|
    ensures Progress(s, n, [], 1, ch, 0)
  {
    assert Repeat(ch, 0) == [];
    assert [] + ([] + Unrle(s, n, 0).out) == Unrle(s, n, 0).out;
  }

  lemma {:induction false} ProgressEmit(s: seq<byte>, n: nat, w: seq<byte>, used: nat, ch: byte, len: nat)
    requires Progress(s, n, w, used, ch, len) && len > 0
    ensures Progress(s, n, w + [ch], used, ch, len - 1)
  {
    EmitOne(s, n, used, ch, len);
    Assoc(w, [ch], Remaining(s, n, used, ch, len - 1).out);
  }

  lemma {:induction false} ProgressRun(s: seq<byte>, n: nat, w: seq<byte>, used: nat, ch: byte)
    requires Progress(s, n, w, used, ch, 0) && used <= n
    ensures Progress(s, n, w, NextRun(s, n, used).used, s[used - 1], NextRun(s, n, used).len)
    ensures used < NextRun(s, n, used).used
  {
    RunTaken(s, n, used);
    assert Repeat(ch, 0) == Repeat(s[used - 1], 0);
  }

  lemma {:induction false} ProgressDone(s: seq<byte>, n: nat, w: seq<byte>, used: nat, ch: byte)
    requires Progress(s, n, w, used, ch, 0) && used > n
    ensures Unrle(s, n, 0) == Unpacked(w, used > n + 1)
  {
    var r := Remaining(s, n, used, ch, 0);
    assert r.out == [] + [];
    assert w + r.out == w;
  }

  /** As long as bytes are owed or runs are left, something is still to be written. */
  lemma {:induction false} ProgressMore(s: seq<byte>, n: nat, w: seq<byte>, used: nat, ch: byte, len: nat)
    requires Progress(s, n, w, used, ch, len) && (len > 0 || used <= n)
    ensures |w| < |Unrle(s, n, 0).out|
  {
    hide Unrle, Remaining;
    if len > 0 {
      ProgressEmit(s, n, w, used, ch, len);
      assert Unrle(s, n, 0).out == w + [ch] + Remaining(s, n, used, ch, len - 1).out;
    } else {
      RunTaken(s, n, used);
      var r := NextRun(s, n, used);
      ProgressRun(s, n, w, used, ch);
      ProgressEmit(s, n, w, r.used, s[used - 1], r.len);
      assert Unrle(s, n, 0).out == w + [s[used - 1]] + Remaining(s, n, r.used, s[used - 1], r.len - 1).out;
    }
  }

  /** The bytes the walk fetches: the block, and two more as it goes on around. */
  ghost function Fetched(l: seq<byte>, origPtr: nat): (s: seq<byte>)
    requires origPtr < |l|
    ensures |s| == |l| + 2
  {
    seq(|l| + 2, k requires 0 <= k => Fetch(l, origPtr, k))
  }

  /** The same with the flipped bits of a randomised block put right. */
  ghost function Restored(l: seq<byte>, origPtr: nat, randomised: bool): (s: seq<byte>)
    requires origPtr < |l|
    ensures |s| == |l| + 2
  {
    if randomised then Derandomised(Fetched(l, origPtr)) else Fetched(l, origPtr)
  }

  /** What a block with last column l and row origPtr decodes to. */
  ghost function BlockOutput(l: seq<byte>, origPtr: nat, randomised: bool): Unpacked
    requires origPtr < |l|
  {
    Unrle(Restored(l, origPtr, randomised), |l|, 0)
  }

  ghost function WalkFast(l: seq<byte>, o: nat): (w: seq<nat>)
    requires o < |l|
    ensures |w| == |l| + 3
  {
    seq(|l| + 3, k requires 0 <= k => WalkPos(l, o, k))
  }

  ghost function WalkSmall(l: seq<byte>, o: nat): (w: seq<nat>)
    requires o < |l|
    ensures |w| == |l| + 3
  {
    seq(|l| + 3, k requires 0 <= k => if k == 0 then o else WalkPos(l, o, k - 1))
  }

  /** The walk stays on the cycle that was reversed. */
  lemma {:induction false} SmallStep(l: seq<byte>, o: nat, links: seq<nat>, cycle: seq<nat>, k: nat)
    requires o < |l| && o in cycle && Reversed(l, cycle, links) && k < |l| + 2
    ensures var w := WalkSmall(l, o);
            w[k] < |l| && w[k] in cycle && links[w[k]] == w[k + 1] && Fetch(l, o, k) == l[Back(l, w[k])]
  {
    var w := WalkSmall(l, o);
    if k > 0 {
      SmallStep(l, o, links, cycle, k - 1);
      assert links[w[k - 1]] == Back(l, w[k - 1]);
    }
    assert links[w[k]] == Back(l, w[k]);
  }

  lemma {:induction false} SmallWalks(l: seq<byte>, o: nat, links: seq<nat>, cycle: seq<nat>)
    requires o < |l| && o in cycle && Reversed(l, cycle, links)
    ensures var s, w := Fetched(l, o), WalkSmall(l, o);
            && w[0] == o
            && forall k {:trigger s[k]} :: 0 <= k < |l| + 2 ==>
              w[k] < |l| && links[w[k]] == w[k + 1] && s[k] == l[Back(l, w[k])]
  {
    var s, w := Fetched(l, o), WalkSmall(l, o);
    forall k {:trigger s[k]} {:trigger w[k]} | 0 <= k < |l| + 2
      ensures w[k] < |l| && links[w[k]] == w[k + 1] && s[k] == l[Back(l, w[k])]
    {
      SmallStep(l, o, links, cycle, k);
    }
  }

  lemma {:induction false} FastWalks(l: seq<byte>, o: nat, t: seq<nat>)
    requires o < |l| && Linked(t, l, |l|)
    ensures var s, w := Fetched(l, o), WalkFast(l, o);
            && t[o] == 256 * w[0] + l[o]
            && forall k {:trigger s[k]} :: 0 <= k < |l| + 2 ==> w[k] < |l| && t[w[k]] == 256 * w[k + 1] + s[k]
  {
    var s, w := Fetched(l, o), WalkFast(l, o);
    forall k {:trigger s[k]} {:trigger w[k]} | 0 <= k < |l| + 2
      ensures w[k] < |l| && t[w[k]] == 256 * w[k + 1] + s[k]
    {
    }
  }

  class Output {
    const small: bool
    const limit: nat
    const tt: array<nat>
    const ll16: array<nat>
    const ll4: array<nat>
    const cftab: array<nat>
    var nblock: nat
    var tPos: nat
    var k0: byte
    var nblockUsed: nat
    var stateOutLen: nat
    var stateOutCh: byte
    var calculatedBlockCRC: word
    var blockRandomised: bool
    var rNToGo: nat
    var rTPos: nat
    /** The bytes fetched, and the positions they are fetched from: two more than the block has. */
    ghost var raw: seq<byte>
    /** The bytes of the block, and two more. */
    ghost var s: seq<byte>
    ghost var walk: seq<nat>
    ghost var l: seq<byte>
    ghost var links: seq<nat>
    ghost var written: seq<byte>

    /** The links lead along the walk. */
    ghost predicate Linkage()
      reads this`nblock, this`raw, this`walk, this`l, this`links, tt, ll16, ll4, cftab
    {
      && |raw| == nblock + 2 && |walk| == nblock + 3 && 0 < nblock <= limit
      && (small ==> Starts(cftab, l) && Holds(ll16[..], ll4[..], links) && |l| == |links| == nblock)
      && forall k {:trigger raw[k]} :: 0 <= k < nblock + 2 ==>
           if small then
             walk[k] < nblock && links[walk[k]] == walk[k + 1] && raw[k] == l[Back(l, walk[k])]
           else
             walk[k] < nblock && walk[k] < tt.Length && tt[walk[k]] == 256 * walk[k + 1] + raw[k]
    }

    ghost predicate AtPlace()
      reads this`tPos, this`nblockUsed, this`nblock, this`raw, this`walk, this`l, this`links, tt, ll16, ll4, cftab
    {
      Linkage() && |raw| == nblock + 2 && |walk| == nblock + 3 && nblock > 0
        && (nblockUsed < |walk| ==> tPos == walk[nblockUsed])
    }

    /** The mask is as far as the bytes fetched. */
    ghost predicate Masked()
      reads this`nblockUsed, this`blockRandomised, this`rNToGo, this`rTPos, this`raw, this`s
    {
      if blockRandomised then s == Derandomised(raw) && Mask(rNToGo, rTPos) == MaskAfter(nblockUsed) else s == raw
    }

    ghost predicate Walking()
      reads this`tPos, this`nblockUsed, this`nblock, this`blockRandomised, this`rNToGo, this`rTPos,
            this`raw, this`s, this`walk, this`l, this`links, tt, ll16, ll4, cftab
    {
      AtPlace() && Masked()
    }

    /** The next byte of the block is at hand. */
    ghost predicate NextAtHand()
      reads this
    {
      |s| == nblock + 2 && 1 <= nblockUsed && (nblockUsed <= nblock ==> k0 == s[nblockUsed - 1])
    }

    /** What is written and what is owed make up the whole output of the block. */
    ghost predicate Valid()
      reads this, tt, ll16, ll4, cftab
    {
      && Walking() && NextAtHand() && nblockUsed <= nblock + 2
      && Progress(s, nblock, written, nblockUsed, stateOutCh, stateOutLen)
      && calculatedBlockCRC == Fold(INITIAL, written)
    }

    predicate Finished()
      reads this
    {
      nblockUsed == nblock + 1 && stateOutLen == 0
    }

    constructor (small: bool, limit: nat)
      requires limit <= MAX_BLOCK
      ensures this.small == small && this.limit == limit && Sized() && Stored([])
      ensures fresh(tt) && fresh(ll16) && fresh(ll4) && fresh(cftab)
    {
      this.small, this.limit := small, limit;
      tt := new nat[if small then 0 else limit];
      ll16 := new nat[if small then limit else 0](_ => 0);
      ll4 := new nat[if small then (1 + limit) / 2 else 0](_ => 0);
      cftab := new nat[257];
    }

    predicate Sized() {
      && limit <= MAX_BLOCK && cftab.Length == 257 && cftab != tt && cftab != ll16 && cftab != ll4 && ll16 != ll4
      && (if small then tt.Length == 0 && ll16.Length == limit && ll4.Length == (1 + limit) / 2
          else tt.Length == limit && ll16.Length == ll4.Length == 0)
    }

    /** A block written out leaves the tables fit for the next. */
    lemma {:induction false} RoomAgain()
      requires Sized() && Linkage()
      ensures Stored([])
    {
    }

    /** A sound block that is not finished has more to give. */
    lemma {:induction false} MoreToGive()
      requires Valid() && !Finished() && !Unrle(s, nblock, 0).corrupt
      ensures |written| < |Unrle(s, nblock, 0).out|
    {
      hide Unrle, Progress, Walking;
      if stateOutLen == 0 && nblockUsed > nblock {
        ProgressDone(s, nblock, written, nblockUsed, stateOutCh);
      } else {
        ProgressMore(s, nblock, written, nblockUsed, stateOutCh, stateOutLen);
      }
    }

    /** The bytes of the last column so far. */
    ghost predicate Stored(l: seq<byte>)
      reads tt, ll16, ll4
    {
      && |l| <= limit
      && (if small then
            Packs(ll16[..], ll4[..], limit) && forall i {:trigger ll16[i]} :: 0 <= i < |l| ==> ll16[i] == l[i]
          else
            limit <= tt.Length && forall i {:trigger tt[i]} :: 0 <= i < |l| ==> tt[i] == l[i])
    }

    method Store(nblock: nat, c: byte, ghost l: seq<byte>)
      requires Sized() && Stored(l) && nblock == |l| < limit
      modifies tt, ll16
      ensures Stored(l + [c])
    {
      if small {
        ghost var was := ll16[..];
        var x: nat := c;
        ll16[nblock] := x;
        assert ll16[..] == was[nblock := x];
      } else {
        tt[nblock] := c;
      }
    }

    method LinkFast(nblock: nat, origPtr: nat, ghost l: seq<byte>)
      requires !small && Sized() && Stored(l) && nblock == |l| && origPtr < nblock && Starts(cftab, l)
      modifies this`nblock, this`tPos, this`nblockUsed, this`raw, this`walk, this`l, this`links, tt, cftab
      ensures AtPlace() && nblockUsed == 0 && this.nblock == nblock && this.l == l && raw == Fetched(l, origPtr)
    {
      hide Fetched, WalkFast, Starts, Buckets.Count, Buckets.Start, Back;
      ghost var t := BuildLinks(tt, cftab, nblock, l);
      assert t[origPtr] == tt[origPtr];
      this.nblock, this.l, raw, walk := nblock, l, Fetched(l, origPtr), WalkFast(l, origPtr);
      FastWalks(l, origPtr, t);
      forall k {:trigger raw[k]} | 0 <= k < nblock + 2
        ensures walk[k] < nblock && tt[walk[k]] == 256 * walk[k + 1] + raw[k]
      {
        assert raw[k] < 256;
        assert t[walk[k]] == tt[walk[k]];
      }
      tPos := tt[origPtr] / 256;
      nblockUsed := 0;
      assert tPos == walk[0];
      assert Linkage();
    }

    method ReverseLinks(nblock: nat, origPtr: nat, ghost l: seq<byte>) returns (ghost t: seq<nat>)
      requires small && Sized() && Stored(l) && nblock == |l| && origPtr < nblock && Starts(cftab, l)
      modifies ll16, ll4
      ensures Starts(cftab, l) && Holds(ll16[..], ll4[..], t) && |t| == nblock
      ensures |Fetched(l, origPtr)| == nblock + 2 && |WalkSmall(l, origPtr)| == nblock + 3
      ensures var s, w := Fetched(l, origPtr), WalkSmall(l, origPtr);
              && w[0] == origPtr
              && forall k {:trigger s[k]} :: 0 <= k < nblock + 2 ==>
                w[k] < |l| && t[w[k]] == w[k + 1] && s[k] == l[Back(l, w[k])]
    {
      hide Reversed, Forward, Holds, Starts, Back;
      t := BuildForward(ll16, ll4, cftab, nblock, l);
      ghost var cycle;
      t, cycle := ReverseCycle(ll16, ll4, origPtr, l, t);
      SmallWalks(l, origPtr, t, cycle);
      ghost var s, w := Fetched(l, origPtr), WalkSmall(l, origPtr);
      forall k {:trigger s[k]} {:trigger w[k]} | 0 <= k < nblock + 2
        ensures w[k] < |l| && t[w[k]] == w[k + 1] && s[k] == l[Back(l, w[k])]
      {
        assert s[k] < 256;
      }
    }

    method LinkSmall(nblock: nat, origPtr: nat, ghost l: seq<byte>)
      requires small && Sized() && Stored(l) && nblock == |l| && origPtr < nblock && Starts(cftab, l)
      modifies this`nblock, this`tPos, this`nblockUsed, this`raw, this`walk, this`l, this`links, ll16, ll4
      ensures AtPlace() && nblockUsed == 0 && this.nblock == nblock && this.l == l && raw == Fetched(l, origPtr)
    {
      hide Fetched, WalkSmall, Starts, Holds, Back, Packs, Buckets.Start, WalkPos;
      ghost var t := ReverseLinks(nblock, origPtr, l);
      this.nblock, this.l, raw, walk, links := nblock, l, Fetched(l, origPtr), WalkSmall(l, origPtr), t;
      forall k {:trigger raw[k]} {:trigger walk[k]} | 0 <= k < nblock + 2
        ensures walk[k] < nblock && links[walk[k]] == walk[k + 1] && raw[k] == l[Back(l, walk[k])]
      {
        assert raw[k] < 256;
      }
      tPos := origPtr;
      nblockUsed := 0;
    }

    /**
     * From the column and its byte counts to the first byte of the block. Nothing here
     * can be corrupt any more, and both forms will write the same bytes.
     */
    method Begin(nblock: nat, origPtr: nat, randomised: bool, unzftab: array<nat>, ghost l: seq<byte>)
      returns (corrupt: bool)
      requires Sized() && Stored(l) && nblock == |l| && origPtr < nblock && unzftab.Length == 256 && unzftab != cftab
      requires forall v: nat {:trigger unzftab[v]} {:trigger Buckets.Count(l, v, |l|)} :: v < 256 ==>
        unzftab[v] == Buckets.Count(l, v, |l|)
      modifies this, tt, ll16, ll4, cftab
      ensures !corrupt && Valid() && written == [] && nblockUsed == 1
      ensures this.nblock == nblock && this.l == l && s == Restored(l, origPtr, randomised)
    {
      hide Stored, Starts, AtPlace, Masked, Progress, Buckets.Count, Fetch, Fetched;
      stateOutLen, stateOutCh, calculatedBlockCRC := 0, 0, INITIAL;
      written := [];
      corrupt := true;
      var ok := BuildCftab(unzftab, cftab, nblock, l);
      if ok {
        Link(nblock, origPtr, l);
        corrupt := FirstByte(randomised);
      }
      ProgressStart(s, nblock, 0);
    }

    method Link(nblock: nat, origPtr: nat, ghost l: seq<byte>)
      requires Sized() && Stored(l) && nblock == |l| && origPtr < nblock && Starts(cftab, l)
      modifies this`nblock, this`tPos, this`nblockUsed, this`raw, this`walk, this`l, this`links, tt, ll16, ll4, cftab
      ensures AtPlace() && nblockUsed == 0 && this.nblock == nblock && this.l == l && raw == Fetched(l, origPtr)
    {
      hide Stored, Starts, Linkage, Buckets.Count, Fetched;
      if small {
        LinkSmall(nblock, origPtr, l);
      } else {
        LinkFast(nblock, origPtr, l);
      }
    }

    method FirstByte(randomised: bool) returns (corrupt: bool)
      requires AtPlace() && nblockUsed == 0
      modifies this`tPos, this`nblockUsed, this`k0, this`blockRandomised, this`rNToGo, this`rTPos, this`s
      ensures !corrupt && Walking() && NextAtHand() && nblockUsed == 1
      ensures s == if randomised then Derandomised(raw) else raw
    {
      hide Linkage;
      StartMask(randomised);
      corrupt, k0 := NextByte();
    }

    /** BZ_RAND_INIT_MASK */
    method StartMask(randomised: bool)
      requires AtPlace() && nblockUsed == 0
      modifies this`blockRandomised, this`rNToGo, this`rTPos, this`s
      ensures Walking() && blockRandomised == randomised && s == if randomised then Derandomised(raw) else raw
    {
      hide Linkage;
      blockRandomised, rNToGo, rTPos := randomised, 0, 0;
      s := if randomised then Derandomised(raw) else raw;
    }

    method GetFast() returns (corrupt: bool, c: byte)
      requires !small && AtPlace() && nblockUsed < |raw|
      modifies this`tPos, this`nblockUsed
      ensures AtPlace() && nblockUsed == old(nblockUsed) + 1
      ensures !corrupt && c == raw[old(nblockUsed)]
    {
      corrupt, c := tPos >= limit, 0;
      if corrupt {
        return;
      }
      assert raw[nblockUsed] < 256;
      var word := tt[tPos];
      c := word % 256;
      tPos := word / 256;
      nblockUsed := nblockUsed + 1;
    }

    method GetSmall() returns (corrupt: bool, c: byte)
      requires small && AtPlace() && nblockUsed < |raw|
      modifies this`tPos, this`nblockUsed
      ensures AtPlace() && nblockUsed == old(nblockUsed) + 1
      ensures !corrupt && c == raw[old(nblockUsed)]
    {
      corrupt, c := tPos >= limit, 0;
      if corrupt {
        return;
      }
      assert raw[nblockUsed] < 256 && tPos < |l|;
      assert raw[nblockUsed] == l[Back(l, tPos)];
      c := IndexIntoF(tPos, cftab, l);
      tPos := GetLL(ll16[..], ll4[..], tPos);
      nblockUsed := nblockUsed + 1;
    }

    /** BZ_RAND_UPD_MASK and the flip, for the byte just fetched. */
    method Unmask(c: byte) returns (r: byte)
      requires rTPos < 512
      modifies this`rNToGo, this`rTPos
      ensures Mask(rNToGo, rTPos) == Updated(old(Mask(rNToGo, rTPos))) && r == if rNToGo == 1 then Flip(c) else c
    {
      hide RNum;
      if rNToGo == 0 {
        rNToGo := RNum(rTPos);
        rTPos := rTPos + 1;
        if rTPos == 512 {
          rTPos := 0;
        }
      }
      rNToGo := rNToGo - 1;
      r := if rNToGo == 1 then Flip(c) else c;
    }

    /** The next byte, in either form, randomised or not. */
    method NextByte() returns (corrupt: bool, c: byte)
      requires Walking() && nblockUsed < |s|
      modifies this`tPos, this`nblockUsed, this`rNToGo, this`rTPos
      ensures Walking() && nblockUsed == old(nblockUsed) + 1
      ensures !corrupt && c == s[old(nblockUsed)]
    {
      hide Linkage, Updated, Flip;
      if small {
        corrupt, c := GetSmall();
      } else {
        corrupt, c := GetFast();
      }
      if blockRandomised {
        MaskStep(nblockUsed);
        c := Unmask(c);
      }
    }

    lemma {:induction false} MaskStep(k: nat)
      requires k > 0
      ensures MaskAfter(k) == Updated(MaskAfter(k - 1))
    {
    }

    /** FAST: the run that begins with ch, as yet on local copies. */
    method TakeRunFast(ch: byte) returns (corrupt: bool, len: nat, k: byte)
      requires !small && !blockRandomised && Walking() && NextAtHand() && nblockUsed <= nblock && ch == k0
      modifies this`tPos, this`nblockUsed
      ensures !corrupt && Walking() && Stretch(len, nblockUsed) == NextRun(s, nblock, old(nblockUsed))
      ensures old(nblockUsed) < nblockUsed <= nblock + 2 && (nblockUsed <= nblock ==> k == s[nblockUsed - 1])
    {
      hide AtPlace;
      corrupt, k := GetFast();
      if k != ch || nblockUsed == nblock + 1 {
        return corrupt, 1, k;
      }
      corrupt, k := GetFast();
      if nblockUsed == nblock + 1 || k != ch {
        return corrupt, 2, k;
      }
      corrupt, k := GetFast();
      if nblockUsed == nblock + 1 || k != ch {
        return corrupt, 3, k;
      }
      corrupt, k := GetFast();
      len := RunOf(k);
      corrupt, k := GetFast();
    }

    /** SMALL, and all randomised blocks: the same, but that the end of the block is looked for first. */
    method TakeRun(ch: byte) returns (corrupt: bool, len: nat, k: byte)
      requires Walking() && NextAtHand() && nblockUsed <= nblock && ch == k0
      modifies this`tPos, this`nblockUsed, this`rNToGo, this`rTPos
      ensures !corrupt && Walking() && Stretch(len, nblockUsed) == NextRun(s, nblock, old(nblockUsed))
      ensures old(nblockUsed) < nblockUsed <= nblock + 2 && (nblockUsed <= nblock ==> k == s[nblockUsed - 1])
    {
      hide Walking;
      corrupt, k := NextByte();
      if nblockUsed == nblock + 1 || k != ch {
        return corrupt, 1, k;
      }
      corrupt, k := NextByte();
      if nblockUsed == nblock + 1 || k != ch {
        return corrupt, 2, k;
      }
      corrupt, k := NextByte();
      if nblockUsed == nblock + 1 || k != ch {
        return corrupt, 3, k;
      }
      corrupt, k := NextByte();
      len := RunOf(k);
      corrupt, k := NextByte();
    }

    /** Begin the run at k0. */
    method StartRun() returns (corrupt: bool)
      requires Walking() && NextAtHand() && nblockUsed <= nblock
      modifies this`tPos, this`nblockUsed, this`rNToGo, this`rTPos, this`k0, this`stateOutLen, this`stateOutCh
      ensures !corrupt && Walking() && NextAtHand() && stateOutCh == old(k0)
      ensures Stretch(stateOutLen, nblockUsed) == NextRun(s, nblock, old(nblockUsed))
      ensures old(nblockUsed) < nblockUsed <= nblock + 2
    {
      hide Walking, NextRun;
      var len, k;
      if small || blockRandomised {
        corrupt, len, k := TakeRun(k0);
      } else {
        corrupt, len, k := TakeRunFast(k0);
      }
      stateOutCh, k0, stateOutLen := k0, k, len;
    }

    /** Write one owed byte. */
    method Emit() returns (c: byte)
      requires Valid() && stateOutLen > 0
      modifies this`stateOutLen, this`calculatedBlockCRC, this`written
      ensures Valid() && c == old(stateOutCh) && written == old(written) + [c] && stateOutLen == old(stateOutLen) - 1
    {
      hide AtPlace, Masked, Progress;
      c := stateOutCh;
      ProgressEmit(s, nblock, written, nblockUsed, stateOutCh, stateOutLen);
      FoldSnoc(INITIAL, written, c);
      calculatedBlockCRC := Update(calculatedBlockCRC, c);
      stateOutLen := stateOutLen - 1;
      written := written + [c];
    }

    /** Write as much as fits into `avail` bytes, SMALL or randomised. True for corrupt data. */
    method UnRleSmall(avail: nat) returns (corrupt: bool, produced: seq<byte>)
      requires Valid() && (small || blockRandomised)
      modifies this`tPos, this`nblockUsed, this`rNToGo, this`rTPos, this`k0, this`stateOutLen, this`stateOutCh,
        this`calculatedBlockCRC, this`written
      ensures Valid() && written == old(written) + produced && |produced| <= avail
      ensures !corrupt ==> |produced| == avail || Finished()
      ensures corrupt ==> Unrle(s, nblock, 0) == Unpacked(written, true)
    {
      hide AtPlace, Masked, Progress, Fold;
      produced := [];
      while true
        invariant Valid() && written == old(written) + produced && |produced| <= avail
        decreases nblock + 2 - nblockUsed
      {
        ghost var fetched := nblockUsed;
        while true
          invariant Valid() && written == old(written) + produced && |produced| <= avail
          invariant nblockUsed == fetched
          decreases stateOutLen
        {
          if |produced| == avail {
            return false, produced;
          }
          if stateOutLen == 0 {
            break;
          }
          var c := Emit();
          produced := produced + [c];
        }
        if nblockUsed == nblock + 1 {
          return false, produced;
        }
        if nblockUsed > nblock + 1 {
          ProgressDone(s, nblock, written, nblockUsed, stateOutCh);
          return true, produced;
        }
        ProgressRun(s, nblock, written, nblockUsed, stateOutCh);
        corrupt := StartRun();
      }
    }

    /** Write as much as fits into `avail` bytes. */
    method UnRle(avail: nat) returns (corrupt: bool, produced: seq<byte>)
      requires Valid()
      modifies this`tPos, this`nblockUsed, this`rNToGo, this`rTPos, this`k0, this`stateOutLen, this`stateOutCh,
        this`calculatedBlockCRC, this`written
      ensures Valid() && written == old(written) + produced && |produced| <= avail
      ensures !corrupt ==> |produced| == avail || Finished()
      ensures corrupt ==> Unrle(s, nblock, 0) == Unpacked(written, true)
      ensures !corrupt && Finished() ==> Unrle(s, nblock, 0) == Unpacked(written, false)
    {
      if small || blockRandomised {
        corrupt, produced := UnRleSmall(avail);
      } else {
        corrupt, produced := UnRleFast(avail);
      }
      if Finished() {
        ProgressDone(s, nblock, written, nblockUsed, stateOutCh);
      }
    }

    /**
     * The same, FAST. The source's jump to the last byte of a run is written as one more
     * round with one byte owed.
     */
    method UnRleFast(avail: nat) returns (corrupt: bool, produced: seq<byte>)
      requires Valid() && !small && !blockRandomised
      modifies this`tPos, this`nblockUsed, this`rNToGo, this`rTPos, this`k0, this`stateOutLen, this`stateOutCh,
        this`calculatedBlockCRC, this`written
      ensures Valid() && written == old(written) + produced && |produced| <= avail
      ensures !corrupt ==> |produced| == avail || Finished()
      ensures corrupt ==> Unrle(s, nblock, 0) == Unpacked(written, true)
    {
      hide AtPlace, Masked, Progress, Fold;
      produced := [];
      while true
        invariant Valid() && written == old(written) + produced && |produced| <= avail
        decreases nblock + 2 - nblockUsed
      {
        ghost var fetched := nblockUsed;
        while stateOutLen > 0
          invariant Valid() && written == old(written) + produced && |produced| <= avail
          invariant nblockUsed == fetched
          decreases stateOutLen
        {
          if |produced| == avail {
            return false, produced;
          }
          var c := Emit();
          produced := produced + [c];
        }
        if nblockUsed > nblock + 1 {
          ProgressDone(s, nblock, written, nblockUsed, stateOutCh);
          return true, produced;
        }
        if nblockUsed == nblock + 1 {
          return false, produced;
        }
        ProgressRun(s, nblock, written, nblockUsed, stateOutCh);
        corrupt := StartRun();
      }
    }
  }
}
