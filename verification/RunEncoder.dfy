/**
 * The encoder's front end: bytes gathered into runs, runs into a block, with the block's
 * checksum and the byte values in use kept up on the way. A run may be left pending
 * between calls, and across a block's end.
 */
module RunEncoder {
  import opened Prelude
  import opened Crc
  import opened RunLength
  import opened InputRuns
  import opened MtfEncoder

  const NO_CHAR := 256

  /** CRC of a run, a byte at a time. */
  method CrcRun(crc: word, ch: byte, len: nat) returns (r: word)
    ensures r == Fold(crc, Repeat(ch, len))
  {
    hide Update;
    r := crc;
    for i := 0 to len
      invariant r == Fold(crc, Repeat(ch, i))
    {
      FoldSnoc(crc, Repeat(ch, i), ch);
      r := Update(r, ch);
    }
  }

  /** The values in use after one more pair: its byte, and the count of a long run. */
  lemma {:induction false} UsedMore(block: seq<byte>, p: Pair)
    requires ValidPair(p)
    ensures var v := Occurring(block)[p.ch := true];
            Occurring(block + EncodePair(p)) == if p.len < 4 then v else v[p.len - 4 := true]
  {
    var e := EncodePair(p);
    var v := Occurring(block)[p.ch := true];
    var w := if p.len < 4 then v else v[p.len - 4 := true];
    assert e[0] == p.ch && (p.len >= 4 ==> e[4] == p.len - 4);
    assert forall x :: x in e <==> x == p.ch || (p.len >= 4 && x == p.len - 4);
    forall k | 0 <= k < 256
      ensures w[k] == Occurring(block + e)[k]
    {
      assert k in block + e <==> k in block || k in e;
    }
  }

  class Front {
    const level: nat
    const block: array<byte>
    var nblock: nat
    var inUse: InUse
    var blockCRC: word
    var stateInCh: nat
    var stateInLen: nat
    ghost var pairs: seq<Pair>

    const nblockMAX := 100_000 * level - 19

    /** The block holds the pairs so far. */
    ghost predicate Holding()
      reads this`nblock, this`inUse, this`blockCRC, this`pairs, block
    {
      && 1 <= level <= 9 && block.Length == 100_000 * level
      && nblock <= block.Length - 10 && Separate(pairs) && block[..nblock] == Encoded(pairs)
      && inUse == Occurring(Encoded(pairs)) && blockCRC == Fold(INITIAL, Expand(pairs))
    }

    /** The pending run, if any, can follow the last pair. */
    ghost predicate PendingOk()
      reads this`stateInCh, this`stateInLen, this`pairs
    {
      if stateInCh == NO_CHAR then stateInLen == 0 && pairs == []
      else stateInCh < 256 && 1 <= stateInLen <= 255
           && (pairs == [] || Apart(pairs[|pairs| - 1], Pair(stateInCh, stateInLen)))
    }

    ghost predicate Valid()
      reads this`nblock, this`inUse, this`blockCRC, this`pairs, this`stateInCh, this`stateInLen, block
    {
      Holding() && PendingOk()
    }

    /** The bytes of the pending run. */
    ghost function Pending(): seq<byte>
      reads this`stateInCh, this`stateInLen
    {
      if stateInCh < 256 then Repeat(stateInCh, stateInLen) else []
    }

    /** Everything taken in for this block. */
    ghost function Taken(): seq<byte>
      reads this`stateInCh, this`stateInLen, this`pairs
    {
      Expand(pairs) + Pending()
    }

    /** The pending run, if any. */
    ghost function Rest(): seq<Pair>
      reads this`stateInCh, this`stateInLen
    {
      if stateInCh < 256 then [Pair(stateInCh, stateInLen)] else []
    }

    /** The runs of this block so far, with the pending one. */
    ghost function Runs(): seq<Pair>
      reads this`stateInCh, this`stateInLen, this`pairs
    {
      pairs + Rest()
    }

    constructor (level: nat)
      requires 1 <= level <= 9
      ensures Valid() && fresh(block) && this.level == level && pairs == [] && stateInCh == NO_CHAR && nblock == 0
    {
      this.level := level;
      block := new byte[100_000 * level];
      nblock, blockCRC, stateInCh, stateInLen := 0, INITIAL, NO_CHAR, 0;
      inUse := seq(256, _ => false);
      pairs := [];
    }

    /** A new block; the pending run stays. */
    method Clear()
      requires 1 <= level <= 9 && block.Length == 100_000 * level
      requires if stateInCh == NO_CHAR then stateInLen == 0 else stateInCh < 256 && 1 <= stateInLen <= 255
      modifies this`nblock, this`inUse, this`blockCRC, this`pairs
      ensures Valid() && pairs == [] && nblock == 0
    {
      nblock, blockCRC, pairs := 0, INITIAL, [];
      inUse := seq(256, _ => false);
    }

    /** isempty_RL */
    predicate IsEmpty()
      reads this`stateInCh, this`stateInLen
    {
      !(stateInCh < 256 && stateInLen > 0)
    }

    method PutByte(c: byte)
      requires nblock < block.Length
      modifies this`nblock, block
      ensures nblock == old(nblock) + 1 && block[..nblock] == old(block[..nblock]) + [c]
    {
      block[nblock] := c;
      nblock := nblock + 1;
    }

    /** The bytes of one pair. */
    method PutPair(ch: byte, len: nat)
      requires ValidPair(Pair(ch, len)) && nblock + 5 <= block.Length
      modifies this`nblock, block
      ensures nblock == old(nblock) + |EncodePair(Pair(ch, len))|
      ensures block[..nblock] == old(block[..nblock]) + EncodePair(Pair(ch, len))
    {
      ghost var b := block[..nblock];
      var copies := if len < 4 then len else 4;
      assert b + Repeat(ch, 0) == b;
      for i := 0 to copies
        invariant nblock == old(nblock) + i && block[..nblock] == b + Repeat(ch, i)
      {
        PutByte(ch);
        assert b + Repeat(ch, i) + [ch] == b + Repeat(ch, i + 1);
      }
      if len >= 4 {
        PutByte(len - 4);
        assert b + Repeat(ch, 4) + [len - 4] == b + (Repeat(ch, 4) + [len - 4]);
      }
    }

    /** add_pair_to_block */
    method AddPair()
      requires Valid() && stateInCh < 256 && nblock + 15 <= block.Length
      modifies this`nblock, this`inUse, this`blockCRC, this`pairs, block
      ensures Holding() && pairs == old(pairs) + [Pair(stateInCh, stateInLen)] && nblock <= old(nblock) + 5
    {
      hide Fold, Encoded, Expand, EncodePair, Occurring, Separate;
      ghost var p := Pair(stateInCh, stateInLen);
      ValidOf(pairs);
      Snoc(pairs, p);
      SeparateMore(pairs, p);
      UsedMore(Encoded(pairs), p);
      PairShort(p);
      FoldConcat(INITIAL, Expand(pairs), Repeat(p.ch, p.len));
      blockCRC := CrcRun(blockCRC, stateInCh, stateInLen);
      inUse := inUse[stateInCh := true];
      if stateInLen >= 4 {
        inUse := inUse[stateInLen - 4 := true];
      }
      PutPair(stateInCh, stateInLen);
      pairs := pairs + [p];
    }

    /** flush_RL */
    method FlushRun()
      requires Valid() && nblock + 15 <= block.Length
      modifies this
      modifies block
      ensures Holding() && stateInCh == NO_CHAR && stateInLen == 0 && nblock <= old(nblock) + 5
      ensures Expand(pairs) == old(Taken()) && pairs == old(Runs())
    {
      hide Fold, Encoded, EncodePair, Occurring, Separate, Expand;
      if stateInCh < 256 {
        ValidOf(pairs);
        Snoc(pairs, Pair(stateInCh, stateInLen));
        AddPair();
      }
      stateInCh, stateInLen := NO_CHAR, 0;
    }

    /** ADD_CHAR_TO_BLOCK */
    method AddChar(c: byte)
      requires Valid() && nblock < nblockMAX
      modifies this, block
      ensures Valid() && stateInCh < 256 && nblock <= old(nblock) + 5
      ensures Taken() == old(Taken()) + [c] && ValidPairs(old(Runs())) && Runs() == Grown(old(Runs()), c)
    {
      hide Fold, Encoded, EncodePair, Occurring, Separate, Expand, Grown;
      ValidOf(pairs);
      if c != stateInCh && stateInLen == 1 {
        NextNew(c);
        AddSingle();
        stateInCh := c;
        OneByte(c);
      } else if c != stateInCh || stateInLen == 255 {
        NextNew(c);
        CloseRun();
        stateInCh, stateInLen := c, 1;
        OneByte(c);
      } else {
        LongerRun(Expand(pairs), c, stateInLen);
        GrownLonger(pairs, c, stateInLen);
        stateInLen := stateInLen + 1;
      }
    }

    /** A byte that the pending run cannot take begins a run. */
    lemma {:induction false} NextNew(c: byte)
      requires Valid() && (c != stateInCh || stateInLen == 255)
      ensures ValidPairs(Runs()) && Grown(Runs(), c) == Runs() + [Pair(c, 1)]
    {
      hide Grown, Encoded, Occurring, Fold, Separate, Expand;
      ValidOf(pairs);
      if stateInCh < 256 {
        GrownNew(pairs, Pair(stateInCh, stateInLen), c);
      } else {
        assert Runs() == [];
        FirstGrown(c);
      }
    }

    /** The pending run, if any, goes into the block. */
    method CloseRun()
      requires Valid() && nblock < nblockMAX
      modifies this`nblock, this`inUse, this`blockCRC, this`pairs, block
      ensures Holding() && Expand(pairs) == old(Taken()) && nblock <= old(nblock) + 5
      ensures pairs == if stateInCh < 256 then old(pairs) + [Pair(stateInCh, stateInLen)] else old(pairs)
    {
      hide Fold, Encoded, EncodePair, Occurring, Separate, Expand;
      if stateInCh < 256 {
        ValidOf(pairs);
        Snoc(pairs, Pair(stateInCh, stateInLen));
        AddPair();
      } else {
        assert Expand(pairs) + [] == Expand(pairs);
      }
    }

    /** The fast track: a run of one. */
    method AddSingle()
      requires Valid() && stateInCh < 256 && stateInLen == 1 && nblock + 15 <= block.Length
      modifies this`nblock, this`inUse, this`blockCRC, this`pairs, block
      ensures Holding() && pairs == old(pairs) + [Pair(stateInCh, 1)] && Expand(pairs) == old(Taken())
        && nblock <= old(nblock) + 5
    {
      hide Fold, Encoded, Expand, Occurring, Separate;
      ghost var p := Pair(stateInCh, 1);
      ValidOf(pairs);
      Snoc(pairs, p);
      SeparateMore(pairs, p);
      OneByte(stateInCh);
      UsedMore(Encoded(pairs), p);
      FoldSnoc(INITIAL, Expand(pairs), stateInCh);
      blockCRC := Update(blockCRC, stateInCh);
      inUse := inUse[stateInCh := true];
      PutByte(stateInCh);
      pairs := pairs + [p];
    }
  }

  lemma {:induction false} PairShort(p: Pair)
    requires ValidPair(p)
    ensures |EncodePair(p)| <= 5
  {
  }

  lemma {:induction false} LongerRun(e: seq<byte>, c: byte, len: nat)
    ensures e + Repeat(c, len + 1) == e + Repeat(c, len) + [c]
  {
  }

  lemma {:induction false} OneByte(c: byte)
    ensures Repeat(c, 1) == [c]
  {
  }
}
