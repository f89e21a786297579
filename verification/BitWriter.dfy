/** The encoder's bit buffer: a 32-bit word filled from the top, emptied byte by byte. */
module BitWriter {
  import opened Prelude
  import opened Bits

  lemma {:induction false} ShlByConstants(x: nat)
    ensures Shl(x, 8) == 0x100 * x && Shl(x, 24) == 0x100_0000 * x && Shl(x, 32) == 0x1_0000_0000 * x
    ensures Pow2(8) == 0x100 && Pow2(24) == 0x100_0000 && Pow2(32) == 0x1_0000_0000
  {
    ShlEight(x);
    ShlEight(0x100 * x);
    ShlEight(0x1_0000 * x);
    ShlEight(0x100_0000 * x);
    ShlShl(x, 8, 8);
    ShlShl(x, 16, 8);
    ShlShl(x, 24, 8);
    assert Pow2(4) == 16 && Pow2(8) == 0x100 && Pow2(12) == 0x1000 && Pow2(16) == 0x1_0000;
    assert Pow2(20) == 0x10_0000 && Pow2(24) == 0x100_0000 && Pow2(28) == 0x1000_0000;
  }

  lemma {:induction false} ShlEight(x: nat)
    ensures Shl(x, 8) == 0x100 * x
  {
    assert Shl(x, 1) == 2 * x;
    assert Shl(x, 3) == 8 * x;
    assert Shl(x, 5) == 32 * x;
    assert Shl(x, 7) == 128 * x;
  }

  /** The buffer holds these bits at its top and zeros below. */
  ghost predicate Buffers(bsBuff: nat, live: bits) {
    |live| <= 32 && bsBuff == Shl(Val(live), 32 - |live|)
  }

  lemma {:induction false} BufferFits(bsBuff: nat, live: bits)
    requires Buffers(bsBuff, live)
    ensures bsBuff < 0x1_0000_0000
  {
    EncVal(live);
    ShlMonotone(Val(live), Pow2(|live|), 32 - |live|);
    ShlOne(|live|);
    ShlShl(1, |live|, 32 - |live|);
    ShlOne(32);
    ShlByConstants(0);
  }

  /** The top byte goes out and the rest moves up. */
  lemma {:induction false} ShiftOut(bsBuff: nat, live: bits)
    requires Buffers(bsBuff, live) && |live| >= 8
    ensures bsBuff / 0x100_0000 == Val(live[..8]) && Enc(8, bsBuff / 0x100_0000) == live[..8]
    ensures bsBuff / 0x100_0000 < 256
    ensures Buffers(bsBuff * 0x100 % 0x1_0000_0000, live[8..])
  {
    hide Shl, Pow2, Val, Enc;
    var n, hi, lo := |live|, live[..8], live[8..];
    assert live == hi + lo;
    ValConcat(hi, lo);
    EncVal(hi);
    EncVal(lo);
    ShlByConstants(Val(hi));
    ShlAdd(Shl(Val(hi), n - 8), Val(lo), 32 - n);
    ShlShl(Val(hi), n - 8, 32 - n);
    var low := Shl(Val(lo), 32 - n);
    assert bsBuff == 0x100_0000 * Val(hi) + low;
    assert low < 0x100_0000 by {
      ShlMonotone(Val(lo), Pow2(n - 8), 32 - n);
      ShlOne(n - 8);
      ShlShl(1, n - 8, 32 - n);
      ShlOne(24);
    }
    ShlEight(low);
    ShlShl(Val(lo), 32 - n, 8);
  }

  /** A field of n bits goes in below the live ones. */
  lemma {:induction false} OrIn(bsBuff: nat, live: bits, n: nat, v: nat)
    requires Buffers(bsBuff, live) && |live| + n <= 32 && v < Pow2(n)
    ensures Buffers(Or(bsBuff, Shl(v, 32 - |live| - n)), live + Enc(n, v))
  {
    hide Shl, Pow2, Val, Enc, Or;
    var k := 32 - |live| - n;
    ValEnc(n, v);
    ValConcat(live, Enc(n, v));
    ShlAdd(Shl(Val(live), n), v, k);
    ShlShl(Val(live), n, k);
    ShlMonotone(v, Pow2(n), k);
    ShlOne(n);
    ShlShl(1, n, k);
    ShlOne(n + k);
    OrDisjoint(Val(live), Shl(v, k), n + k);
  }

  class Writer {
    var bsBuff: nat
    var bsLive: int
    var zbits: seq<byte>
    ghost var live: bits

    ghost predicate Valid()
      reads this
    {
      bsLive == |live| && Buffers(bsBuff, live)
    }

    /** Everything written so far. */
    ghost function Written(): bits
      reads this
    {
      OfBytes(zbits) + live
    }

    lemma {:induction false} Lengths()
      requires Valid()
      ensures |Written()| == 8 * |zbits| + |live| && |live| <= 32
    {
    }

    constructor ()
      ensures Valid() && Written() == [] && zbits == []
    {
      bsBuff, bsLive, zbits, live := 0, 0, [], [];
      new;
      ShlZero(32);
    }

    /** The bytes have been taken away; bits not yet in a byte stay. */
    method Rewind()
      requires Valid()
      modifies this`zbits
      ensures Valid() && zbits == [] && Written() == live
    {
      zbits := [];
      assert OfBytes([]) + live == live;
    }

    method PutByte()
      requires Valid() && bsLive >= 8
      modifies this
      ensures Valid() && Written() == old(Written()) && bsLive == old(bsLive) - 8
      ensures zbits == old(zbits) + [old(bsBuff) / 0x100_0000]
    {
      ShiftOut(bsBuff, live);
      var c := bsBuff / 0x100_0000;
      OfBytesSnoc(zbits, c);
      assert OfBytes(zbits) + live == OfBytes(zbits) + live[..8] + live[8..];
      zbits := zbits + [c];
      bsBuff := bsBuff * 0x100 % 0x1_0000_0000;
      bsLive := bsLive - 8;
      live := live[8..];
    }

    /** bsW: append the n low bits of v. Up to 24 bits never overflow the word. */
    method Put(n: nat, v: nat)
      requires Valid() && n <= 24 && v < Pow2(n)
      modifies this
      ensures Valid() && Written() == old(Written()) + Enc(n, v)
      ensures bsLive < 32 && bsBuff < 0x1_0000_0000
    {
      hide Buffers, Or;
      while bsLive >= 8
        invariant Valid() && Written() == old(Written())
        decreases bsLive
      {
        PutByte();
      }
      OrIn(bsBuff, live, n, v);
      assert OfBytes(zbits) + live + Enc(n, v) == OfBytes(zbits) + (live + Enc(n, v));
      bsBuff := Or(bsBuff, Shl(v, 32 - bsLive - n));
      bsLive := bsLive + n;
      live := live + Enc(n, v);
      BufferFits(bsBuff, live);
    }

    method PutWord(u: nat)
      requires Valid() && u < 0x1_0000_0000
      modifies this
      ensures Valid() && Written() == old(Written()) + Enc(32, u)
    {
      hide Buffers, Enc, Pow2;
      ShlByConstants(0);
      Put(8, u / 0x100_0000 % 0x100);
      Put(8, u / 0x1_0000 % 0x100);
      Put(8, u / 0x100 % 0x100);
      Put(8, u % 0x100);
      FourBytes(u);
    }

    /** bsFinishWrite: zeros fill the last byte up. */
    method Finish()
      requires Valid()
      modifies this
      ensures 0 <= 8 * |zbits| - old(|Written()|) < 8
      ensures OfBytes(zbits) == old(Written()) + Enc(8 * |zbits| - old(|Written()|), 0)
    {
      hide Buffers, Enc, OfBytes, Shl;
      while bsLive >= 8
        invariant Valid() && Written() == old(Written())
        decreases bsLive
      {
        PutByte();
      }
      if bsLive > 0 {
        ghost var pad := 8 - |live|;
        PadLive(bsBuff, live, pad);
        assert OfBytes(zbits) + live + Enc(pad, 0) == OfBytes(zbits) + (live + Enc(pad, 0));
        OfBytesSnoc(zbits, bsBuff / 0x100_0000);
        zbits := zbits + [bsBuff / 0x100_0000];
        bsBuff := bsBuff * 0x100 % 0x1_0000_0000;
        bsLive := bsLive - 8;
      } else {
        assert OfBytes(zbits) + [] + Enc(0, 0) == OfBytes(zbits);
      }
    }
  }

  lemma {:induction false} Digits(u: nat)
    requires u < 0x1_0000_0000
    ensures u == 0x100_0000 * (u / 0x100_0000 % 0x100) + 0x1_0000 * (u / 0x1_0000 % 0x100) + 0x100 * (u / 0x100 % 0x100)
      + u % 0x100
  {
    var q1 := u / 0x100;
    var q2 := q1 / 0x100;
    var q3 := q2 / 0x100;
    assert u / 0x1_0000 == q2 && u / 0x100_0000 == q3;
  }

  lemma {:induction false} FourBytes(u: nat)
    requires u < 0x1_0000_0000
    ensures Enc(8, u / 0x100_0000 % 0x100) + Enc(8, u / 0x1_0000 % 0x100) + Enc(8, u / 0x100 % 0x100)
      + Enc(8, u % 0x100) == Enc(32, u)
  {
    hide Enc, Shl, Pow2;
    Digits(u);
    var a, b, c, d := u / 0x100_0000 % 0x100, u / 0x1_0000 % 0x100, u / 0x100 % 0x100, u % 0x100;
    ShlByConstants(0);
    ShlByConstants(a);
    ShlByConstants(0x100 * a + b);
    ShlByConstants(0x1_0000 * a + 0x100 * b + c);
    EncJoin(8, 8, a, b);
    EncJoin(16, 8, 0x100 * a + b, c);
    EncJoin(24, 8, 0x1_0000 * a + 0x100 * b + c, d);
  }

  lemma {:induction false} PadLive(bsBuff: nat, live: bits, pad: nat)
    requires Buffers(bsBuff, live) && |live| + pad == 8
    ensures bsBuff / 0x100_0000 < 256 && Enc(8, bsBuff / 0x100_0000) == live + Enc(pad, 0)
  {
    var all := live + Enc(pad, 0);
    ValConcat(live, Enc(pad, 0));
    assert Pow2(pad) >= 1;
    ValEnc(pad, 0);
    ShlShl(Val(live), pad, 24);
    ShiftOut(bsBuff, all);
    assert all[..8] == all;
  }
}
