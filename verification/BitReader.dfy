/**
 * The decoder's bit buffer: a 32-bit word that bytes enter from the right. Bits already
 * taken stay above the live ones until they are shifted out.
 */
module BitReader {
  import opened Prelude
  import opened Bits
  import opened BitWriter

  /** The low |live| bits of the buffer are the live ones. */
  ghost predicate Holds(bsBuff: nat, live: bits, high: nat) {
    bsBuff == Shl(high, |live|) + Val(live)
  }

  /** A byte shifts in, and what overflows the word was not live. */
  lemma {:induction false} ShiftIn(bsBuff: nat, live: bits, high: nat, c: byte) returns (high': nat)
    requires Holds(bsBuff, live, high) && |live| <= 24
    ensures Holds(Or(bsBuff * 0x100 % 0x1_0000_0000, c), live + Enc(8, c), high')
    ensures Or(bsBuff * 0x100 % 0x1_0000_0000, c) < 0x1_0000_0000
  {
    hide Shl, Pow2, Val, Enc, Or;
    var n, q := |live|, bsBuff / 0x100_0000;
    ShlByConstants(q);
    EncVal(live);
    ShlShl(q, 24 - n, n);
    var y := Shl(q, 24 - n);
    ShlMonotone(high + 1, y, n);
    ShlAdd(high, 1, n);
    ShlOne(n);
    assert y <= high;
    high' := high - y;
    ShlAdd(high', y, n);
    var rest := bsBuff % 0x100_0000;
    assert rest == Shl(high', n) + Val(live);
    assert bsBuff * 0x100 % 0x1_0000_0000 == 0x100 * rest;
    OrByte(rest, c);
    ShlByConstants(0);
    ValEnc(8, c);
    ValConcat(live, Enc(8, c));
    ShlEight(Val(live));
    ShlEight(Shl(high', n));
    ShlShl(high', n, 8);
  }

  /** The first n live bits, by shift and mask. */
  lemma {:induction false} TakeFrom(bsBuff: nat, live: bits, high: nat, n: nat) returns (high': nat)
    requires Holds(bsBuff, live, high) && n <= |live|
    ensures Low(Shr(bsBuff, |live| - n), n) == Val(live[..n])
    ensures Holds(bsBuff, live[n..], high')
  {
    hide Shl, Pow2, Val, Low, Shr;
    var a, b, k := live[..n], live[n..], |live| - n;
    assert live == a + b;
    ValConcat(a, b);
    EncVal(a);
    EncVal(b);
    ShlShl(high, n, k);
    ShlAdd(Shl(high, n), Val(a), k);
    ShrOf(Shl(high, n) + Val(a), Val(b), k);
    LowOf(high, Val(a), n);
    high' := Shl(high, n) + Val(a);
  }

  class Reader {
    var bsBuff: nat
    var bsLive: nat
    ghost var live: bits
    ghost var high: nat

    ghost predicate Valid()
      reads this
    {
      bsLive == |live| && bsBuff < 0x1_0000_0000 && Holds(bsBuff, live, high)
    }

    constructor ()
      ensures Valid() && live == []
    {
      bsBuff, bsLive, live, high := 0, 0, [], 0;
    }

    method Load(c: byte)
      requires Valid() && bsLive <= 24
      modifies this
      ensures Valid() && live == old(live) + Enc(8, c)
    {
      hide Holds, Or, Enc;
      ghost var h := ShiftIn(bsBuff, live, high, c);
      bsBuff := Or(bsBuff * 0x100 % 0x1_0000_0000, c);
      bsLive := bsLive + 8;
      live, high := live + Enc(8, c), h;
    }

    method Take(n: nat) returns (v: nat)
      requires Valid() && n <= bsLive
      modifies this
      ensures Valid() && v == Val(old(live)[..n]) && live == old(live)[n..]
      ensures v < Pow2(n)
    {
      hide Holds, Low, Shr;
      ghost var h := TakeFrom(bsBuff, live, high, n);
      EncVal(live[..n]);
      v := Low(Shr(bsBuff, bsLive - n), n);
      bsLive := bsLive - n;
      live, high := live[n..], h;
    }
  }
}
