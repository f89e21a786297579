/** Bit strings, most significant bit first: what both sides of the codec agree on. */
module Bits {
  import opened Prelude

  type bits = seq<bool>

  /** The n low bits of v. */
  function Enc(n: nat, v: nat): (b: bits)
    ensures |b| == n
  {
    if n == 0 then [] else Enc(n - 1, v / 2) + [v % 2 == 1]
  }

  function Bit(b: bool): nat { if b then 1 else 0 }

  function Val(b: bits): nat {
    if b == [] then 0 else 2 * Val(b[..|b| - 1]) + Bit(b[|b| - 1])
  }

  lemma {:induction false} ValEnc(n: nat, v: nat)
    requires v < Pow2(n)
    ensures Val(Enc(n, v)) == v
  {
    if n > 0 {
      ValEnc(n - 1, v / 2);
      assert Enc(n, v)[..n - 1] == Enc(n - 1, v / 2);
    }
  }

  lemma {:induction false} EncVal(b: bits)
    ensures Val(b) < Pow2(|b|) && Enc(|b|, Val(b)) == b
  {
    if b != [] {
      EncVal(b[..|b| - 1]);
    }
  }

  lemma {:induction false} ValConcat(a: bits, b: bits)
    ensures Val(a + b) == Shl(Val(a), |b|) + Val(b)
    decreases |b|
  {
    if b == [] {
      assert a + b == a;
    } else {
      var b' := b[..|b| - 1];
      ValSnoc(a + b', b[|b| - 1]);
      assert a + b == a + b' + [b[|b| - 1]];
      ValConcat(a, b');
    }
  }

  lemma {:induction false} ValSnoc(b: bits, x: bool)
    ensures Val(b + [x]) == 2 * Val(b) + Bit(x)
  {
    assert (b + [x])[..|b|] == b;
  }

  lemma {:induction false} ValOfPair(m: nat, n: nat, hi: nat, lo: nat)
    requires hi < Pow2(m) && lo < Pow2(n)
    ensures Val(Enc(m, hi) + Enc(n, lo)) == Shl(hi, n) + lo
  {
    ValEnc(m, hi);
    ValEnc(n, lo);
    ValConcat(Enc(m, hi), Enc(n, lo));
  }

  lemma {:induction false} EncUnique(n: nat, v: nat, b: bits)
    requires |b| == n && Val(b) == v
    ensures Enc(n, v) == b && v < Pow2(n)
  {
    EncVal(b);
  }

  lemma {:induction false} EncJoin(m: nat, n: nat, hi: nat, lo: nat)
    requires hi < Pow2(m) && lo < Pow2(n)
    ensures Enc(m + n, Shl(hi, n) + lo) == Enc(m, hi) + Enc(n, lo)
    ensures Shl(hi, n) + lo < Pow2(m + n)
  {
    ValOfPair(m, n, hi, lo);
    EncUnique(m + n, Shl(hi, n) + lo, Enc(m, hi) + Enc(n, lo));
  }

  /** The first n bits of a string are its value's quotient by a power of two. */
  lemma {:induction false} ValPrefix(b: bits, n: nat)
    requires n <= |b|
    ensures var v := Val(b[..n]);
            Shl(v, |b| - n) <= Val(b) < Shl(v, |b| - n) + Pow2(|b| - n)
  {
    EncVal(b[n..]);
    ValConcat(b[..n], b[n..]);
    assert b == b[..n] + b[n..];
  }

  /** x >> k */
  function Shr(x: nat, k: nat): nat {
    if k == 0 then x else Shr(x / 2, k - 1)
  }

  lemma {:induction false} EncShr(n: nat, x: nat, k: nat)
    ensures Enc(n + k, x)[..n] == Enc(n, Shr(x, k))
  {
    if k > 0 {
      EncShr(n, x / 2, k - 1);
      assert Enc(n + k, x)[..n] == Enc(n + k - 1, x / 2)[..n];
    }
  }

  lemma {:induction false} EncSuffix(m: nat, n: nat, x: nat)
    ensures Enc(m + n, x)[m..] == Enc(n, x)
  {
    if n > 0 {
      EncSuffix(m, n - 1, x / 2);
      assert Enc(m + n, x)[m..] == Enc(m + n - 1, x / 2)[m..] + [x % 2 == 1];
    }
  }

  /** The bits of a byte string. */
  function OfBytes(s: seq<byte>): (b: bits)
    ensures |b| == 8 * |s|
  {
    if s == [] then [] else OfBytes(s[..|s| - 1]) + Enc(8, s[|s| - 1])
  }

  lemma {:induction false} OfBytesSnoc(s: seq<byte>, c: byte)
    ensures OfBytes(s + [c]) == OfBytes(s) + Enc(8, c)
  {
    assert (s + [c])[..|s|] == s;
  }

  lemma {:induction false} OfNothing()
    ensures OfBytes([]) == []
  {
  }

  lemma {:induction false} OfBytesConcat(s: seq<byte>, t: seq<byte>)
    ensures OfBytes(s + t) == OfBytes(s) + OfBytes(t)
    decreases |t|
  {
    hide OfBytes, Enc;
    if t == [] {
      assert s + t == s;
      OfNothing();
    } else {
      var t', c := t[..|t| - 1], t[|t| - 1];
      OfBytesConcat(s, t');
      OfBytesSnoc(s + t', c);
      OfBytesSnoc(t', c);
      assert s + t == s + t' + [c] && t == t' + [c];
    }
  }

  /** Bitwise OR of two non-negative words. */
  function Or(a: nat, b: nat): nat {
    if a == 0 && b == 0 then 0
    else 2 * Or(a / 2, b / 2) + (if a % 2 == 1 || b % 2 == 1 then 1 else 0)
  }

  lemma {:induction false} OrZero(a: nat)
    ensures Or(0, a) == a && Or(a, 0) == a
  {
    if a > 0 {
      OrZero(a / 2);
    }
  }

  /** OR of words that share no bit position is their sum. */
  lemma {:induction false} OrDisjoint(a: nat, b: nat, k: nat)
    requires b < Pow2(k)
    ensures Or(Shl(a, k), b) == Shl(a, k) + b
  {
    if k == 0 {
      OrZero(a);
    } else {
      OrDisjoint(a, b / 2, k - 1);
    }
  }

  lemma {:induction false} OrByte(i: nat, c: byte)
    ensures Or(256 * i, c) == 256 * i + c
  {
    assert Pow2(4) == 16 && Pow2(8) == 256;
    assert Shl(i, 1) == 2 * i;
    assert Shl(i, 3) == 8 * i;
    assert Shl(i, 5) == 32 * i;
    assert Shl(i, 7) == 128 * i;
    OrDisjoint(i, c, 8);
  }

  /** x & ((1 << n) - 1) */
  function Low(x: nat, n: nat): nat {
    if n == 0 then 0 else 2 * Low(x / 2, n - 1) + x % 2
  }

  lemma {:induction false} LowOf(h: nat, z: nat, n: nat)
    requires z < Pow2(n)
    ensures Low(Shl(h, n) + z, n) == z
  {
    if n > 0 {
      LowOf(h, z / 2, n - 1);
      assert (Shl(h, n) + z) / 2 == Shl(h, n - 1) + z / 2;
    }
  }

  lemma {:induction false} ShrOf(y: nat, z: nat, k: nat)
    requires z < Pow2(k)
    ensures Shr(Shl(y, k) + z, k) == y
  {
    if k > 0 {
      ShrOf(y, z / 2, k - 1);
      assert (Shl(y, k) + z) / 2 == Shl(y, k - 1) + z / 2;
    }
  }
}
