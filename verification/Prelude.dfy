/** Notions shared by every stage of the codec. */
module Prelude {

  /** The source's UChar. */
  type byte = x: int | 0 <= x < 256

  datatype Option<+T> = None | Some(value: T)

  function Pow2(n: nat): (p: nat)
    ensures p >= 1
  {
    if n == 0 then 1 else 2 * Pow2(n - 1)
  }

  /** v << k, without a width. */
  function Shl(v: nat, k: nat): nat {
    if k == 0 then v else 2 * Shl(v, k - 1)
  }

  lemma {:induction false} ShlOne(k: nat)
    ensures Shl(1, k) == Pow2(k)
  {
    if k > 0 {
      ShlOne(k - 1);
    }
  }

  lemma {:induction false} ShlAdd(u: nat, v: nat, k: nat)
    ensures Shl(u + v, k) == Shl(u, k) + Shl(v, k)
  {
    if k > 0 {
      ShlAdd(u, v, k - 1);
    }
  }

  lemma {:induction false} ShlShl(v: nat, j: nat, k: nat)
    ensures Shl(Shl(v, j), k) == Shl(v, j + k)
  {
    if k > 0 {
      ShlShl(v, j, k - 1);
    }
  }

  lemma {:induction false} ShlZero(k: nat)
    ensures Shl(0, k) == 0
  {
    if k > 0 {
      ShlZero(k - 1);
    }
  }

  lemma {:induction false} ShlTwice(v: nat, k: nat)
    ensures Shl(2 * v, k) == Shl(v, k + 1)
  {
    if k > 0 {
      ShlTwice(v, k - 1);
    }
  }

  /** Shifting keeps the order, and keeps distinct values a whole 2^k apart. */
  lemma {:induction false} ShlMonotone(u: nat, v: nat, k: nat)
    ensures u <= v ==> Shl(u, k) <= Shl(v, k)
    ensures u < v ==> Shl(u, k) + Pow2(k) <= Shl(v, k)
  {
    if k > 0 {
      ShlMonotone(u, v, k - 1);
    }
  }

  lemma {:induction false} Pow2Monotone(m: nat, n: nat)
    requires m <= n
    ensures Pow2(m) <= Pow2(n)
  {
    if m < n {
      Pow2Monotone(m, n - 1);
    }
  }

  lemma {:induction false} Pow2Twenty()
    ensures Pow2(20) == 0x10_0000
  {
    assert Pow2(5) == 32 && Pow2(10) == 0x400 && Pow2(15) == 0x8000;
  }

  /** x copies of c. */
  function Repeat<T>(c: T, x: nat): (s: seq<T>)
    ensures |s| == x && forall i :: 0 <= i < x ==> s[i] == c
  {
    if x == 0 then [] else Repeat(c, x - 1) + [c]
  }

  function Flatten<T>(ss: seq<seq<T>>): seq<T> {
    if ss == [] then [] else Flatten(ss[..|ss| - 1]) + ss[|ss| - 1]
  }

  lemma {:induction false} FlattenConcat<T>(a: seq<seq<T>>, b: seq<seq<T>>)
    ensures Flatten(a + b) == Flatten(a) + Flatten(b)
    decreases |b|
  {
    if b == [] {
      assert a + b == a;
    } else {
      var b' := b[..|b| - 1];
      FlattenConcat(a, b');
      assert (a + b)[..|a + b| - 1] == a + b';
      assert Flatten(a + b) == Flatten(a) + Flatten(b') + b[|b| - 1];
    }
  }
}
