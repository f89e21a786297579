/**
 * Cyclic rotations of a block, compared by their first h bytes. A prefix is represented
 * by its value in base 256, so prefixes of equal length compare as numbers.
 */
module Rotations {
  import opened Prelude

  type Block = seq<byte>

  function Next(n: nat, i: nat): (j: nat)
    requires i < n
    ensures j < n
  {
    if i + 1 == n then 0 else i + 1
  }

  function Prev(n: nat, i: nat): (j: nat)
    requires i < n
    ensures j < n && Next(n, j) == i
  {
    if i == 0 then n - 1 else i - 1
  }

  /** h places on from i, cyclically. */
  function Adv(n: nat, i: nat, h: nat): (j: nat)
    requires i < n
    ensures j < n
  {
    if h == 0 then i else Next(n, Adv(n, i, h - 1))
  }

  lemma {:induction false} AdvAdd(n: nat, i: nat, h: nat, g: nat)
    requires i < n
    ensures Adv(n, i, h + g) == Adv(n, Adv(n, i, h), g)
  {
    if g > 0 {
      AdvAdd(n, i, h, g - 1);
    }
  }

  lemma {:induction false} AdvSmall(n: nat, i: nat, h: nat)
    requires i < n && h <= n
    ensures Adv(n, i, h) == if i + h < n then i + h else i + h - n
  {
    if h > 0 {
      AdvSmall(n, i, h - 1);
    }
  }

  /** The first h bytes of the rotation that starts at i, as a base-256 number. */
  function Key(b: Block, i: nat, h: nat): nat
    requires i < |b|
  {
    if h == 0 then 0 else 256 * Key(b, i, h - 1) + b[Adv(|b|, i, h - 1)]
  }

  /** v shifted up by k bytes. */
  function Up(v: nat, k: nat): nat {
    if k == 0 then v else 256 * Up(v, k - 1)
  }

  lemma {:induction false} UpMonotone(u: nat, v: nat, k: nat)
    ensures u < v ==> Up(u, k) + Up(1, k) <= Up(v, k)
  {
    if k > 0 {
      UpMonotone(u, v, k - 1);
    }
  }

  lemma {:induction false} KeySplit(b: Block, i: nat, h: nat, g: nat)
    requires i < |b|
    ensures Key(b, i, h + g) == Up(Key(b, i, h), g) + Key(b, Adv(|b|, i, h), g)
    ensures Key(b, Adv(|b|, i, h), g) < Up(1, g)
  {
    if g > 0 {
      KeySplit(b, i, h, g - 1);
      AdvAdd(|b|, i, h, g - 1);
    }
  }

  /** A longer prefix compares first by its head, then by its tail. */
  lemma {:induction false} KeyCompare(b: Block, i: nat, j: nat, h: nat, g: nat)
    requires i < |b| && j < |b|
    ensures Key(b, i, h + g) < Key(b, j, h + g) <==>
              Key(b, i, h) < Key(b, j, h)
              || (Key(b, i, h) == Key(b, j, h) && Key(b, Adv(|b|, i, h), g) < Key(b, Adv(|b|, j, h), g))
    ensures Key(b, i, h + g) == Key(b, j, h + g) <==>
              Key(b, i, h) == Key(b, j, h) && Key(b, Adv(|b|, i, h), g) == Key(b, Adv(|b|, j, h), g)
  {
    KeySplit(b, i, h, g);
    KeySplit(b, j, h, g);
    UpMonotone(Key(b, i, h), Key(b, j, h), g);
    UpMonotone(Key(b, j, h), Key(b, i, h), g);
  }

  lemma {:induction false} KeyByte(b: Block, i: nat)
    requires i < |b|
    ensures Key(b, i, 1) == b[i]
  {
    assert Adv(|b|, i, 0) == i;
    assert Key(b, i, 0) == 0;
  }

  /** Rotations with equal prefixes agree byte by byte. */
  lemma {:induction false} KeyEqual(b: Block, i: nat, j: nat, h: nat, k: nat)
    requires i < |b| && j < |b| && k < h && Key(b, i, h) == Key(b, j, h)
    ensures b[Adv(|b|, i, k)] == b[Adv(|b|, j, k)]
  {
    KeyCompare(b, i, j, k, h - k);
    KeyCompare(b, Adv(|b|, i, k), Adv(|b|, j, k), 1, h - k - 1);
    KeyByte(b, Adv(|b|, i, k));
    KeyByte(b, Adv(|b|, j, k));
  }

  /** Equal rotations stay equal when both move on by one byte. */
  lemma {:induction false} RotateBoth(b: Block, i: nat, j: nat)
    requires i < |b| && j < |b| && Key(b, i, |b|) == Key(b, j, |b|)
    ensures Key(b, Next(|b|, i), |b|) == Key(b, Next(|b|, j), |b|)
  {
    var n := |b|;
    KeyCompare(b, i, j, 1, n - 1);
    assert Adv(n, i, 1) == Next(n, i) && Adv(n, j, 1) == Next(n, j) by {
      assert Adv(n, i, 0) == i && Adv(n, j, 0) == j;
    }
    FullTurn(n, i);
    FullTurn(n, j);
    KeyEqual(b, i, j, n, 0);
    assert Adv(n, i, 0) == i && Adv(n, j, 0) == j;
  }

  lemma {:induction false} FullTurn(n: nat, i: nat)
    requires i < n
    ensures Adv(n, Next(n, i), n - 1) == i
  {
    AdvSmall(n, Next(n, i), n - 1);
  }

  // ----- the textbook order

  /** The first h bytes of the rotation that starts at i. */
  function Prefix(b: Block, i: nat, h: nat): (s: seq<byte>)
    requires i < |b|
    ensures |s| == h
  {
    if h == 0 then [] else Prefix(b, i, h - 1) + [b[Adv(|b|, i, h - 1)]]
  }

  /** Lexicographic order of byte strings of one length. */
  ghost predicate LexLess(s: seq<byte>, t: seq<byte>) {
    |s| == |t| && exists k :: DiffersFirstAt(s, t, k)
  }

  predicate DiffersFirstAt(s: seq<byte>, t: seq<byte>, k: int) {
    0 <= k < |s| && k < |t| && s[..k] == t[..k] && s[k] < t[k]
  }

  /** Keys order rotations exactly as their bytes do. */
  lemma {:induction false} KeyIsLexicographic(b: Block, i: nat, j: nat, h: nat)
    requires i < |b| && j < |b|
    ensures Key(b, i, h) < Key(b, j, h) <==> LexLess(Prefix(b, i, h), Prefix(b, j, h))
    ensures Key(b, i, h) == Key(b, j, h) <==> Prefix(b, i, h) == Prefix(b, j, h)
  {
    if h > 0 {
      KeyIsLexicographic(b, i, j, h - 1);
      var s, t := Prefix(b, i, h - 1), Prefix(b, j, h - 1);
      var x, y := b[Adv(|b|, i, h - 1)], b[Adv(|b|, j, h - 1)];
      LexSnoc(s, t, x, y);
      assert s + [x] == t + [y] <==> s == t && x == y by {
        assert (s + [x])[..h - 1] == s && (t + [y])[..h - 1] == t;
        assert (s + [x])[h - 1] == x && (t + [y])[h - 1] == y;
      }
    } else {
      assert !LexLess([], []);
    }
  }

  lemma {:induction false} LexSnoc(s: seq<byte>, t: seq<byte>, x: byte, y: byte)
    requires |s| == |t|
    ensures LexLess(s + [x], t + [y]) <==> LexLess(s, t) || (s == t && x < y)
  {
    var u, v := s + [x], t + [y];
    if LexLess(u, v) {
      var k :| DiffersFirstAt(u, v, k);
      if k < |s| {
        assert s[..k] == u[..k] && t[..k] == v[..k];
        assert DiffersFirstAt(s, t, k);
      } else {
        assert u[..k] == s && v[..k] == t;
      }
    }
    if LexLess(s, t) {
      var k :| DiffersFirstAt(s, t, k);
      assert s[..k] == u[..k] && t[..k] == v[..k];
      assert DiffersFirstAt(u, v, k);
    }
    if s == t && x < y {
      assert u[..|s|] == s && v[..|s|] == t;
      assert DiffersFirstAt(u, v, |s|);
    }
  }
}
