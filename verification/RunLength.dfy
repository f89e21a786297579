/**
 * RLE1: runs of 4 to 255 equal bytes as four of them and a count. What the decoder
 * makes of any block, and what the encoder's pairs come back as.
 */
module RunLength {
  import opened Prelude

  // ----- the decoder's reading

  /** What is still to be written, and whether a data error follows it. */
  datatype Unpacked = Unpacked(out: seq<byte>, corrupt: bool)

  function Prepend(s: seq<byte>, u: Unpacked): Unpacked { Unpacked(s + u.out, u.corrupt) }

  /** How many equal bytes begin at i, up to four, within the first n. */
  function RunAt(s: seq<byte>, n: nat, i: nat): (r: nat)
    requires i < n <= |s|
    ensures 1 <= r <= 4 && i + r <= n
  {
    if i + 1 == n || s[i + 1] != s[i] then 1
    else if i + 2 == n || s[i + 2] != s[i] then 2
    else if i + 3 == n || s[i + 3] != s[i] then 3
    else 4
  }

  /** How long a run the count byte c makes of four equal bytes. */
  function RunOf(c: byte): (len: nat)
    ensures len >= 4
  {
    var extra: nat := c;
    extra + 4
  }

  /**
   * The n bytes of a block from i on, unpacked. What follows them in s is fetched only as
   * the count of a run of four that the block breaks off.
   */
  function Unrle(s: seq<byte>, n: nat, i: nat): Unpacked
    requires i <= n < |s|
    decreases n - i
  {
    if i == n then Unpacked([], false)
    else
      var r := RunAt(s, n, i);
      if r < 4 then Prepend(Repeat(s[i], r), Unrle(s, n, i + r))
      else if i + 4 == n then Unpacked(Repeat(s[i], RunOf(s[n])), true)
      else Prepend(Repeat(s[i], RunOf(s[i + 4])), Unrle(s, n, i + 5))
  }

  /** What a decoder that has fetched `used` bytes and owes `len` copies of ch has still to write. */
  function Remaining(s: seq<byte>, n: nat, used: nat, ch: byte, len: nat): Unpacked
    requires 1 <= used && n < |s|
  {
    Prepend(Repeat(ch, len), if used <= n + 1 then Unrle(s, n, used - 1) else Unpacked([], true))
  }

  lemma {:induction false} RepeatFront<T>(c: T, x: nat)
    requires x > 0
    ensures Repeat(c, x) == [c] + Repeat(c, x - 1)
  {
  }

  /** Writing one owed byte. */
  lemma {:induction false} EmitOne(s: seq<byte>, n: nat, used: nat, ch: byte, len: nat)
    requires 1 <= used && n < |s| && len > 0
    ensures Remaining(s, n, used, ch, len).out == [ch] + Remaining(s, n, used, ch, len - 1).out
    ensures Remaining(s, n, used, ch, len).corrupt == Remaining(s, n, used, ch, len - 1).corrupt
  {
    RepeatFront(ch, len);
  }

  /** Where the run at the next byte leads: how many copies to write, and how much has then been fetched. */
  datatype Stretch = Stretch(len: nat, used: nat)

  function NextRun(s: seq<byte>, n: nat, used: nat): Stretch
    requires 1 <= used <= n < |s|
  {
    var i := used - 1;
    var r := RunAt(s, n, i);
    if r < 4 then Stretch(r, used + r)
    else Stretch(RunOf(s[i + 4]), used + 5)
  }

  lemma {:induction false} RunTaken(s: seq<byte>, n: nat, used: nat)
    requires 1 <= used <= n < |s|
    ensures var r := NextRun(s, n, used);
            && Remaining(s, n, used, s[used - 1], 0) == Remaining(s, n, r.used, s[used - 1], r.len)
            && r.len > 0 && used < r.used <= n + 2
  {
    assert Repeat(s[used - 1], 0) == [];
    var u := Unrle(s, n, used - 1);
    assert [] + u.out == u.out;
    var r := NextRun(s, n, used);
    if r.used > n + 1 {
      var v := Repeat(s[used - 1], r.len);
      assert v + [] == v;
    }
  }

  /** Only the block and the one byte after it matter. */
  lemma {:induction false} UnrleOfPrefix(s: seq<byte>, t: seq<byte>, n: nat, i: nat)
    requires i <= n < |s| && n < |t| && s[..n + 1] == t[..n + 1]
    ensures Unrle(s, n, i) == Unrle(t, n, i)
    decreases n - i
  {
    assert forall k {:trigger s[k]} {:trigger t[k]} :: 0 <= k <= n ==> s[k] == t[k] by {
      forall k {:trigger s[k]} {:trigger t[k]} | 0 <= k <= n
        ensures s[k] == t[k]
      {
        assert s[..n + 1][k] == t[..n + 1][k];
      }
    }
    if i < n {
      var r := RunAt(s, n, i);
      if r < 4 {
        UnrleOfPrefix(s, t, n, i + r);
      } else if i + 4 < n {
        UnrleOfPrefix(s, t, n, i + 5);
      }
    }
  }

  // ----- the encoder's pairs

  datatype Pair = Pair(ch: byte, len: nat)

  predicate ValidPair(p: Pair) { 1 <= p.len <= 255 }

  function EncodePair(p: Pair): (s: seq<byte>)
    requires ValidPair(p)
    ensures 1 <= |s| <= 5 && |s| <= p.len + 1
  {
    if p.len < 4 then Repeat(p.ch, p.len) else Repeat(p.ch, 4) + [p.len - 4]
  }

  predicate ValidPairs(ps: seq<Pair>) { forall p :: p in ps ==> ValidPair(p) }

  /** A run of fewer than four is cut short only by a different byte. */
  predicate Apart(p: Pair, q: Pair) { p.len >= 4 || p.ch != q.ch }

  predicate Separate(ps: seq<Pair>) {
    ValidPairs(ps) && forall k {:trigger ps[k]} :: 0 < k < |ps| ==> Apart(ps[k - 1], ps[k])
  }

  function Encoded(ps: seq<Pair>): seq<byte>
    requires ValidPairs(ps)
  {
    if ps == [] then [] else Encoded(ps[..|ps| - 1]) + EncodePair(ps[|ps| - 1])
  }

  function Expand(ps: seq<Pair>): seq<byte> {
    if ps == [] then [] else Expand(ps[..|ps| - 1]) + Repeat(ps[|ps| - 1].ch, ps[|ps| - 1].len)
  }

  lemma {:induction false} Snoc(ps: seq<Pair>, p: Pair)
    requires ValidPairs(ps) && ValidPair(p)
    ensures ValidPairs(ps + [p])
    ensures Encoded(ps + [p]) == Encoded(ps) + EncodePair(p)
    ensures Expand(ps + [p]) == Expand(ps) + Repeat(p.ch, p.len)
  {
    assert (ps + [p])[..|ps|] == ps;
  }

  lemma {:induction false} ValidOf(ps: seq<Pair>)
    requires Separate(ps)
    ensures ValidPairs(ps)
  {
  }

  lemma {:induction false} SeparateMore(ps: seq<Pair>, p: Pair)
    requires Separate(ps) && ValidPair(p) && (ps == [] || Apart(ps[|ps| - 1], p))
    ensures Separate(ps + [p])
  {
    var q := ps + [p];
    forall x | x in q
      ensures ValidPair(x)
    {
    }
    forall k {:trigger q[k]} | 0 < k < |q|
      ensures Apart(q[k - 1], q[k])
    {
      if k < |ps| {
        assert Apart(ps[k - 1], ps[k]);
      }
    }
  }

  lemma {:induction false} Assoc<T>(a: seq<T>, b: seq<T>, c: seq<T>)
    ensures a + b + c == a + (b + c)
  {
  }

  lemma {:induction false} NoPairs()
    ensures Encoded([]) == [] && Expand([]) == []
  {
  }

  lemma {:induction false} Front(ps: seq<Pair>)
    requires ps != [] && ValidPairs(ps)
    ensures ValidPairs(ps[1..])
    ensures Encoded(ps) == EncodePair(ps[0]) + Encoded(ps[1..])
    ensures Expand(ps) == Repeat(ps[0].ch, ps[0].len) + Expand(ps[1..])
  {
    hide EncodePair, Repeat, Encoded, Expand, ValidPair;
    var m := |ps| - 1;
    if m == 0 {
      NoPairs();
      Snoc([], ps[0]);
      assert ps == [] + [ps[0]] && ps[1..] == [];
      assert [] + EncodePair(ps[0]) == EncodePair(ps[0]) + [];
      assert [] + Repeat(ps[0].ch, ps[0].len) == Repeat(ps[0].ch, ps[0].len) + [];
    } else {
      var q, t := ps[m], ps[1..m];
      Front(ps[..m]);
      assert ps[..m][1..] == t && ps == ps[..m] + [q] && ps[1..] == t + [q];
      Snoc(ps[..m], q);
      Snoc(t, q);
      Assoc(EncodePair(ps[0]), Encoded(t), EncodePair(q));
      Assoc(Repeat(ps[0].ch, ps[0].len), Expand(t), Repeat(q.ch, q.len));
    }
  }

  /** The bytes of the pairs, met from i on, unpack to the runs they stand for. */
  lemma {:induction false} PairsUnpack(s: seq<byte>, n: nat, i: nat, ps: seq<Pair>)
    requires Separate(ps) && i <= n < |s| && s[i..n] == Encoded(ps)
    ensures Unrle(s, n, i) == Unpacked(Expand(ps), false)
    decreases |ps|
  {
    hide EncodePair;
    if ps != [] {
      Front(ps);
      NextByteDiffers(ps);
      FirstRun(s, n, i, ps[0], Encoded(ps[1..]));
      PairsUnpack(s, n, i + |EncodePair(ps[0])|, ps[1..]);
    }
  }

  lemma {:induction false} SliceAt(s: seq<byte>, i: nat, n: nat, e: seq<byte>, t: seq<byte>)
    requires i <= n <= |s| && s[i..n] == e + t
    ensures i + |e| + |t| == n && s[i..i + |e|] == e
    ensures t != [] ==> s[i + |e|] == t[0]
    ensures s[i + |e|..n] == t
  {
    assert s[i..n][..|e|] == s[i..i + |e|];
    assert s[i..n][|e|..] == s[i + |e|..n];
    if t != [] {
      assert s[i..n][|e|] == (e + t)[|e|];
    }
  }

  /** A pair is read as one run. */
  lemma {:induction false} FirstRun(s: seq<byte>, n: nat, i: nat, p: Pair, t: seq<byte>)
    requires ValidPair(p) && i <= n < |s| && s[i..n] == EncodePair(p) + t
    requires p.len >= 4 || t == [] || t[0] != p.ch
    ensures i + |EncodePair(p)| <= n
    ensures Unrle(s, n, i) == Prepend(Repeat(p.ch, p.len), Unrle(s, n, i + |EncodePair(p)|))
    ensures s[i + |EncodePair(p)|..n] == t
  {
    SliceAt(s, i, n, EncodePair(p), t);
    PairRun(s, n, i, p);
  }

  lemma {:induction false} NextByteDiffers(ps: seq<Pair>)
    requires Separate(ps) && ps != [] && ValidPairs(ps[1..])
    ensures ps[0].len >= 4 || Encoded(ps[1..]) == [] || Encoded(ps[1..])[0] != ps[0].ch
  {
    if |ps| > 1 {
      Front(ps[1..]);
      assert Apart(ps[0], ps[1]) && ValidPair(ps[1]);
      assert EncodePair(ps[1])[0] == ps[1].ch;
    } else {
      assert ps[1..] == [];
    }
  }

  lemma {:induction false} PairRun(s: seq<byte>, n: nat, i: nat, p: Pair)
    requires ValidPair(p) && i + |EncodePair(p)| <= n < |s|
    requires s[i..i + |EncodePair(p)|] == EncodePair(p)
    requires p.len >= 4 || i + p.len == n || s[i + p.len] != p.ch
    ensures Unrle(s, n, i) == Prepend(Repeat(p.ch, p.len), Unrle(s, n, i + |EncodePair(p)|))
  {
    hide Prepend, Repeat;
    var e := EncodePair(p);
    assert forall k {:trigger e[k]} :: 0 <= k < |e| ==> s[i..i + |e|][k] == e[k];
    assert s[i] == e[0];
    if |e| > 1 {
      assert s[i + 1] == e[1];
    }
    if |e| > 2 {
      assert s[i + 2] == e[2];
    }
    if |e| > 3 {
      assert s[i + 3] == e[3] && s[i + 4] == e[4];
    }
  }
}
