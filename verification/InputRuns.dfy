/**
 * The runs a compressor that is never flushed makes of its input, each as long as it can be
 * up to 255: what they are is a matter of the input alone, however it came in and wherever
 * the blocks end.
 */
module InputRuns {
  import opened Prelude
  import opened RunLength

  /** The runs after one more byte. */
  function Grown(ps: seq<Pair>, c: byte): (r: seq<Pair>)
    requires ValidPairs(ps)
    ensures ValidPairs(r) && r != []
  {
    var m := |ps| - 1;
    if ps != [] && ps[m].ch == c && ps[m].len < 255 then ps[..m] + [Pair(c, ps[m].len + 1)] else ps + [Pair(c, 1)]
  }

  function RunsOf(s: seq<byte>): (ps: seq<Pair>)
    ensures ValidPairs(ps)
  {
    if s == [] then [] else Grown(RunsOf(s[..|s| - 1]), s[|s| - 1])
  }

  /** The input as the blocks hold it. */
  function RunForm(s: seq<byte>): seq<byte> { Encoded(RunsOf(s)) }

  lemma {:induction false} RunsSnoc(s: seq<byte>, c: byte)
    ensures RunsOf(s + [c]) == Grown(RunsOf(s), c)
  {
    assert (s + [c])[..|s|] == s;
  }

  /** Only the last run can still grow. */
  lemma {:induction false} GrownBehind(ps: seq<Pair>, qs: seq<Pair>, c: byte)
    requires ValidPairs(ps) && ValidPairs(qs) && ValidPairs(ps + qs) && (ps == [] || qs != [])
    ensures Grown(ps + qs, c) == ps + Grown(qs, c)
  {
    var m := |qs| - 1;
    if ps == [] {
      assert ps + qs == qs && ps + Grown(qs, c) == Grown(qs, c);
    } else {
      assert (ps + qs)[..|ps| + m] == ps + qs[..m];
    }
  }

  lemma {:induction false} GrownLonger(ps: seq<Pair>, c: byte, len: nat)
    requires ValidPairs(ps) && 1 <= len < 255
    ensures ValidPairs(ps + [Pair(c, len)]) && Grown(ps + [Pair(c, len)], c) == ps + [Pair(c, len + 1)]
  {
  }

  lemma {:induction false} FirstGrown(c: byte)
    ensures Grown([], c) == [Pair(c, 1)]
  {
  }

  lemma {:induction false} GrownNew(ps: seq<Pair>, p: Pair, c: byte)
    requires ValidPairs(ps) && ValidPair(p) && (p.ch != c || p.len == 255)
    ensures ValidPairs(ps + [p]) && Grown(ps + [p], c) == ps + [p] + [Pair(c, 1)]
  {
  }

  /** What is there in front of the last run stays. */
  lemma {:induction false} RunsExtend(s: seq<byte>, t: seq<byte>, ps: seq<Pair>)
    requires ps < RunsOf(s)
    ensures ps < RunsOf(s + t)
    decreases |t|
  {
    hide Grown;
    if t == [] {
      assert s + t == s;
    } else {
      var t', c := t[..|t| - 1], t[|t| - 1];
      RunsExtend(s, t', ps);
      assert s + t' + [c] == s + t;
      RunsSnoc(s + t', c);
      GrownKeeps(RunsOf(s + t'), ps, c);
    }
  }

  lemma {:induction false} GrownKeeps(qs: seq<Pair>, ps: seq<Pair>, c: byte)
    requires ValidPairs(qs) && ps < qs
    ensures ps < Grown(qs, c)
  {
  }

  // ----- they are runs of the input

  lemma {:induction false} NoRuns()
    ensures Separate([]) && Expand([]) == []
  {
  }

  lemma {:induction false} RunsSeparate(s: seq<byte>)
    ensures Separate(RunsOf(s)) && Expand(RunsOf(s)) == s
  {
    hide Separate, Grown;
    if s == [] {
      NoRuns();
    } else {
      var t, c := s[..|s| - 1], s[|s| - 1];
      RunsSeparate(t);
      GrownSeparate(RunsOf(t), c);
      assert s == t + [c];
    }
  }

  lemma {:induction false} GrownSeparate(ps: seq<Pair>, c: byte)
    requires Separate(ps)
    ensures Separate(Grown(ps, c)) && Expand(Grown(ps, c)) == Expand(ps) + [c]
  {
    hide Expand, Encoded, EncodePair;
    var m := |ps| - 1;
    if ps != [] && ps[m].ch == c && ps[m].len < 255 {
      LastLonger(ps[..m], ps[m], c);
      assert ps == ps[..m] + [ps[m]];
    } else {
      Snoc(ps, Pair(c, 1));
      assert Repeat(c, 1) == [c];
      SeparateMore(ps, Pair(c, 1));
    }
  }

  lemma {:induction false} LastLonger(ps: seq<Pair>, p: Pair, c: byte)
    requires Separate(ps + [p]) && p.ch == c && p.len < 255
    ensures Separate(ps + [Pair(c, p.len + 1)])
    ensures Expand(ps + [Pair(c, p.len + 1)]) == Expand(ps + [p]) + [c]
  {
    hide Expand, Encoded, EncodePair;
    var q := ps + [p];
    assert p in q && forall x :: x in ps ==> x in q;
    assert forall k {:trigger ps[k]} :: 0 < k < |ps| ==> q[k - 1] == ps[k - 1] && q[k] == ps[k];
    if ps != [] {
      assert Apart(q[|ps| - 1], q[|ps|]);
    }
    SeparateMore(ps, Pair(c, p.len + 1));
    Snoc(ps, p);
    Snoc(ps, Pair(c, p.len + 1));
    Assoc(Expand(ps), Repeat(c, p.len), [c]);
  }

  /** The first run-length stage loses nothing: a decoder unpacks the run form to the input. */
  lemma {:induction false} RunFormUnpacks(s: seq<byte>, after: byte)
    ensures Unrle(RunForm(s) + [after], |RunForm(s)|, 0) == Unpacked(s, false)
  {
    hide Unrle, Encoded, Expand, Separate, RunsOf;
    RunsSeparate(s);
    var e := RunForm(s);
    assert (e + [after])[0..|e|] == e;
    PairsUnpack(e + [after], |e|, 0, RunsOf(s));
  }

  // ----- how long they are

  lemma {:induction false} EncodedOfPrefix(ps: seq<Pair>, qs: seq<Pair>)
    requires ValidPairs(qs) && ps <= qs
    ensures ValidPairs(ps) && Encoded(ps) <= Encoded(qs)
    decreases |qs|
  {
    hide EncodePair;
    if |ps| < |qs| {
      EncodedOfPrefix(ps, qs[..|qs| - 1]);
    } else {
      assert ps == qs;
    }
  }
}
