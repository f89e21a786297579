/**
 * The other half of the gateway protocol: as long as no node loses a row of a neighbour it
 * hears, full rounds bring every distance down to the truth, one hop more with each round.
 */
module GatewaySettle {
  import opened Gateway
  import opened GatewayNet

  /** The node keeps a row of j, with j's mark if j is wired. */
  ghost predicate HasRow(w: World, t: Table, j: nat) {
    exists k {:trigger t[k]} :: 0 <= k < |t| && t[k].used && t[k].id == j && (j in w.wired ==> t[k].discoveryGw)
  }

  ghost predicate KeepsRows(w: World, i: nat, t: Table) {
    forall j: nat {:trigger (i, j) in w.hears} :: (i, j) in w.hears ==> HasRow(w, t, j)
  }

  /** Every node keeps a row of every neighbour it hears. */
  ghost predicate Complete(w: World, s: State) {
    forall i {:trigger s.nodes[i]} :: 0 <= i < |s.nodes| ==> KeepsRows(w, i, s.nodes[i].table)
  }

  /** Whatever way out node j has within fewer than n hops, v is no more than that. */
  ghost predicate Down(w: World, j: nat, v: nat, n: nat)
    requires ValidWorld(w)
  {
    forall d: nat {:trigger Within(w, j, d)} :: d < n && Within(w, j, d) ==> v <= d
  }

  ghost predicate RowsDown(w: World, x: Node, n: nat, since: nat, more: nat)
    requires ValidWorld(w)
  {
    |x.born| == |x.table| && forall k {:trigger x.table[k]} :: 0 <= k < |x.table| && x.table[k].used ==>
      && Down(w, x.table[k].id, x.table[k].declared, n)
      && (x.born[k] >= since ==> Down(w, x.table[k].id, x.table[k].declared, more))
  }

  ghost predicate NodeDown(w: World, i: nat, x: Node, n: nat, part: Part, t0: nat)
    requires ValidWorld(w)
  {
    && SizedNode(x) && RowsDown(w, x, n, t0, if part.Refreshing? then n + 1 else n) && Down(w, i, x.own, n)
      && x.own <= NONE
    && (!part.Computing? || x.computed >= t0 ==> Down(w, i, x.own, n + 1))
  }

  ghost predicate MessageDown(w: World, x: Message, n: nat, part: Part, t0: nat)
    requires ValidWorld(w)
  {
    Down(w, x.from, x.distance, n) && (part.Refreshing? || (part.Clearing? && x.sent >= t0) ==>
      Down(w, x.from, x.distance, n + 1))
  }

  /**
   * Ways out of fewer than n hops are known to every node, row and message. Since step t0
   * of this part, what has been computed, sent or declared afresh knows those of n hops too,
   * and so does all that the earlier parts of the round have dealt with.
   */
  ghost predicate Ceiling(w: World, s: State, n: nat, part: Part, t0: nat) {
    && ValidWorld(w) && ValidState(w, s) && t0 <= s.step
    && (forall i {:trigger s.nodes[i]} :: 0 <= i < w.size ==> NodeDown(w, i, s.nodes[i], n, part, t0))
    && (forall x {:trigger x in s.air} :: x in s.air ==> MessageDown(w, x, n, part, t0))
  }

  // ----- steps

  lemma {:induction false} DownLess(w: World, j: nat, v: nat, u: nat, n: nat)
    requires ValidWorld(w) && Down(w, j, v, n) && u <= v
    ensures Down(w, j, u, n)
  {
  }

  /** From rows that know the ways out of fewer than n hops, a way out of n hops is found. */
  lemma {:induction false} ComputeDown(w: World, i: nat, x: Node, n: nat, since: nat, more: nat, d: nat)
    requires ValidWorld(w) && i < w.size && RowsDown(w, x, n, since, more) && KeepsRows(w, i, x.table) && d <= n
      && Within(w, i, d)
    ensures Distance(x.table, w.words[i], i in w.gateways) <= d
    decreases d
  {
    var t, ov := x.table, w.words[i];
    BestHasWitness(t, ov, |t|);
    if d > 0 && d < NONE && i !in w.gateways {
      if Within(w, i, d - 1) {
        ComputeDown(w, i, x, n, since, more, d - 1);
      } else {
        var j: nat :| (i, j) in w.hears && (Vouched(w, i, j) || (Override(ov, j) != 0 && Within(w, j, d - 1)));
        assert HasRow(w, t, j);
        var k :| 0 <= k < |t| && t[k].used && t[k].id == j && (j in w.wired ==> t[k].discoveryGw);
        assert Effective(t[k], ov) <= d - 1;
      }
    }
  }

  lemma {:induction false} ComputedDown(w: World, i: nat, x: Node, n: nat, part: Part, t0: nat, now: nat, horizon: nat,
      step: nat)
    requires ValidWorld(w) && i < w.size && NodeDown(w, i, x, n, part, t0)
    requires KeepsRows(w, i, NodeCompute(x, w.words[i], i in w.gateways, now, horizon, step).table)
    ensures NodeDown(w, i, NodeCompute(x, w.words[i], i in w.gateways, now, horizon, step), n, part, t0)
  {
    hide Within, KeepsRows, BestOf;
    var y := NodeCompute(x, w.words[i], i in w.gateways, now, horizon, step);
    var more := if part.Refreshing? then n + 1 else n;
    forall k {:trigger y.table[k]} | 0 <= k < |y.table| && y.table[k].used
      ensures y.table[k] == x.table[k]
    {
    }
    assert RowsDown(w, y, n, t0, more);
    forall d: nat {:trigger Within(w, i, d)} | d < n + 1 && Within(w, i, d)
      ensures y.own <= d
    {
      ComputeDown(w, i, y, n, t0, more, d);
    }
  }

  lemma {:induction false} NotedDown(w: World, i: nat, x: Node, n: nat, part: Part, t0: nat, m: Message, now: nat,
      step: nat)
    requires ValidWorld(w) && NodeDown(w, i, x, n, part, t0) && MessageDown(w, m, n, part, t0)
    ensures NodeDown(w, i, NodeNote(x, m.from, m.distance, now, step), n, part, t0)
  {
    hide Place, Down;
    var y, s := NodeNote(x, m.from, m.distance, now, step), Place(x.table, m.from);
    var more := if part.Refreshing? then n + 1 else n;
    DownLess(w, m.from, m.distance, Declared(m.distance), n);
    DownLess(w, m.from, m.distance, Declared(m.distance), more);
    forall k {:trigger y.table[k]} | 0 <= k < |y.table| && y.table[k].used
      ensures Down(w, y.table[k].id, y.table[k].declared, n)
      ensures y.born[k] >= t0 ==> Down(w, y.table[k].id, y.table[k].declared, more)
    {
      if k != s {
        assert y.table[k] == x.table[k];
      }
    }
  }

  /** A neighbour that has a row gets no new one. */
  lemma {:induction false} RowFound(w: World, t: Table, j: nat)
    requires Sized(t) && HasRow(w, t, j)
    ensures FindRow(t, j, ROWS) >= 0
  {
  }

  lemma {:induction false} MarkedDown(w: World, i: nat, x: Node, n: nat, part: Part, t0: nat, j: nat, now: nat,
      step: nat)
    requires ValidWorld(w) && NodeDown(w, i, x, n, part, t0) && FindRow(x.table, j, ROWS) >= 0
    ensures NodeDown(w, i, NodeDiscover(x, j, now, step), n, part, t0)
  {
    hide Down;
    var y, s := NodeDiscover(x, j, now, step), FindRow(x.table, j, ROWS);
    assert x.table[s].used;
    assert forall k {:trigger y.table[k]} :: 0 <= k < ROWS ==>
        y.table[k].used == x.table[k].used && y.table[k].id == x.table[k].id
          && y.table[k].declared == x.table[k].declared;
  }

  lemma {:induction false} HeardDown(w: World, i: nat, x: Node, n: nat, part: Part, t0: nat, ov: Overrides, j: nat,
      now: nat, step: nat)
    requires ValidWorld(w) && NodeDown(w, i, x, n, part, t0) && FindRow(x.table, j, ROWS) >= 0
    ensures NodeDown(w, i, NodeHear(x, ov, j, now, step), n, part, t0)
  {
    hide Down;
    var y, s := NodeHear(x, ov, j, now, step), FindRow(x.table, j, ROWS);
    assert x.table[s].used;
    assert forall k {:trigger y.table[k]} :: 0 <= k < ROWS ==>
        y.table[k].used == x.table[k].used && y.table[k].id == x.table[k].id
          && y.table[k].declared == x.table[k].declared;
  }

  /** Between two states with complete tables, every step keeps the ceiling. */
  lemma {:induction false} StepCeiling(w: World, s: State, s': State, n: nat, part: Part, t0: nat)
    requires Ceiling(w, s, n, part, t0) && Step(w, s, s') && Complete(w, s) && Complete(w, s')
    ensures Ceiling(w, s', n, part, t0)
  {
    hide NodeDown, MessageDown, NodeNote, NodeHear, NodeDiscover, NodeCompute, KeepsRows;
    var a :| Enabled(w, s, a) && s' == Apply(w, s, a);
    match a
    case Announce(i) =>
      AnnouncedDown(w, s, i, n, part, t0);
    case Deliver(m, now) =>
      NotedDown(w, m.to, s.nodes[m.to], n, part, t0, m, now, s.step);
    case Lose(m) =>
    case Discover(i, j, now) =>
      RowOf(w, s, i, j);
      MarkedDown(w, i, s.nodes[i], n, part, t0, j, now, s.step);
    case Hear(i, j, now) =>
      RowOf(w, s, i, j);
      HeardDown(w, i, s.nodes[i], n, part, t0, w.words[i], j, now, s.step);
    case Compute(i, now, horizon) =>
      assert KeepsRows(w, i, s'.nodes[i].table);
      ComputedDown(w, i, s.nodes[i], n, part, t0, now, horizon, s.step);
  }

  lemma {:induction false} RowOf(w: World, s: State, i: nat, j: nat)
    requires ValidWorld(w) && ValidState(w, s) && Complete(w, s) && (i, j) in w.hears
    ensures i < w.size && FindRow(s.nodes[i].table, j, ROWS) >= 0
  {
    hide HasRow;
    assert (i, j).0 < w.size;
    assert KeepsRows(w, i, s.nodes[i].table);
    RowFound(w, s.nodes[i].table, j);
  }

  lemma {:induction false} AnnouncedDown(w: World, s: State, i: nat, n: nat, part: Part, t0: nat)
    requires Ceiling(w, s, n, part, t0) && i < w.size
    ensures forall x {:trigger x in Sent(w, s, i)} :: x in Sent(w, s, i) ==> MessageDown(w, x, n, part, t0)
  {
    hide RowsDown, Down;
    assert NodeDown(w, i, s.nodes[i], n, part, t0);
  }

  // ----- rounds

  ghost predicate AllComplete(w: World, r: seq<State>) { forall k {:trigger r[k]} :: 0 <= k < |r| ==>
      Complete(w, r[k]) }

  /** Every row has been declared since. */
  predicate AllRowsSince(s: State, t: nat) {
    forall i {:trigger s.nodes[i]} :: 0 <= i < |s.nodes| ==>
      |s.nodes[i].born| == |s.nodes[i].table|
      && forall k {:trigger s.nodes[i].table[k]} :: 0 <= k < |s.nodes[i].table| && s.nodes[i].table[k].used ==>
        s.nodes[i].born[k] >= t
  }

  /** A full round in which no node loses the row of a neighbour, and every row is declared afresh or expires. */
  ghost predicate Lossless(w: World, r: Round) {
    && FullRound(w, r) && AllComplete(w, r.computing) && AllComplete(w, r.clearing) && AllComplete(w, r.refreshing)
    && AllRowsSince(Last(r.refreshing), r.refreshing[0].step)
  }

  ghost predicate Known(w: World, s: State, n: nat) { Ceiling(w, s, n, Computing, s.step) && Stamped(s) }

  lemma {:induction false} RunCeiling(w: World, r: seq<State>, n: nat, part: Part, t0: nat)
    requires IsRun(w, r) && AllComplete(w, r) && Ceiling(w, r[0], n, part, t0) && Stamped(r[0])
    ensures Ceiling(w, Last(r), n, part, t0) && Stamped(Last(r))
    decreases |r|
  {
    hide Ceiling, Stamped, Step, Complete;
    if |r| > 1 {
      var q := r[..|r| - 1];
      RunPrefix(w, r);
      assert forall k {:trigger q[k]} :: 0 <= k < |q| ==> q[k] == r[k];
      RunCeiling(w, q, n, part, t0);
      assert Complete(w, q[|q| - 1]) && Complete(w, r[|r| - 1]);
      StepCeiling(w, q[|q| - 1], r[|r| - 1], n, part, t0);
      StepStamped(w, q[|q| - 1], r[|r| - 1]);
    }
  }

  lemma {:induction false} NextPartDown(w: World, s: State, n: nat, part: Part, t0: nat)
    requires Ceiling(w, s, n, part, t0) && Stamped(s)
    ensures part.Computing? && AllComputed(s, t0) ==> Ceiling(w, s, n, Clearing, s.step)
    ensures part.Clearing? && AirSince(s, t0) ==> Ceiling(w, s, n, Refreshing, s.step)
    ensures part.Refreshing? && AllRowsSince(s, t0) ==> Ceiling(w, s, n + 1, Computing, s.step)
  {
    hide Down;
    forall i {:trigger s.nodes[i]} | 0 <= i < w.size
      ensures part.Computing? && AllComputed(s, t0) ==> NodeDown(w, i, s.nodes[i], n, Clearing, s.step)
      ensures part.Clearing? ==> NodeDown(w, i, s.nodes[i], n, Refreshing, s.step)
      ensures part.Refreshing? && AllRowsSince(s, t0) ==> NodeDown(w, i, s.nodes[i], n + 1, Computing, s.step)
    {
      var x := s.nodes[i];
      assert x.computed < s.step && NodeDown(w, i, x, n, part, t0);
      assert forall k {:trigger x.table[k]} :: 0 <= k < |x.table| ==> x.born[k] < s.step;
    }
    forall x {:trigger x in s.air} | x in s.air
      ensures MessageDown(w, x, n, part, t0) && x.sent < s.step
    {
    }
  }

  /** A lossless round makes the ways out of one hop more known everywhere. */
  lemma {:induction false} RoundLowers(w: World, r: Round, n: nat)
    requires Lossless(w, r) && Known(w, r.computing[0], n)
    ensures Known(w, Last(r.refreshing), n + 1)
  {
    hide Ceiling, Stamped, Step, Complete, AllComputed, AirSince, RowsSince, AllRowsSince;
    RunCeiling(w, r.computing, n, Computing, r.computing[0].step);
    NextPartDown(w, Last(r.computing), n, Computing, r.computing[0].step);
    RunCeiling(w, r.clearing, n, Clearing, r.clearing[0].step);
    NextPartDown(w, Last(r.clearing), n, Clearing, r.clearing[0].step);
    RunCeiling(w, r.refreshing, n, Refreshing, r.refreshing[0].step);
    NextPartDown(w, Last(r.refreshing), n, Refreshing, r.refreshing[0].step);
  }

  lemma {:induction false} KnownAfter(w: World, rs: seq<Round>, n: nat)
    requires Rounds(w, rs) && (forall k {:trigger rs[k]} :: 0 <= k < |rs| ==> Lossless(w, rs[k]))
    requires 1 <= n <= |rs| && rs[0].computing != [] && Known(w, rs[0].computing[0], 0)
    ensures rs[n - 1].refreshing != [] && Known(w, Last(rs[n - 1].refreshing), n)
    decreases n
  {
    hide Known, FullRound, Lossless;
    assert FullRound(w, rs[n - 1]) && Lossless(w, rs[n - 1]);
    if n > 1 {
      KnownAfter(w, rs, n - 1);
      RoundsChain(w, rs, n - 1);
    }
    RoundLast(w, rs[n - 1]);
    RoundLowers(w, rs[n - 1], n - 1);
  }

  lemma {:induction false} HonestAfter(w: World, rs: seq<Round>, n: nat)
    requires Rounds(w, rs) && 1 <= n <= |rs| && rs[0].computing != [] && AllHonest(w, rs[0].computing[0])
    ensures rs[n - 1].refreshing != [] && AllHonest(w, Last(rs[n - 1].refreshing))
    decreases n
  {
    hide AllHonest, FullRound;
    assert FullRound(w, rs[n - 1]);
    if n > 1 {
      HonestAfter(w, rs, n - 1);
      RoundsChain(w, rs, n - 1);
    }
    RoundLast(w, rs[n - 1]);
    RoundHonest(w, rs[n - 1]);
  }

  lemma {:induction false} RoundHonest(w: World, r: Round)
    requires FullRound(w, r) && AllHonest(w, r.computing[0])
    ensures AllHonest(w, Last(r.refreshing))
  {
    hide AllHonest, Step, AllComputed, AirSince, RowsSince;
    RunHonest(w, r.computing);
    RunHonest(w, r.clearing);
    RunHonest(w, r.refreshing);
  }

  /**
   * Eight lossless rounds, in whatever interleaving and from whatever honest tables that are
   * complete, leave every node at its true hop count, capped at NONE.
   */
  lemma {:induction false} SettlesAtTruth(w: World, rs: seq<Round>, i: nat, h: nat)
    requires Rounds(w, rs) && |rs| == 8 && forall k {:trigger rs[k]} :: 0 <= k < |rs| ==> Lossless(w, rs[k])
    requires rs[0].computing != [] && AnyStart(w, rs[0].computing[0]) && AllHonest(w, rs[0].computing[0]) && i < w.size
    ensures rs[7].refreshing != [] && i < |Last(rs[7].refreshing).nodes|
    ensures var own := Last(rs[7].refreshing).nodes[i].own;
      && (forall d: nat {:trigger Within(w, i, d)} :: d < NONE ==> (own <= d <==> Within(w, i, d)))
      && (HopCount(w, i, h) ==> own == if h < NONE then h else NONE)
      && ((forall d: nat {:trigger Within(w, i, d)} :: !Within(w, i, d)) ==> own == NONE)
  {
    hide Within, Lossless, FullRound, RowsDown;
    var s := rs[0].computing[0];
    StartKnown(w, s);
    KnownAfter(w, rs, 8);
    HonestAfter(w, rs, 8);
    var e := Last(rs[7].refreshing);
    assert NodeDown(w, i, e.nodes[i], 8, Computing, e.step);
    var own := e.nodes[i].own;
    assert Honest(w, i, own);
    forall d: nat {:trigger Within(w, i, d)} | d < NONE
      ensures own <= d <==> Within(w, i, d)
    {
      if own <= d {
        WithinMore(w, i, own, d);
      }
    }
    if HopCount(w, i, h) {
      if h < NONE {
        if own < h {
          WithinMore(w, i, own, h - 1);
        }
      } else if own < NONE {
        WithinMore(w, i, own, h - 1);
      }
    }
  }

  /** No ways out of fewer than no hops. */
  lemma {:induction false} StartKnown(w: World, s: State)
    requires AnyStart(w, s)
    ensures Known(w, s, 0)
  {
    hide Within;
    forall i {:trigger s.nodes[i]} | 0 <= i < w.size
      ensures NodeDown(w, i, s.nodes[i], 0, Computing, s.step)
    {
      assert s.nodes[i].computed < s.step;
    }
  }
}
