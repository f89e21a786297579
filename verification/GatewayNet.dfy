/**
 * Gateway distance as a distributed protocol: nodes that announce, messages that are
 * delivered late or lost, rows that expire or are evicted, in any interleaving.
 */
module GatewayNet {
  import opened Gateway

  /** What is fixed: who hears whom, who is a gateway, and what operators and stock stations say. */
  datatype World = World(size: nat, hears: set<(nat, nat)>, gateways: set<nat>, wired: set<nat>, words: seq<Overrides>)

  predicate ValidWorld(w: World) {
    |w.words| == w.size && forall p {:trigger p in w.hears} :: p in w.hears ==> p.0 < w.size && p.1 < w.size
  }

  /** born[k] is the step at which row k last took a declaration. */
  datatype Node = Node(table: Table, born: seq<nat>, own: nat, computed: nat)

  datatype Message = Message(from: nat, to: nat, distance: nat, sent: nat)

  datatype State = State(step: nat, nodes: seq<Node>, air: set<Message>)

  datatype Action =
    | Announce(i: nat)
    | Deliver(m: Message, now: nat)
    | Lose(m: Message)
    | Discover(i: nat, j: nat, now: nat)
    | Hear(i: nat, j: nat, now: nat)
    | Compute(i: nat, now: nat, horizon: nat)

  predicate ValidState(w: World, s: State) {
    |s.nodes| == w.size && forall i {:trigger s.nodes[i]} :: 0 <= i < w.size ==>
      Sized(s.nodes[i].table) && |s.nodes[i].born| == ROWS
  }

  predicate Enabled(w: World, s: State, a: Action) {
    match a
    case Announce(i) => i < w.size
    case Deliver(m, _) => m in s.air && m.to < w.size
    case Lose(m) => m in s.air
    case Discover(i, j, _) => (i, j) in w.hears && j in w.wired
    case Hear(i, j, _) => (i, j) in w.hears
    case Compute(i, _, _) => i < w.size
  }

  /** One declaration to each node that hears i. */
  function Sent(w: World, s: State, i: nat): set<Message>
    requires i < |s.nodes|
  {
    set p | p in w.hears && p.1 == i :: Message(i, p.0, s.nodes[i].own, s.step)
  }

  function NodeNote(n: Node, id: Ident, d: nat, now: nat, step: nat): Node
    requires Sized(n.table) && |n.born| == ROWS
  {
    n.(table := NoteRow(n.table, id, Declared(d), now), born := n.born[Place(n.table, id) := step])
  }

  function NodeDiscover(n: Node, id: Ident, now: nat, step: nat): Node
    requires Sized(n.table) && |n.born| == ROWS
  {
    n.(table := DiscoverRow(n.table, id, now),
       born := if FindRow(n.table, id, ROWS) >= 0 then n.born else n.born[Place(n.table, id) := step])
  }

  /** A direct announce: a row kept by the operator's word alone is refreshed, or made. */
  function NodeHear(n: Node, ov: Overrides, id: Ident, now: nat, step: nat): Node
    requires Sized(n.table) && |n.born| == ROWS
  {
    var k := FindRow(n.table, id, ROWS);
    if k >= 0 then
      if n.table[k].declared == UNKNOWN && !n.table[k].discoveryGw then
        n.(table := n.table[k := n.table[k].(heard := now)]) else n
    else if Override(ov, id) < 0 then n
    else n.(table := n.table[Place(n.table, id) := NewRow(id).(heard := now)],
      born := n.born[Place(n.table, id) := step])
  }

  function NodeCompute(n: Node, ov: Overrides, gateway: bool, now: nat, horizon: nat, step: nat): Node {
    var t := Expired(n.table, now, horizon);
    n.(table := t, own := Distance(t, ov, gateway), computed := step)
  }

  function Apply(w: World, s: State, a: Action): (s': State)
    requires ValidWorld(w) && ValidState(w, s) && Enabled(w, s, a)
    ensures ValidState(w, s') && s'.step == s.step + 1
  {
    var s1 := s.(step := s.step + 1);
    match a
    case Announce(i) => s1.(air := s.air + Sent(w, s, i))
    case Deliver(m, now) => s1.(nodes := s.nodes[m.to := NodeNote(s.nodes[m.to], m.from, m.distance, now, s.step)],
      air := s.air - {m})
    case Lose(m) => s1.(air := s.air - {m})
    case Discover(i, j, now) => s1.(nodes := s.nodes[i := NodeDiscover(s.nodes[i], j, now, s.step)])
    case Hear(i, j, now) => s1.(nodes := s.nodes[i := NodeHear(s.nodes[i], w.words[i], j, now, s.step)])
    case Compute(i, now, horizon) =>
      s1.(nodes := s.nodes[i := NodeCompute(s.nodes[i], w.words[i], i in w.gateways, now, horizon, s.step)])
  }

  ghost predicate Step(w: World, s: State, s': State) {
    && ValidWorld(w) && ValidState(w, s)
    && exists a {:trigger Enabled(w, s, a)} :: Enabled(w, s, a) && s' == Apply(w, s, a)
  }

  ghost predicate IsRun(w: World, r: seq<State>) {
    && r != [] && ValidWorld(w) && ValidState(w, r[0])
    && forall k {:trigger r[k]} :: 1 <= k < |r| ==> Step(w, r[k - 1], r[k])
  }

  // ----- true hop counts

  /** By the operator's word or its own wired interface, j is as good as a gateway to i. */
  predicate Vouched(w: World, i: nat, j: nat)
    requires i < |w.words|
  {
    Override(w.words[i], j) == 1 || (Override(w.words[i], j) != 0 && j in w.wired)
  }

  /** A way out lies within k hops of i. */
  ghost predicate Within(w: World, i: nat, k: nat)
    requires ValidWorld(w)
    decreases k
  {
    i < w.size
    && if k == 0 then i in w.gateways
       else
         Within(w, i, k - 1)
         || (exists j: nat {:trigger (i, j) in w.hears} ::
               (i, j) in w.hears && (Vouched(w, i, j) || (Override(w.words[i], j) != 0 && Within(w, j, k - 1))))
  }

  lemma {:induction false} WithinMore(w: World, i: nat, k: nat, m: nat)
    requires ValidWorld(w) && Within(w, i, k) && k <= m
    ensures Within(w, i, m)
    decreases m
  {
    if k < m {
      WithinMore(w, i, k, m - 1);
    }
  }

  /** h is the true hop count of i. */
  ghost predicate HopCount(w: World, i: nat, h: nat)
    requires ValidWorld(w)
  {
    Within(w, i, h) && (h > 0 ==> !Within(w, i, h - 1))
  }

  /** A distance that claims no more than is true. */
  ghost predicate Honest(w: World, i: nat, d: nat)
    requires ValidWorld(w)
  {
    d < NONE ==> Within(w, i, d)
  }

  ghost predicate RowHonest(w: World, i: nat, n: Nbr)
    requires ValidWorld(w)
  {
    n.used ==> (i, n.id) in w.hears && (n.discoveryGw ==> n.id in w.wired) && Honest(w, n.id, n.declared)
  }

  ghost predicate TableHonest(w: World, i: nat, t: Table)
    requires ValidWorld(w)
  {
    forall k {:trigger t[k]} :: 0 <= k < |t| ==> RowHonest(w, i, t[k])
  }

  ghost predicate AllHonest(w: World, s: State) {
    && ValidWorld(w) && ValidState(w, s)
    && (forall i {:trigger s.nodes[i]} :: 0 <= i < w.size ==>
      TableHonest(w, i, s.nodes[i].table) && Honest(w, i, s.nodes[i].own))
    && (forall m {:trigger m in s.air} :: m in s.air ==> (m.to, m.from) in w.hears && Honest(w, m.from, m.distance))
  }

  /** Distance by way of honest rows is honest. */
  lemma {:induction false} ComputeHonest(w: World, i: nat, t: Table)
    requires ValidWorld(w) && i < w.size && TableHonest(w, i, t)
    ensures Honest(w, i, Distance(t, w.words[i], i in w.gateways))
  {
    BestHasWitness(t, w.words[i], |t|);
    var best := BestOf(t, w.words[i], |t|);
    if i !in w.gateways && best < NONE {
      var k :| 0 <= k < |t| && t[k].used && Effective(t[k], w.words[i]) == best - 1;
      assert RowHonest(w, i, t[k]);
      HonestHop(w, i, t[k], best);
    }
  }

  lemma {:induction false} HonestHop(w: World, i: nat, n: Nbr, best: nat)
    requires ValidWorld(w) && i < w.size && n.used && RowHonest(w, i, n) && 1 <= best < NONE
      && Effective(n, w.words[i]) == best - 1
    ensures Within(w, i, best)
  {
    assert (i, n.id) in w.hears;
    if Vouched(w, i, n.id) {
      assert Within(w, i, 1);
      WithinMore(w, i, 1, best);
    } else {
      assert Within(w, n.id, best - 1);
    }
  }

  lemma {:induction false} NoteHonest(w: World, i: nat, t: Table, id: Ident, d: nat, now: nat)
    requires ValidWorld(w) && Sized(t) && TableHonest(w, i, t) && (i, id) in w.hears && Honest(w, id, d)
    ensures TableHonest(w, i, NoteRow(t, id, Declared(d), now))
  {
    hide Within;
  }

  lemma {:induction false} DiscoverHonest(w: World, i: nat, t: Table, id: Ident, now: nat)
    requires ValidWorld(w) && Sized(t) && TableHonest(w, i, t) && (i, id) in w.hears && id in w.wired
    ensures TableHonest(w, i, DiscoverRow(t, id, now))
  {
    hide Within;
  }

  lemma {:induction false} HearHonest(w: World, i: nat, n: Node, id: Ident, now: nat, step: nat)
    requires ValidWorld(w) && i < w.size && Sized(n.table) && |n.born| == ROWS && TableHonest(w, i, n.table)
      && (i, id) in w.hears
    ensures TableHonest(w, i, NodeHear(n, w.words[i], id, now, step).table)
  {
    hide Within, Place;
    var t, k := n.table, FindRow(n.table, id, ROWS);
    if k >= 0 {
      assert RowHonest(w, i, t[k]);
    }
  }

  lemma {:induction false} ExpiredHonest(w: World, i: nat, t: Table, now: nat, horizon: nat)
    requires ValidWorld(w) && TableHonest(w, i, t)
    ensures TableHonest(w, i, Expired(t, now, horizon))
  {
    hide Within;
    var r := Expired(t, now, horizon);
    forall k {:trigger r[k]} | 0 <= k < |r|
      ensures RowHonest(w, i, r[k])
    {
      assert RowHonest(w, i, t[k]);
    }
  }

  /** No step makes a node's distance, or anything said of it, smaller than the truth. */
  lemma {:induction false} StepHonest(w: World, s: State, s': State)
    requires AllHonest(w, s) && Step(w, s, s')
    ensures AllHonest(w, s')
  {
    hide Within, TableHonest, Distance, NoteRow, DiscoverRow, NodeHear, Expired;
    var a :| Enabled(w, s, a) && s' == Apply(w, s, a);
    match a
    case Announce(i) =>
    case Deliver(m, now) =>
      NoteHonest(w, m.to, s.nodes[m.to].table, m.from, m.distance, now);
    case Lose(m) =>
    case Discover(i, j, now) =>
      assert i < w.size;
      DiscoverHonest(w, i, s.nodes[i].table, j, now);
    case Hear(i, j, now) =>
      assert i < w.size;
      HearHonest(w, i, s.nodes[i], j, now, s.step);
      HearOwn(s.nodes[i], w.words[i], j, now, s.step);
    case Compute(i, now, horizon) =>
      ExpiredHonest(w, i, s.nodes[i].table, now, horizon);
      ComputeHonest(w, i, Expired(s.nodes[i].table, now, horizon));
  }

  lemma {:induction false} HearOwn(n: Node, ov: Overrides, id: Ident, now: nat, step: nat)
    requires Sized(n.table) && |n.born| == ROWS
    ensures NodeHear(n, ov, id, now, step).own == n.own && NodeHear(n, ov, id, now, step).computed == n.computed
  {
  }

  /** Fresh tables, nothing on the air, nobody near a gateway yet. */
  predicate Fresh(w: World, s: State) {
    && ValidState(w, s) && s.air == {}
    && forall i {:trigger s.nodes[i]} :: 0 <= i < w.size ==>
         s.nodes[i].own == NONE && forall k {:trigger s.nodes[i].table[k]} :: 0 <= k < ROWS ==>
           !s.nodes[i].table[k].used
  }

  lemma {:induction false} FreshHonest(w: World, s: State)
    requires ValidWorld(w) && Fresh(w, s)
    ensures AllHonest(w, s)
  {
    forall i {:trigger s.nodes[i]} | 0 <= i < w.size
      ensures TableHonest(w, i, s.nodes[i].table) && Honest(w, i, s.nodes[i].own)
    {
      forall k {:trigger s.nodes[i].table[k]} | 0 <= k < |s.nodes[i].table|
        ensures RowHonest(w, i, s.nodes[i].table[k])
      {
      }
    }
  }

  /**
   * Over every run from fresh tables, whatever is announced, lost, expired or evicted, no
   * node's distance is ever smaller than its true hop count, capped at NONE.
   */
  lemma {:induction false} NeverTooClose(w: World, r: seq<State>, i: nat, h: nat)
    requires IsRun(w, r) && Fresh(w, r[0]) && i < w.size
    ensures var d := r[|r| - 1].nodes[i].own; d < NONE ==> Within(w, i, d)
    ensures HopCount(w, i, h) ==> r[|r| - 1].nodes[i].own >= (if h < NONE then h else NONE)
  {
    FreshHonest(w, r[0]);
    RunHonest(w, r);
    var d := r[|r| - 1].nodes[i].own;
    if HopCount(w, i, h) && d < NONE && d < h {
      WithinMore(w, i, d, h - 1);
    }
  }

  lemma {:induction false} RunHonest(w: World, r: seq<State>)
    requires IsRun(w, r) && AllHonest(w, r[0])
    ensures AllHonest(w, r[|r| - 1])
    decreases |r|
  {
    hide AllHonest, Step;
    if |r| > 1 {
      var q := r[..|r| - 1];
      RunPrefix(w, r);
      RunHonest(w, q);
      StepHonest(w, q[|q| - 1], r[|r| - 1]);
    }
  }

  lemma {:induction false} RunPrefix(w: World, r: seq<State>)
    requires IsRun(w, r) && |r| > 1
    ensures IsRun(w, r[..|r| - 1]) && Step(w, r[|r| - 2], r[|r| - 1])
  {
    hide Step;
    var q := r[..|r| - 1];
    assert forall k {:trigger q[k]} :: 1 <= k < |q| ==> q[k] == r[k] && q[k - 1] == r[k - 1];
    assert r[|r| - 1] == r[|r| - 1];
  }

  // ----- after the gateways vanish

  /** Nothing makes a gateway any more. */
  ghost predicate NoWayOut(w: World) {
    && ValidWorld(w) && w.gateways == {} && w.wired == {}
    && forall i {:trigger w.words[i]} :: 0 <= i < w.size ==>
      forall j: Ident {:trigger Override(w.words[i], j)} :: Override(w.words[i], j) != 1
  }

  function Up(m: nat): nat { if m < NONE then m + 1 else NONE }

  /** Every used row counts as at least m, or d if born at step t or later, and none is vouched for. */
  ghost predicate RowsAtLeast(n: Node, ov: Overrides, m: nat, t: nat, d: nat) {
    |n.born| == |n.table| && forall k {:trigger n.table[k]} :: 0 <= k < |n.table| && n.table[k].used ==>
      !Vouches(n.table[k], ov) && Effective(n.table[k], ov) >= m && (n.born[k] >= t ==> Effective(n.table[k], ov) >= d)
  }

  /** The parts of a round: nodes compute anew, old messages disappear, old rows disappear. */
  datatype Part = Computing | Clearing | Refreshing

  predicate SizedNode(n: Node) { Sized(n.table) && |n.born| == ROWS }

  ghost predicate NodeFloor(n: Node, ov: Overrides, m: nat, part: Part, t0: nat) {
    && RowsAtLeast(n, ov, m, t0, if part.Refreshing? then Up(m) else m)
    && m <= n.own <= NONE && (!part.Computing? || n.computed >= t0 ==> n.own >= Up(m))
  }

  /**
   * The floor is m: no row, message or node stands below it. Since step t0 of this part,
   * what has been computed, sent or declared afresh stands at least one higher, and so
   * does all that the earlier parts of the round have dealt with.
   */
  ghost predicate Floor(w: World, s: State, m: nat, part: Part, t0: nat) {
    && NoWayOut(w) && ValidState(w, s) && m <= NONE && t0 <= s.step
    && (forall i {:trigger s.nodes[i]} :: 0 <= i < w.size ==> NodeFloor(s.nodes[i], w.words[i], m, part, t0))
    && (forall x {:trigger x in s.air} :: x in s.air ==>
          x.distance >= m && (part.Refreshing? || (part.Clearing? && x.sent >= t0) ==> x.distance >= Up(m)))
  }

  /** Stamps lie in the past. */
  predicate Stamped(s: State) {
    && (forall i {:trigger s.nodes[i]} :: 0 <= i < |s.nodes| ==>
          s.nodes[i].computed < s.step && forall k {:trigger s.nodes[i].born[k]} :: 0 <= k < |s.nodes[i].born| ==>
            s.nodes[i].born[k] < s.step)
    && (forall x {:trigger x in s.air} :: x in s.air ==> x.sent < s.step)
  }

  predicate AllComputed(s: State, t0: nat) {
    forall i {:trigger s.nodes[i]} :: 0 <= i < |s.nodes| ==> s.nodes[i].computed >= t0
  }

  /** A distance computed from rows at m or higher is at least m + 1. */
  lemma {:induction false} ComputeUp(t: Table, ov: Overrides, m: nat)
    requires m <= NONE && forall k {:trigger t[k]} :: 0 <= k < |t| && t[k].used ==> Effective(t[k], ov) >= m
    ensures Up(m) <= Distance(t, ov, false) <= NONE
  {
    BestHasWitness(t, ov, |t|);
    var best := BestOf(t, ov, |t|);
    if best < NONE {
      var k :| 0 <= k < |t| && t[k].used && Effective(t[k], ov) == best - 1;
      assert Effective(t[k], ov) >= m;
    }
  }

  lemma {:induction false} NoteUp(n: Node, ov: Overrides, m: nat, t2: nat, up: nat, id: Ident, d: nat, now: nat,
      step: nat)
    requires Sized(n.table) && |n.born| == ROWS && RowsAtLeast(n, ov, m, t2, up) && m <= NONE && up <= NONE
    requires d >= m && d >= up && Override(ov, id) != 1
    ensures RowsAtLeast(NodeNote(n, id, d, now, step), ov, m, t2, up) && SizedNode(NodeNote(n, id, d, now, step))
    ensures NodeNote(n, id, d, now, step).own == n.own && NodeNote(n, id, d, now, step).computed == n.computed
  {
    hide Place;
    var s, u := Place(n.table, id), WithRow(n.table, id);
    var n' := NodeNote(n, id, d, now, step);
    assert !Vouches(u[s], ov) by {
      if FindRow(n.table, id, ROWS) >= 0 {
        assert u[s] == n.table[s];
      }
    }
    forall k {:trigger n'.table[k]} | 0 <= k < ROWS && n'.table[k].used
      ensures !Vouches(n'.table[k], ov) && Effective(n'.table[k], ov) >= m
        && (n'.born[k] >= t2 ==> Effective(n'.table[k], ov) >= up)
    {
      if k != s {
        assert n'.table[k] == n.table[k];
      }
    }
  }

  lemma {:induction false} HearUp(n: Node, ov: Overrides, m: nat, t2: nat, up: nat, id: Ident, now: nat, step: nat)
    requires Sized(n.table) && |n.born| == ROWS && RowsAtLeast(n, ov, m, t2, up) && m <= NONE && up <= NONE
      && Override(ov, id) != 1
    ensures RowsAtLeast(NodeHear(n, ov, id, now, step), ov, m, t2, up) && SizedNode(NodeHear(n, ov, id, now, step))
  {
    hide Place;
    var k := FindRow(n.table, id, ROWS);
    if k >= 0 {
      assert n.table[k].used;
    }
  }

  lemma {:induction false} ExpiredUp(n: Node, ov: Overrides, m: nat, t2: nat, up: nat, now: nat, horizon: nat,
      step: nat)
    requires Sized(n.table) && |n.born| == ROWS && RowsAtLeast(n, ov, m, t2, up) && m <= NONE
    ensures var n' := NodeCompute(n, ov, false, now, horizon, step);
            && SizedNode(n') && RowsAtLeast(n', ov, m, t2, up) && Up(m) <= n'.own <= NONE && n'.computed == step
  {
    hide BestOf;
    var t := Expired(n.table, now, horizon);
    forall k {:trigger t[k]} | 0 <= k < |t| && t[k].used
      ensures t[k] == n.table[k]
    {
    }
    ComputeUp(t, ov, m);
  }

  /** A step that changes one node and adds nothing to the air. */
  lemma {:induction false} OneNodeFloor(w: World, s: State, i: nat, n: Node, air: set<Message>, m: nat, part: Part,
      t0: nat)
    requires Floor(w, s, m, part, t0) && i < w.size && Sized(n.table) && |n.born| == ROWS
      && NodeFloor(n, w.words[i], m, part, t0) && air <= s.air
    ensures Floor(w, s.(step := s.step + 1, nodes := s.nodes[i := n], air := air), m, part, t0)
  {
    hide NodeFloor, NoWayOut;
  }

  lemma {:induction false} AnnounceFloor(w: World, s: State, i: nat, m: nat, part: Part, t0: nat)
    requires Floor(w, s, m, part, t0) && i < w.size
    ensures Floor(w, s.(step := s.step + 1, air := s.air + Sent(w, s, i)), m, part, t0)
  {
    hide RowsAtLeast;
    assert NodeFloor(s.nodes[i], w.words[i], m, part, t0);
  }

  /** Every step keeps the floor, in every part of a round. */
  lemma {:induction false} StepFloor(w: World, s: State, s': State, m: nat, part: Part, t0: nat)
    requires Floor(w, s, m, part, t0) && Step(w, s, s')
    ensures Floor(w, s', m, part, t0)
  {
    var a :| Enabled(w, s, a) && s' == Apply(w, s, a);
    ActionFloor(w, s, a, m, part, t0);
  }

  lemma {:induction false} ActionFloor(w: World, s: State, a: Action, m: nat, part: Part, t0: nat)
    requires Floor(w, s, m, part, t0) && Enabled(w, s, a)
    ensures Floor(w, Apply(w, s, a), m, part, t0)
  {
    hide RowsAtLeast, NodeNote, NodeHear, NodeCompute, NodeDiscover;
    var up := if part.Refreshing? then Up(m) else m;
    match a
    case Announce(i) =>
      AnnounceFloor(w, s, i, m, part, t0);
    case Deliver(x, now) =>
      assert NodeFloor(s.nodes[x.to], w.words[x.to], m, part, t0);
      assert Override(w.words[x.to], x.from) != 1;
      NoteUp(s.nodes[x.to], w.words[x.to], m, t0, up, x.from, x.distance, now, s.step);
      OneNodeFloor(w, s, x.to, NodeNote(s.nodes[x.to], x.from, x.distance, now, s.step), s.air - {x}, m, part, t0);
    case Lose(x) =>
    case Discover(i, j, now) =>
      assert false;
    case Hear(i, j, now) =>
      assert i < w.size;
      assert NodeFloor(s.nodes[i], w.words[i], m, part, t0);
      assert Override(w.words[i], j) != 1;
      HearUp(s.nodes[i], w.words[i], m, t0, up, j, now, s.step);
      HearOwn(s.nodes[i], w.words[i], j, now, s.step);
      OneNodeFloor(w, s, i, NodeHear(s.nodes[i], w.words[i], j, now, s.step), s.air, m, part, t0);
    case Compute(i, now, horizon) =>
      assert NodeFloor(s.nodes[i], w.words[i], m, part, t0);
      ExpiredUp(s.nodes[i], w.words[i], m, t0, up, now, horizon, s.step);
      OneNodeFloor(w, s, i, NodeCompute(s.nodes[i], w.words[i], false, now, horizon, s.step), s.air, m, part, t0);
  }

  lemma {:induction false} StepStamped(w: World, s: State, s': State)
    requires Stamped(s) && Step(w, s, s')
    ensures Stamped(s')
  {
    hide NoteRow, DiscoverRow, Expired, Distance, Place, Override;
    var a :| Enabled(w, s, a) && s' == Apply(w, s, a);
    match a
    case Announce(i) =>
    case Deliver(x, now) =>
      assert s.nodes[x.to].computed < s.step;
    case Lose(x) =>
    case Discover(i, j, now) =>
      assert s.nodes[i].computed < s.step;
    case Hear(i, j, now) =>
      assert i < w.size && s.nodes[i].computed < s.step;
    case Compute(i, now, horizon) =>
      assert s.nodes[i].computed < s.step;
  }

  lemma {:induction false} RunFloor(w: World, r: seq<State>, m: nat, part: Part, t0: nat)
    requires IsRun(w, r) && Floor(w, r[0], m, part, t0) && Stamped(r[0])
    ensures Floor(w, r[|r| - 1], m, part, t0) && Stamped(r[|r| - 1])
    decreases |r|
  {
    hide Floor, Stamped, Step;
    if |r| > 1 {
      var q := r[..|r| - 1];
      RunPrefix(w, r);
      RunFloor(w, q, m, part, t0);
      StepFloor(w, q[|q| - 1], r[|r| - 1], m, part, t0);
      StepStamped(w, q[|q| - 1], r[|r| - 1]);
    }
  }

  // ----- rounds

  predicate AirSince(s: State, t: nat) { forall x {:trigger x in s.air} :: x in s.air ==> x.sent >= t }

  /** Every row that counts has been declared since: not so those that say "none", or that the operator refuses. */
  predicate RowsSince(w: World, s: State, t: nat) {
    |s.nodes| == |w.words| && forall i {:trigger s.nodes[i]} :: 0 <= i < |s.nodes| ==>
      |s.nodes[i].born| == |s.nodes[i].table|
      && forall k {:trigger s.nodes[i].table[k]} :: 0 <= k < |s.nodes[i].table| ==>
           s.nodes[i].table[k].used && Effective(s.nodes[i].table[k], w.words[i]) < NONE ==> s.nodes[i].born[k] >= t
  }

  /**
   * A full round: every node computes; then every older message arrives or is lost; then every
   * older row that counts is declared afresh, or expires.
   */
  datatype Round = Round(computing: seq<State>, clearing: seq<State>, refreshing: seq<State>)

  function Last(r: seq<State>): State
    requires r != []
  {
    r[|r| - 1]
  }

  ghost predicate FullRound(w: World, r: Round) {
    && IsRun(w, r.computing) && IsRun(w, r.clearing) && IsRun(w, r.refreshing)
    && Last(r.computing) == r.clearing[0] && Last(r.clearing) == r.refreshing[0]
    && AllComputed(Last(r.computing), r.computing[0].step)
    && AirSince(Last(r.clearing), r.clearing[0].step)
    && RowsSince(w, Last(r.refreshing), r.refreshing[0].step)
  }

  ghost predicate Settled(w: World, s: State, m: nat) { Floor(w, s, m, Computing, s.step) && Stamped(s) }

  lemma {:induction false} NextPart(w: World, s: State, m: nat, part: Part, t0: nat)
    requires Floor(w, s, m, part, t0) && Stamped(s)
    ensures part.Computing? && AllComputed(s, t0) ==> Floor(w, s, m, Clearing, s.step)
    ensures part.Clearing? && AirSince(s, t0) ==> Floor(w, s, m, Refreshing, s.step)
    ensures part.Refreshing? && RowsSince(w, s, t0) ==> Floor(w, s, Up(m), Computing, s.step)
  {
    forall i {:trigger s.nodes[i]} | 0 <= i < w.size
      ensures RowsAtLeast(s.nodes[i], w.words[i], m, s.step, Up(m))
      ensures part.Refreshing? && RowsSince(w, s, t0) ==> RowsAtLeast(s.nodes[i], w.words[i], Up(m), s.step, Up(m))
    {
      var n := s.nodes[i];
      assert n.computed < s.step && NodeFloor(n, w.words[i], m, part, t0);
      forall k {:trigger n.table[k]} | 0 <= k < |n.table| && n.table[k].used
        ensures !Vouches(n.table[k], w.words[i]) && Effective(n.table[k], w.words[i]) >= m && n.born[k] < s.step
      {
      }
    }
  }

  /** A full round raises the floor by one. */
  lemma {:induction false} RoundRaises(w: World, r: Round, m: nat)
    requires FullRound(w, r) && Settled(w, r.computing[0], m)
    ensures Settled(w, Last(r.refreshing), Up(m))
  {
    hide Floor, Stamped, Step, AllComputed, AirSince, RowsSince;
    RunFloor(w, r.computing, m, Computing, r.computing[0].step);
    NextPart(w, Last(r.computing), m, Computing, r.computing[0].step);
    RunFloor(w, r.clearing, m, Clearing, r.clearing[0].step);
    NextPart(w, Last(r.clearing), m, Clearing, r.clearing[0].step);
    RunFloor(w, r.refreshing, m, Refreshing, r.refreshing[0].step);
    NextPart(w, Last(r.refreshing), m, Refreshing, r.refreshing[0].step);
  }

  /** One round begins where the other ends. */
  predicate Follows(p: Round, r: Round) { p.refreshing != [] && r.computing != []
      && Last(p.refreshing) == r.computing[0] }

  ghost predicate Chained(rs: seq<Round>) {
    forall j, k {:trigger rs[j], rs[k]} :: 0 <= j < k < |rs| && k == j + 1 ==> Follows(rs[j], rs[k])
  }

  ghost predicate Rounds(w: World, rs: seq<Round>) {
    Chained(rs) && forall k {:trigger rs[k]} :: 0 <= k < |rs| ==> FullRound(w, rs[k])
  }

  lemma {:induction false} AfterRounds(w: World, rs: seq<Round>, n: nat)
    requires Rounds(w, rs) && 1 <= n <= |rs| && rs[0].computing != [] && Settled(w, rs[0].computing[0], 0) && n <= NONE
    ensures rs[n - 1].refreshing != [] && Settled(w, Last(rs[n - 1].refreshing), n)
    decreases n
  {
    hide Settled, FullRound;
    assert FullRound(w, rs[n - 1]) && FullRound(w, rs[0]);
    if n > 1 {
      AfterRounds(w, rs, n - 1);
    }
    RoundLast(w, rs[n - 1]);
    RoundRaises(w, rs[n - 1], n - 1);
  }

  lemma {:induction false} RoundLast(w: World, r: Round)
    requires FullRound(w, r)
    ensures r.computing != [] && r.refreshing != []
  {
  }

  /** Any state will do to start from, whatever its tables hold. */
  predicate AnyStart(w: World, s: State) {
    ValidWorld(w) && ValidState(w, s) && Stamped(s) && forall i {:trigger s.nodes[i]} :: 0 <= i < w.size ==>
      s.nodes[i].own <= NONE
  }

  /**
   * Some row of the table counts as a gateway, by the operator's word or by a mark that the
   * operator has not overruled.
   */
  ghost predicate HasVouched(n: Node, ov: Overrides) { exists k {:trigger n.table[k]} ::
      0 <= k < |n.table| && Vouches(n.table[k], ov) }

  ghost predicate Unvouched(w: World, s: State)
    requires |s.nodes| == |w.words|
  {
    forall i {:trigger s.nodes[i]} :: 0 <= i < |s.nodes| ==> !HasVouched(s.nodes[i], w.words[i])
  }

  /**
   * Once nothing makes a gateway any more, eight full rounds, in whatever interleaving and
   * from whatever stale tables, leave every node at "none", if no row is vouched for.
   */
  lemma {:induction false} AllReachNone(w: World, rs: seq<Round>, i: nat)
    requires NoWayOut(w) && Rounds(w, rs) && |rs| == 8 && rs[0].computing != [] && AnyStart(w, rs[0].computing[0])
      && i < w.size
    requires Unvouched(w, rs[0].computing[0])
    ensures rs[7].refreshing != [] && i < |Last(rs[7].refreshing).nodes| && Last(rs[7].refreshing).nodes[i].own == NONE
  {
    hide IsRun, Vouches, Effective;
    var s := rs[0].computing[0];
    forall k {:trigger s.nodes[k]} | 0 <= k < w.size
      ensures RowsAtLeast(s.nodes[k], w.words[k], 0, s.step, 0)
    {
      assert !HasVouched(s.nodes[k], w.words[k]);
      forall j {:trigger s.nodes[k].table[j]} | 0 <= j < ROWS && s.nodes[k].table[j].used
        ensures !Vouches(s.nodes[k].table[j], w.words[k]) && s.nodes[k].born[j] < s.step
      {
        assert s.nodes[k].computed < s.step;
      }
    }
    assert Settled(w, s, 0);
    AfterRounds(w, rs, 8);
  }

  // ----- as long as a row is vouched for

  /** Since step t0 node i has computed, and if it keeps a vouched row, it stands at 1. */
  ghost predicate NearWhileVouched(w: World, s: State, i: nat, t0: nat) {
    && ValidWorld(w) && ValidState(w, s) && i < w.size && s.step >= t0
    && (s.nodes[i].computed >= t0 && HasVouched(s.nodes[i], w.words[i]) ==> s.nodes[i].own == 1)
  }

  lemma {:induction false} VouchedGivesOne(t: Table, ov: Overrides, k: nat)
    requires k < |t| && Vouches(t[k], ov)
    ensures Distance(t, ov, false) == 1
  {
    BestHasWitness(t, ov, |t|);
    assert Effective(t[k], ov) == 0;
  }

  /** Nothing but a discovery announce or the operator makes a vouched row. */
  lemma {:induction false} NoneNewlyVouched(n: Node, ov: Overrides, id: Ident, d: nat, now: nat, step: nat)
    requires SizedNode(n) && Override(ov, id) != 1
    ensures HasVouched(NodeNote(n, id, d, now, step), ov) ==> HasVouched(n, ov)
    ensures HasVouched(NodeHear(n, ov, id, now, step), ov) ==> HasVouched(n, ov)
  {
    hide FindRow, Override;
    NoteVouched(n, ov, id, d, now, step);
    HearVouched(n, ov, id, now, step);
  }

  lemma {:induction false} NoteVouched(n: Node, ov: Overrides, id: Ident, d: nat, now: nat, step: nat)
    requires SizedNode(n) && Override(ov, id) != 1
    ensures HasVouched(NodeNote(n, id, d, now, step), ov) ==> HasVouched(n, ov)
  {
    hide Place, Override;
    var t := NodeNote(n, id, d, now, step).table;
    if HasVouched(NodeNote(n, id, d, now, step), ov) {
      var k :| 0 <= k < |t| && Vouches(t[k], ov);
      if k == Place(n.table, id) {
        assert FindRow(n.table, id, ROWS) >= 0;
      }
      assert Vouches(n.table[k], ov);
    }
  }

  lemma {:induction false} HearVouched(n: Node, ov: Overrides, id: Ident, now: nat, step: nat)
    requires SizedNode(n) && Override(ov, id) != 1
    ensures HasVouched(NodeHear(n, ov, id, now, step), ov) ==> HasVouched(n, ov)
  {
    hide Place, Override;
    var t := NodeHear(n, ov, id, now, step).table;
    if HasVouched(NodeHear(n, ov, id, now, step), ov) {
      var k :| 0 <= k < |t| && Vouches(t[k], ov);
      assert Vouches(n.table[k], ov);
    }
  }

  lemma {:induction false} StepNear(w: World, s: State, s': State, i: nat, t0: nat)
    requires NoWayOut(w) && NearWhileVouched(w, s, i, t0) && Step(w, s, s')
    ensures NearWhileVouched(w, s', i, t0) && (s.nodes[i].computed >= t0 ==> s'.nodes[i].computed >= t0)
  {
    hide HasVouched, NodeNote, NodeHear, Vouches;
    var a :| Enabled(w, s, a) && s' == Apply(w, s, a);
    match a
    case Announce(_) =>
    case Deliver(x, now) =>
      assert Override(w.words[x.to], x.from) != 1;
      NoneNewlyVouched(s.nodes[x.to], w.words[x.to], x.from, x.distance, now, s.step);
      NoteOwn(s.nodes[x.to], x.from, x.distance, now, s.step);
    case Lose(_) =>
    case Discover(j, k, _) =>
      assert false;
    case Hear(j, k, now) =>
      assert j < w.size && Override(w.words[j], k) != 1;
      NoneNewlyVouched(s.nodes[j], w.words[j], k, 0, now, s.step);
      HearOwn(s.nodes[j], w.words[j], k, now, s.step);
    case Compute(j, now, horizon) =>
      ComputedNear(s.nodes[j], w.words[j], now, horizon, s.step);
  }

  lemma {:induction false} NoteOwn(n: Node, id: Ident, d: nat, now: nat, step: nat)
    requires SizedNode(n)
    ensures NodeNote(n, id, d, now, step).own == n.own && NodeNote(n, id, d, now, step).computed == n.computed
  {
  }

  lemma {:induction false} ComputedNear(n: Node, ov: Overrides, now: nat, horizon: nat, step: nat)
    ensures HasVouched(NodeCompute(n, ov, false, now, horizon, step), ov) ==>
      NodeCompute(n, ov, false, now, horizon, step).own == 1
  {
    hide Vouches, Expired;
    var t := Expired(n.table, now, horizon);
    if HasVouched(NodeCompute(n, ov, false, now, horizon, step), ov) {
      var k :| 0 <= k < |t| && Vouches(t[k], ov);
      VouchedGivesOne(t, ov, k);
    }
  }

  /** The converse: a node that has computed and keeps a vouched row stands at 1, gateways or no gateways. */
  lemma {:induction false} VouchedStaysNear(w: World, r: seq<State>, i: nat, t0: nat)
    requires NoWayOut(w) && IsRun(w, r) && NearWhileVouched(w, r[0], i, t0)
    ensures NearWhileVouched(w, Last(r), i, t0)
    ensures r[0].nodes[i].computed >= t0 ==> Last(r).nodes[i].computed >= t0
    decreases |r|
  {
    hide NearWhileVouched, NoWayOut, Step;
    if |r| > 1 {
      var q := r[..|r| - 1];
      RunPrefix(w, r);
      VouchedStaysNear(w, q, i, t0);
      StepNear(w, q[|q| - 1], r[|r| - 1], i, t0);
    }
  }

  /** After a full round, whoever still keeps a vouched row stands at 1. */
  lemma {:induction false} RoundNear(w: World, r: Round, i: nat)
    requires NoWayOut(w) && FullRound(w, r) && r.computing != [] && Stamped(r.computing[0]) && i < w.size
    ensures r.refreshing != [] && |Last(r.refreshing).nodes| == |w.words| == w.size
    ensures HasVouched(Last(r.refreshing).nodes[i], w.words[i]) ==> Last(r.refreshing).nodes[i].own == 1
  {
    hide HasVouched, Step;
    var t0 := r.computing[0].step;
    assert r.computing[0].nodes[i].computed < t0;
    VouchedStaysNear(w, r.computing, i, t0);
    VouchedStaysNear(w, r.clearing, i, t0);
    VouchedStaysNear(w, r.refreshing, i, t0);
    assert Last(r.computing).nodes[i].computed >= t0;
  }

  lemma {:induction false} RoundsStamped(w: World, rs: seq<Round>, n: nat)
    requires Rounds(w, rs) && n < |rs| && rs[0].computing != [] && Stamped(rs[0].computing[0])
    ensures rs[n].computing != [] && Stamped(rs[n].computing[0])
    decreases n
  {
    hide Stamped, FullRound, Rounds;
    if n > 0 {
      RoundsChain(w, rs, n);
      RoundsStamped(w, rs, n - 1);
      RoundStamped(w, rs[n - 1]);
    }
  }

  lemma {:induction false} RoundsChain(w: World, rs: seq<Round>, n: nat)
    requires Rounds(w, rs) && 0 < n < |rs|
    ensures FullRound(w, rs[n - 1]) && rs[n - 1].refreshing != [] && rs[n].computing != []
      && Last(rs[n - 1].refreshing) == rs[n].computing[0]
  {
    hide FullRound;
    var p, r := rs[n - 1], rs[n];
    assert FullRound(w, p) && Last(p.refreshing) == r.computing[0];
  }

  lemma {:induction false} RoundStamped(w: World, r: Round)
    requires FullRound(w, r) && r.computing != [] && Stamped(r.computing[0])
    ensures r.refreshing != [] && Stamped(Last(r.refreshing))
  {
    hide Stamped, Step, AllComputed, AirSince, RowsSince;
    RunStamped(w, r.computing);
    RunStamped(w, r.clearing);
    RunStamped(w, r.refreshing);
  }

  lemma {:induction false} RunStamped(w: World, r: seq<State>)
    requires IsRun(w, r) && Stamped(r[0])
    ensures Stamped(r[|r| - 1])
    decreases |r|
  {
    hide Stamped, Step;
    if |r| > 1 {
      var q := r[..|r| - 1];
      RunPrefix(w, r);
      RunStamped(w, q);
      StepStamped(w, q[|q| - 1], r[|r| - 1]);
    }
  }

  /**
   * So eight full rounds in which no vouched row is lost end with every node at "none" exactly
   * when there is no vouched row. And whether or not rows are lost: every node at "none" at the
   * end means that no vouched row is left.
   */
  lemma {:induction false} NoneExactlyUnvouched(w: World, rs: seq<Round>)
    requires NoWayOut(w) && Rounds(w, rs) && |rs| == 8 && rs[0].computing != [] && AnyStart(w, rs[0].computing[0])
    ensures rs[7].refreshing != [] && |Last(rs[7].refreshing).nodes| == |w.words| == |rs[0].computing[0].nodes|
    ensures var start, end := rs[0].computing[0], Last(rs[7].refreshing);
      var none := forall i {:trigger end.nodes[i]} :: 0 <= i < |end.nodes| ==> end.nodes[i].own == NONE;
      && (Unvouched(w, start) ==> none) && (none ==> Unvouched(w, end))
      && ((Unvouched(w, end) ==> Unvouched(w, start)) ==> (none <==> Unvouched(w, start)))
  {
    hide FullRound, NoWayOut, Stamped, HasVouched;
    assert FullRound(w, rs[7]);
    RoundLast(w, rs[7]);
    RoundsStamped(w, rs, 7);
    WorldValid(w);
    RoundEnds(w, rs[7]);
    var start, end := rs[0].computing[0], Last(rs[7].refreshing);
    if Unvouched(w, start) {
      forall i {:trigger end.nodes[i]} | 0 <= i < |end.nodes|
        ensures end.nodes[i].own == NONE
      {
        AllReachNone(w, rs, i);
      }
    }
    forall i {:trigger end.nodes[i]} | 0 <= i < |end.nodes|
      ensures HasVouched(end.nodes[i], w.words[i]) ==> end.nodes[i].own == 1
    {
      RoundNear(w, rs[7], i);
    }
  }

  lemma {:induction false} WorldValid(w: World)
    requires NoWayOut(w)
    ensures ValidWorld(w)
  {
  }

  lemma {:induction false} RoundEnds(w: World, r: Round)
    requires FullRound(w, r) && ValidWorld(w)
    ensures r.refreshing != [] && |Last(r.refreshing).nodes| == w.size
  {
    hide Enabled, Apply;
    RunEnds(w, r.refreshing);
  }

  lemma {:induction false} RunEnds(w: World, r: seq<State>)
    requires IsRun(w, r)
    ensures ValidState(w, Last(r))
  {
    if |r| > 1 {
      assert Step(w, r[|r| - 2], r[|r| - 1]);
    }
  }
}
