/**
 * When rows come and go on a network. A node that hears no more neighbours than the table has
 * rows loses a row by expiry alone; so from fresh tables, once each neighbour has been heard,
 * the tables are complete and stay so, and full rounds bring every distance to the truth.
 */
module GatewayRows {
  import opened Gateway
  import opened GatewayNet
  import opened GatewaySettle

  ghost function HeardBy(w: World, i: nat): set<nat> { set p | p in w.hears && p.0 == i :: p.1 }

  /** No node hears more neighbours than its table has rows. */
  ghost predicate Few(w: World) { forall i: nat {:trigger HeardBy(w, i)} :: |HeardBy(w, i)| <= ROWS }

  /** A row of j, with its mark if it should have one. */
  ghost predicate RowFor(t: Table, j: nat, mark: bool) {
    exists k {:trigger t[k]} :: 0 <= k < |t| && t[k].used && t[k].id == j && (mark ==> t[k].discoveryGw)
  }

  ghost predicate Apart(s: State) { forall i {:trigger s.nodes[i]} :: 0 <= i < |s.nodes| ==> Unique(s.nodes[i].table) }

  /** What every run from fresh tables keeps. */
  ghost predicate Proper(w: World, s: State) { AllHonest(w, s) && Apart(s) }

  // ----- a free row for every neighbour

  /** The identities of the first n rows. */
  ghost function Ids(t: Table, n: nat): set<Ident>
    requires n <= |t|
  {
    if n == 0 then {} else Ids(t, n - 1) + {t[n - 1].id}
  }

  lemma {:induction false} IdsAreRows(t: Table, n: nat)
    requires n <= |t|
    ensures forall x {:trigger x in Ids(t, n)} :: x in Ids(t, n) ==>
      exists k {:trigger t[k]} :: 0 <= k < n && t[k].id == x
  {
    if n > 0 {
      IdsAreRows(t, n - 1);
      assert t[n - 1] == t[n - 1];
    }
  }

  /** As many identities as rows, when all are in use. */
  lemma {:induction false} IdsCount(t: Table, n: nat)
    requires n <= |t| && Unique(t) && forall k {:trigger t[k]} :: 0 <= k < n ==> t[k].used
    ensures |Ids(t, n)| == n
  {
    if n > 0 {
      IdsCount(t, n - 1);
      IdsAreRows(t, n - 1);
      assert t[n - 1].used;
      assert t[n - 1].id !in Ids(t, n - 1);
    }
  }

  lemma {:induction false} NoMoreThan<T>(a: set<T>, b: set<T>)
    requires a <= b
    ensures |a| <= |b|
  {
    assert b == a + (b - a);
  }

  /** A neighbour without a row finds one free. */
  lemma {:induction false} RoomForOne(w: World, i: nat, t: Table, j: nat)
    requires Few(w) && ValidWorld(w) && Sized(t) && Unique(t) && TableHonest(w, i, t) && (i, j) in w.hears
    ensures Has(t, j) || HasFree(t)
  {
    hide Honest;
    if !Has(t, j) && !HasFree(t) {
      IdsCount(t, ROWS);
      IdsAreRows(t, ROWS);
      var ids := Ids(t, ROWS);
      forall x | x in ids
        ensures x in HeardBy(w, i) && x != j
      {
        var k :| 0 <= k < ROWS && t[k].id == x;
        assert t[k].used && RowHonest(w, i, t[k]);
        assert (i, x) in w.hears;
      }
      assert (i, j) in w.hears;
      NoMoreThan(ids + {j}, HeardBy(w, i));
    }
  }

  // ----- one table

  lemma {:induction false} RowKeeps(t: Table, id: Ident, row: Nbr, j: nat, mark: bool)
    requires Sized(t) && Unique(t) && (Has(t, id) || HasFree(t))
    requires row.used && row.id == id && (WithRow(t, id)[Place(t, id)].discoveryGw ==> row.discoveryGw)
    ensures var r := WithRow(t, id)[Place(t, id) := row];
      && Unique(r) && (RowFor(t, j, mark) ==> RowFor(r, j, mark)) && RowFor(r, id, row.discoveryGw)
  {
    hide Place;
    RowsKept(t, id);
    var u, s := WithRow(t, id), Place(t, id);
    WithRowUnique(t, id);
    var r := u[s := row];
    SetKeepsUnique(u, s, row);
    assert r[s] == row;
    if RowFor(t, j, mark) {
      var k :| 0 <= k < |t| && t[k].used && t[k].id == j && (mark ==> t[k].discoveryGw);
      assert u[k] == t[k];
      assert r[k] == if k == s then row else t[k];
      assert j == id ==> k == s;
    }
  }

  lemma {:induction false} NoteRowFor(t: Table, id: Ident, d: nat, now: nat, j: nat, mark: bool)
    requires Sized(t) && Unique(t) && (Has(t, id) || HasFree(t))
    ensures var r := NoteRow(t, id, d, now);
      Unique(r) && (RowFor(t, j, mark) ==> RowFor(r, j, mark)) && RowFor(r, id, false)
  {
    hide Place, WithRow, Unique;
    RowKeeps(t, id, WithRow(t, id)[Place(t, id)].(declared := d, heard := now), j, mark);
  }

  lemma {:induction false} DiscoverRowFor(t: Table, id: Ident, now: nat, j: nat, mark: bool)
    requires Sized(t) && Unique(t) && (Has(t, id) || HasFree(t))
    ensures var r := DiscoverRow(t, id, now);
      Unique(r) && (RowFor(t, j, mark) ==> RowFor(r, j, mark)) && RowFor(r, id, true)
  {
    hide Place, WithRow, Unique;
    RowKeeps(t, id, WithRow(t, id)[Place(t, id)].(discoveryGw := true, heard := now), j, mark);
  }

  lemma {:induction false} HearRowFor(n: Node, ov: Overrides, id: Ident, now: nat, step: nat, j: nat, mark: bool)
    requires SizedNode(n) && Unique(n.table) && (Has(n.table, id) || HasFree(n.table))
    ensures var r := NodeHear(n, ov, id, now, step).table;
      Unique(r) && (RowFor(n.table, j, mark) ==> RowFor(r, j, mark))
  {
    hide Place;
    var t, k := n.table, FindRow(n.table, id, ROWS);
    if k >= 0 {
      var r := NodeHear(n, ov, id, now, step).table;
      assert forall m {:trigger r[m]} :: 0 <= m < ROWS ==>
          r[m].used == t[m].used && r[m].id == t[m].id && r[m].discoveryGw == t[m].discoveryGw;
      if RowFor(t, j, mark) {
        var m :| 0 <= m < |t| && t[m].used && t[m].id == j && (mark ==> t[m].discoveryGw);
        assert r[m].used;
      }
    } else if Override(ov, id) >= 0 {
      RowKeeps(t, id, NewRow(id).(heard := now), j, mark);
      assert WithRow(t, id)[Place(t, id) := NewRow(id).(heard := now)] == t[Place(t, id) := NewRow(id).(heard := now)];
    }
  }

  // ----- steps

  /** The step leaves row k of node i in use, if it was. */
  predicate RowStays(s: State, s': State, i: nat, k: nat)
    requires i < |s.nodes| == |s'.nodes| && k < |s.nodes[i].table| == |s'.nodes[i].table|
  {
    s.nodes[i].table[k].used ==> s'.nodes[i].table[k].used
  }

  /** No row expires. */
  ghost predicate Unexpired(s: State, s': State) {
    |s.nodes| == |s'.nodes| && forall i {:trigger s.nodes[i]} :: 0 <= i < |s.nodes| ==>
      |s.nodes[i].table| == |s'.nodes[i].table|
      && forall k {:trigger s.nodes[i].table[k]} :: 0 <= k < |s.nodes[i].table| ==> RowStays(s, s', i, k)
  }

  /** Only a computation makes rows expire, and just those not heard within the horizon. */
  lemma {:induction false} ExpiryOnly(w: World, s: State, a: Action, i: nat, k: nat)
    requires ValidWorld(w) && ValidState(w, s) && Enabled(w, s, a) && i < w.size && k < ROWS
      && s.nodes[i].table[k].used
    ensures var r := Apply(w, s, a).nodes[i].table[k];
      r.used <==> !(a.Compute? && a.i == i && !Recent(s.nodes[i].table[k], a.now, a.horizon))
  {
    hide Place, FreeRow, OldestOf, BestOf;
  }

  /**
   * A row is lost by expiry alone: in every step in which none expires, each node keeps a row,
   * mark included, of every neighbour that it had one of.
   */
  lemma {:induction false} StepKeepsRows(w: World, s: State, s': State, i: nat, j: nat, mark: bool)
    requires Few(w) && Proper(w, s) && Step(w, s, s') && Unexpired(s, s') && i < w.size
    ensures Unique(s'.nodes[i].table) && (RowFor(s.nodes[i].table, j, mark) ==> RowFor(s'.nodes[i].table, j, mark))
  {
    hide TableHonest, Honest, NoteRow, DiscoverRow, NodeHear, RowFor, Distance;
    var a :| Enabled(w, s, a) && s' == Apply(w, s, a);
    var t := s.nodes[i].table;
    assert Unique(t);
    match a
    case Announce(_) =>
    case Lose(_) =>
    case Deliver(m, now) =>
      if m.to == i {
        RoomForOne(w, i, t, m.from);
        NoteRowFor(t, m.from, Declared(m.distance), now, j, mark);
      }
    case Discover(i', j', now) =>
      if i' == i {
        RoomForOne(w, i, t, j');
        DiscoverRowFor(t, j', now, j, mark);
      }
    case Hear(i', j', now) =>
      if i' == i {
        RoomForOne(w, i, t, j');
        HearRowFor(s.nodes[i], w.words[i], j', now, s.step, j, mark);
      }
    case Compute(i', now, horizon) =>
      if i' == i {
        ExpiredUnique(t, now, horizon);
        NoneExpired(w, s, s', i, now, horizon, j, mark);
      }
  }

  lemma {:induction false} NoneExpired(w: World, s: State, s': State, i: nat, now: nat, horizon: nat, j: nat,
      mark: bool)
    requires Unexpired(s, s') && i < |s.nodes| && s'.nodes[i].table == Expired(s.nodes[i].table, now, horizon)
    ensures RowFor(s.nodes[i].table, j, mark) ==> RowFor(s'.nodes[i].table, j, mark)
  {
    var t, r := s.nodes[i].table, s'.nodes[i].table;
    if RowFor(t, j, mark) {
      var k :| 0 <= k < |t| && t[k].used && t[k].id == j && (mark ==> t[k].discoveryGw);
      assert RowStays(s, s', i, k);
      assert r[k] == t[k];
    }
  }

  // ----- runs

  ghost predicate UnexpiredRun(r: seq<State>) {
    forall k {:trigger r[k]} :: 1 <= k < |r| ==> Unexpired(r[k - 1], r[k])
  }

  /** Along a run, the states are proper and a row once made is kept. */
  lemma {:induction false} RunKeepsRows(w: World, r: seq<State>, n: nat, i: nat, j: nat, mark: bool)
    requires Few(w) && IsRun(w, r) && UnexpiredRun(r) && n < |r| && Proper(w, r[0]) && i < w.size
    ensures Proper(w, Last(r)) && i < |r[n].nodes| == |Last(r).nodes|
    ensures RowFor(r[n].nodes[i].table, j, mark) ==> RowFor(Last(r).nodes[i].table, j, mark)
    decreases |r|
  {
    hide AllHonest, Step, Unexpired, RowFor, Unique;
    RunProper(w, r);
    RunSize(w, r, n);
    RunSize(w, r, |r| - 1);
    if n < |r| - 1 {
      var q := r[..|r| - 1];
      PrefixUnexpired(w, r);
      RunKeepsRows(w, q, n, i, j, mark);
      StepKeepsRows(w, Last(q), Last(r), i, j, mark);
    }
  }

  lemma {:induction false} PrefixUnexpired(w: World, r: seq<State>)
    requires IsRun(w, r) && UnexpiredRun(r) && |r| > 1
    ensures var q := r[..|r| - 1];
      IsRun(w, q) && UnexpiredRun(q) && Step(w, Last(q), Last(r)) && Unexpired(Last(q), Last(r))
  {
    hide Step, Unexpired;
    RunPrefix(w, r);
    var q := r[..|r| - 1];
    assert forall k {:trigger q[k]} :: 1 <= k < |q| ==> q[k] == r[k] && q[k - 1] == r[k - 1];
    assert r[|r| - 1] == r[|r| - 1];
  }

  lemma {:induction false} RunSize(w: World, r: seq<State>, n: nat)
    requires IsRun(w, r) && n < |r|
    ensures ValidState(w, r[n])
  {
    if n > 0 {
      assert Step(w, r[n - 1], r[n]);
    }
  }

  lemma {:induction false} RunProper(w: World, r: seq<State>)
    requires Few(w) && IsRun(w, r) && UnexpiredRun(r) && Proper(w, r[0])
    ensures Proper(w, Last(r))
    decreases |r|
  {
    hide AllHonest, Step, Unexpired, Unique;
    RunSize(w, r, |r| - 1);
    if |r| > 1 {
      var q := r[..|r| - 1];
      PrefixUnexpired(w, r);
      RunProper(w, q);
      StepHonest(w, Last(q), Last(r));
      forall i {:trigger Last(r).nodes[i]} | 0 <= i < w.size
        ensures Unique(Last(r).nodes[i].table)
      {
        StepKeepsRows(w, Last(q), Last(r), i, 0, false);
      }
    }
  }

  // ----- complete tables

  lemma {:induction false} RowIsFor(w: World, t: Table, j: nat)
    ensures HasRow(w, t, j) <==> RowFor(t, j, j in w.wired)
  {
  }

  /** Complete tables stay so along a run in which no row expires. */
  lemma {:induction false} StaysComplete(w: World, r: seq<State>)
    requires Few(w) && IsRun(w, r) && UnexpiredRun(r) && Proper(w, r[0]) && Complete(w, r[0])
    ensures AllComplete(w, r) && Proper(w, Last(r)) && Complete(w, Last(r))
    decreases |r|
  {
    hide AllHonest, Apart, Step, Unexpired, HasRow, Few, RowFor;
    RunProper(w, r);
    RunSize(w, r, |r| - 1);
    if |r| > 1 {
      var q := r[..|r| - 1];
      PrefixUnexpired(w, r);
      StaysComplete(w, q);
      forall i {:trigger Last(r).nodes[i]} | 0 <= i < w.size
        ensures KeepsRows(w, i, Last(r).nodes[i].table)
      {
        RunSize(w, q, |q| - 1);
        assert KeepsRows(w, i, Last(q).nodes[i].table);
        forall j: nat {:trigger (i, j) in w.hears} | (i, j) in w.hears
          ensures HasRow(w, Last(r).nodes[i].table, j)
        {
          assert HasRow(w, Last(q).nodes[i].table, j);
          RowIsFor(w, Last(q).nodes[i].table, j);
          RowIsFor(w, Last(r).nodes[i].table, j);
          RunProper(w, q);
          StepKeepsRows(w, Last(q), Last(r), i, j, j in w.wired);
        }
      }
      forall k {:trigger r[k]} | 0 <= k < |r|
        ensures Complete(w, r[k])
      {
        assert k < |q| ==> Complete(w, q[k]);
      }
    }
  }

  /** In this step node i hears what makes it keep a row of j. */
  predicate Introduces(w: World, a: Action, i: nat, j: nat) {
    if j in w.wired then a.Discover? && a.i == i && a.j == j else a.Deliver? && a.m.to == i && a.m.from == j
  }

  ghost predicate Introduced(w: World, r: seq<State>, i: nat, j: nat) {
    exists n, a {:trigger r[n], Introduces(w, a, i, j)} :: 1 <= n < |r| && ValidWorld(w) && ValidState(w, r[n - 1])
      && Enabled(w, r[n - 1], a) && r[n] == Apply(w, r[n - 1], a) && Introduces(w, a, i, j)
  }

  /** Every node hears each of its neighbours, at least once: a declaration, or the mark of a wired one. */
  ghost predicate AllIntroduced(w: World, r: seq<State>) {
    forall i: nat, j: nat {:trigger (i, j) in w.hears} :: (i, j) in w.hears ==> Introduced(w, r, i, j)
  }

  lemma {:induction false} IntroducedRow(w: World, r: seq<State>, i: nat, j: nat) returns (n: nat)
    requires Few(w) && IsRun(w, r) && UnexpiredRun(r) && Proper(w, r[0]) && (i, j) in w.hears && Introduced(w, r, i, j)
    ensures i < w.size && 1 <= n < |r| && i < |r[n].nodes| && RowFor(r[n].nodes[i].table, j, j in w.wired)
  {
    hide AllHonest, Step, Unexpired, RowFor, NoteRow, DiscoverRow;
    var a: Action;
    n, a :| 1 <= n < |r| && ValidState(w, r[n - 1]) && Enabled(w, r[n - 1], a) && r[n] == Apply(w, r[n - 1], a)
      && Introduces(w, a, i, j);
    ProperBefore(w, r, n);
    assert (i, j).0 < w.size;
    var t := r[n - 1].nodes[i].table;
    ProperTable(w, r[n - 1], i);
    RoomForOne(w, i, t, j);
    if j in w.wired {
      DiscoverRowFor(t, j, a.now, j, true);
    } else {
      NoteRowFor(t, j, Declared(a.m.distance), a.now, j, false);
    }
  }

  lemma {:induction false} ProperBefore(w: World, r: seq<State>, n: nat)
    requires Few(w) && IsRun(w, r) && UnexpiredRun(r) && Proper(w, r[0]) && 1 <= n < |r|
    ensures Proper(w, r[n - 1])
  {
    hide AllHonest, Step, Unexpired, Proper, Few;
    var q := r[..n];
    assert forall k {:trigger q[k]} :: 0 <= k < n ==> q[k] == r[k];
    assert forall k {:trigger q[k]} :: 1 <= k < n ==> q[k - 1] == r[k - 1];
    RunProper(w, q);
  }

  lemma {:induction false} ProperTable(w: World, s: State, i: nat)
    requires Proper(w, s) && i < w.size
    ensures ValidState(w, s) && Sized(s.nodes[i].table) && Unique(s.nodes[i].table)
      && TableHonest(w, i, s.nodes[i].table)
  {
    hide TableHonest;
  }

  /** Once every neighbour has been heard, the tables are complete. */
  lemma {:induction false} FillsUp(w: World, r: seq<State>)
    requires Few(w) && IsRun(w, r) && UnexpiredRun(r) && Proper(w, r[0]) && AllIntroduced(w, r)
    ensures Proper(w, Last(r)) && Complete(w, Last(r))
  {
    hide AllHonest, Apart, Step, Unexpired, HasRow, RowFor, Introduced, Few;
    RunProper(w, r);
    RunSize(w, r, |r| - 1);
    forall i {:trigger Last(r).nodes[i]} | 0 <= i < w.size
      ensures KeepsRows(w, i, Last(r).nodes[i].table)
    {
      forall j: nat {:trigger (i, j) in w.hears} | (i, j) in w.hears
        ensures HasRow(w, Last(r).nodes[i].table, j)
      {
        assert Introduced(w, r, i, j);
        var n := IntroducedRow(w, r, i, j);
        RunKeepsRows(w, r, n, i, j, j in w.wired);
        RowIsFor(w, Last(r).nodes[i].table, j);
      }
    }
  }

  // ----- from fresh tables to the truth

  /** A full round in which no row expires and every row is declared afresh. */
  ghost predicate Patient(w: World, r: Round) {
    && FullRound(w, r) && UnexpiredRun(r.computing) && UnexpiredRun(r.clearing) && UnexpiredRun(r.refreshing)
    && AllRowsSince(Last(r.refreshing), r.refreshing[0].step)
  }

  lemma {:induction false} PatientIsLossless(w: World, r: Round)
    requires Few(w) && Patient(w, r) && Proper(w, r.computing[0]) && Complete(w, r.computing[0])
    ensures Lossless(w, r) && Proper(w, Last(r.refreshing)) && Complete(w, Last(r.refreshing))
  {
    hide Proper, Complete, IsRun, UnexpiredRun, AllComplete, AllComputed, AirSince, RowsSince, AllRowsSince, Few;
    RoundParts(w, r);
    StaysComplete(w, r.computing);
    StaysComplete(w, r.clearing);
    StaysComplete(w, r.refreshing);
  }

  lemma {:induction false} RoundParts(w: World, r: Round)
    requires FullRound(w, r)
    ensures r.computing != [] && r.clearing != [] && r.refreshing != []
  {
  }

  lemma {:induction false} AllLossless(w: World, rs: seq<Round>, n: nat)
    requires Few(w) && Rounds(w, rs) && (forall k {:trigger rs[k]} :: 0 <= k < |rs| ==> Patient(w, rs[k]))
    requires n < |rs| && rs[0].computing != [] && Proper(w, rs[0].computing[0]) && Complete(w, rs[0].computing[0])
    ensures Lossless(w, rs[n]) && rs[n].refreshing != [] && Proper(w, Last(rs[n].refreshing))
      && Complete(w, Last(rs[n].refreshing))
  {
    hide Proper, Complete, FullRound, Lossless, Patient, Few;
    assert FullRound(w, rs[n]) && Patient(w, rs[n]);
    RoundParts(w, rs[n]);
    if n > 0 {
      AllLossless(w, rs, n - 1);
      RoundsChain(w, rs, n);
    }
    PatientIsLossless(w, rs[n]);
  }

  lemma {:induction false} FreshProper(w: World, s: State)
    requires ValidWorld(w) && Fresh(w, s)
    ensures Proper(w, s)
  {
    hide AllHonest;
    FreshHonest(w, s);
    forall i {:trigger s.nodes[i]} | 0 <= i < |s.nodes|
      ensures Unique(s.nodes[i].table)
    {
      var t := s.nodes[i].table;
      assert forall k {:trigger t[k]} :: 0 <= k < ROWS ==> !t[k].used;
    }
  }

  /**
   * From fresh tables, on any network in which no node hears more than 48 neighbours: any run in
   * which every neighbour is heard, and then eight full rounds, in whatever interleaving of
   * announces, losses and computations, as long as no row expires. Every node is then at exactly
   * its true hop count, capped at NONE.
   */
  lemma {:induction false} SettlesFromFresh(w: World, warm: seq<State>, rs: seq<Round>, i: nat, h: nat)
    requires Few(w) && IsRun(w, warm) && Fresh(w, warm[0]) && AnyStart(w, warm[0])
    requires UnexpiredRun(warm) && AllIntroduced(w, warm)
    requires Rounds(w, rs) && |rs| == 8 && forall k {:trigger rs[k]} :: 0 <= k < |rs| ==> Patient(w, rs[k])
    requires rs[0].computing != [] && rs[0].computing[0] == Last(warm) && i < w.size
    ensures rs[7].refreshing != [] && i < |Last(rs[7].refreshing).nodes|
    ensures var own := Last(rs[7].refreshing).nodes[i].own;
      && (forall d: nat {:trigger Within(w, i, d)} :: d < NONE ==> (own <= d <==> Within(w, i, d)))
      && (HopCount(w, i, h) ==> own == if h < NONE then h else NONE)
      && ((forall d: nat {:trigger Within(w, i, d)} :: !Within(w, i, d)) ==> own == NONE)
  {
    hide Within, Lossless, Patient, FullRound, Step, Stamped, Few, Complete, AllIntroduced;
    FreshProper(w, warm[0]);
    FillsUp(w, warm);
    RunStamped(w, warm);
    forall k {:trigger rs[k]} | 0 <= k < |rs|
      ensures Lossless(w, rs[k])
    {
      AllLossless(w, rs, k);
    }
    StartAfter(w, warm);
    SettlesAtTruth(w, rs, i, h);
  }

  lemma {:induction false} StartAfter(w: World, r: seq<State>)
    requires IsRun(w, r) && Stamped(Last(r)) && AnyStart(w, r[0])
    ensures AnyStart(w, Last(r))
  {
    hide Stamped, Step, AllHonest;
    OwnsWithin(w, r);
    RunSize(w, r, |r| - 1);
  }

  lemma {:induction false} OwnsWithin(w: World, r: seq<State>)
    requires IsRun(w, r) && forall i {:trigger r[0].nodes[i]} :: 0 <= i < w.size ==> r[0].nodes[i].own <= NONE
    ensures |Last(r).nodes| == w.size && forall i {:trigger Last(r).nodes[i]} :: 0 <= i < w.size ==>
      Last(r).nodes[i].own <= NONE
    decreases |r|
  {
    hide Step;
    RunSize(w, r, |r| - 1);
    if |r| > 1 {
      var q := r[..|r| - 1];
      RunPrefix(w, r);
      assert q[0] == r[0];
      OwnsWithin(w, q);
      StepOwn(w, Last(q), Last(r));
    }
  }

  lemma {:induction false} StepOwn(w: World, s: State, s': State)
    requires Step(w, s, s') && forall i {:trigger s.nodes[i]} :: 0 <= i < w.size ==> s.nodes[i].own <= NONE
    ensures |s'.nodes| == w.size && forall i {:trigger s'.nodes[i]} :: 0 <= i < w.size ==> s'.nodes[i].own <= NONE
  {
    hide NoteRow, DiscoverRow, Expired, Place;
    var a :| Enabled(w, s, a) && s' == Apply(w, s, a);
    match a
    case Hear(i, j, now) =>
      assert i < w.size;
      HearOwn(s.nodes[i], w.words[i], j, now, s.step);
    case Discover(i, j, now) =>
      assert i < w.size;
    case _ =>
  }
}
