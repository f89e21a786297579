/**
 * A network on which "once the gateways are gone all nodes come to none" fails: two nodes,
 * of which node 0 hears node 1. One discovery announce of node 1's wired interface is all
 * that ever speaks for a way out.
 */
module GatewayStale {
  import opened Gateway
  import opened GatewayNet

  function WiredWorld(): World { World(2, {(0, 1)}, {}, {1}, [map[], map[]]) }

  /** The same network without the wired interface. */
  function BareWorld(): World { World(2, {(0, 1)}, {}, {}, [map[], map[]]) }

  function Blank(): Table { seq(ROWS, _ => Nbr(false, 0, 0, false, 0)) }

  function Marked(d: nat): Table { Blank()[0 := Nbr(true, 1, d, true, 0)] }

  function Start(): State {
    var n := Node(Blank(), seq(ROWS, _ => 0), NONE, 0);
    State(1, [n, n], {})
  }

  /** Node 0 keeps the marked row of node 1, node 1 keeps none, and nothing is on the air. */
  ghost predicate Keeping(s: State) {
    && |s.nodes| == 2 && s.air == {} && |s.nodes[0].born| == |s.nodes[1].born| == ROWS
    && (exists d: nat {:trigger Marked(d)} :: s.nodes[0].table == Marked(d)) && s.nodes[1].table == Blank()
  }

  lemma {:induction false} BareBare()
    ensures NoWayOut(BareWorld())
  {
    var w := BareWorld();
    assert forall i {:trigger w.words[i]} :: 0 <= i < w.size ==> w.words[i] == map[];
  }

  /** In the wired world: one discovery announce. */
  lemma {:induction false} Discovered() returns (s: State)
    ensures IsRun(WiredWorld(), [Start(), s]) && Fresh(WiredWorld(), Start()) && Keeping(s) && AnyStart(BareWorld(), s)
  {
    hide DiscoverRow, FindRow, Place, Blank, Marked;
    var w, a := WiredWorld(), Discover(0, 1, 0);
    BareBare();
    BlankRows();
    assert Enabled(w, Start(), a);
    s := Apply(w, Start(), a);
    assert Step(w, Start(), s);
    assert s.nodes[0].table == Marked(UNKNOWN);
  }

  lemma {:induction false} BlankRows()
    ensures |Blank()| == ROWS && forall k {:trigger Blank()[k]} :: 0 <= k < ROWS ==> !Blank()[k].used
    ensures DiscoverRow(Blank(), 1, 0) == Marked(UNKNOWN) && Place(Blank(), 1) == 0 && FindRow(Blank(), 1, ROWS) == -1
  {
    hide FreeRow, OldestOf;
    FirstFree(ROWS);
    assert FindRow(Blank(), 1, ROWS) == -1;
  }

  lemma {:induction false} FirstFree(i: nat)
    requires 1 <= i <= ROWS
    ensures FreeRow(Blank(), i) == 0
  {
    if i > 1 {
      FirstFree(i - 1);
    }
  }

  lemma {:induction false} MarkedPlace(d: nat, i: nat)
    requires 1 <= i <= ROWS
    ensures FindRow(Marked(d), 1, i) == 0
  {
    if i > 1 {
      MarkedPlace(d, i - 1);
    }
  }

  /** Computing and declaring change nothing of the mark. */
  lemma {:induction false} MarkStays(d: nat, e: nat)
    ensures Expired(Marked(d), 0, 0) == Marked(d) && Expired(Blank(), 0, 0) == Blank()
    ensures Distance(Marked(d), map[], false) == 1
    ensures Place(Marked(d), 1) == 0 && NoteRow(Marked(d), 1, e, 0) == Marked(e)
  {
    hide FindRow, BestOf, OldestOf, FreeRow;
    MarkedPlace(d, ROWS);
    assert Marked(d)[0] == Nbr(true, 1, d, true, 0);
    VouchedGivesOne(Marked(d), map[], 0);
  }

  /** Node i computes, in the bare world. */
  lemma {:induction false} ComputeStep(s: State, i: nat) returns (s': State)
    requires Keeping(s) && i < 2
    ensures s' == Apply(BareWorld(), s, Compute(i, 0, 0)) && Step(BareWorld(), s, s') && Keeping(s')
    ensures s'.nodes[i].computed == s.step && s'.nodes[1 - i] == s.nodes[1 - i] && (i == 0 ==> s'.nodes[0].own == 1)
  {
    hide Marked, Blank, Expired, Distance;
    var w := BareWorld();
    KeepingIs(s);
    var d: nat :| s.nodes[0].table == Marked(d);
    MarkStays(d, d);
    assert Enabled(w, s, Compute(i, 0, 0));
    s' := Apply(w, s, Compute(i, 0, 0));
  }

  /** Node 1 announces, and node 0 takes it in. */
  lemma {:induction false} Declare(s: State) returns (s1: State, s2: State)
    requires Keeping(s)
    ensures Step(BareWorld(), s, s1) && Step(BareWorld(), s1, s2) && Keeping(s2)
    ensures s2.nodes[0].own == s.nodes[0].own && RowsSince(BareWorld(), s2, s.step)
  {
    hide Expired, Distance, NoteRow, Place, Effective;
    var w, o := BareWorld(), s.nodes[1].own;
    BareBare();
    var d: nat :| s.nodes[0].table == Marked(d);
    MarkStays(d, Declared(o));
    var m := Message(1, 0, o, s.step);
    assert Enabled(w, s, Announce(1));
    s1 := Apply(w, s, Announce(1));
    assert (0, 1) in w.hears;
    assert Sent(w, s, 1) == {m};
    assert Enabled(w, s1, Deliver(m, 0));
    s2 := Apply(w, s1, Deliver(m, 0));
    assert s2.nodes[0].table == Marked(Declared(o)) && s2.nodes[0].born[0] == s.step + 1;
  }

  /** Both nodes compute, and node 1 declares: a full round, and nothing is forgotten. */
  lemma {:induction false} RoundKeepsMark(s: State) returns (r: Round)
    requires Keeping(s)
    ensures FullRound(BareWorld(), r) && r.computing[0] == s && Keeping(Last(r.refreshing))
      && Last(r.refreshing).nodes[0].own == 1
  {
    hide Step, Keeping, RowsSince;
    var w := BareWorld();
    var s1 := ComputeStep(s, 0);
    var s2 := ComputeStep(s1, 1);
    var s3, s4 := Declare(s2);
    r := Round([s, s1, s2], [s2], [s2, s3, s4]);
    KeepingIs(s);
    KeepingIs(s2);
    assert ValidState(w, s) && ValidState(w, s2) && s1.step == s.step + 1;
  }

  lemma {:induction false} KeepingIs(s: State)
    requires Keeping(s)
    ensures ValidWorld(BareWorld()) && ValidState(BareWorld(), s) && s.air == {} && |s.nodes| == 2
  {
    BareBare();
  }

  lemma {:induction false} OneRound(w: World, r: Round)
    requires FullRound(w, r)
    ensures Rounds(w, [r])
  {
    hide FullRound;
  }

  lemma {:induction false} RoundsSnoc(w: World, rs: seq<Round>, r: Round)
    requires Rounds(w, rs) && FullRound(w, r) && rs != [] && Follows(rs[|rs| - 1], r)
    ensures Rounds(w, rs + [r])
  {
    hide FullRound, Follows;
    var q := rs + [r];
    assert forall k {:trigger q[k]} :: 0 <= k < |q| ==> q[k] == if k < |rs| then rs[k] else r;
  }

  /**
   * From fresh tables, one step while the interface is wired, and then any number of full
   * rounds without it: at the end of all of them node 0 still stands at 1, with no way out
   * anywhere.
   */
  lemma {:induction false} StaysAtOne(n: nat) returns (before: seq<State>, rs: seq<Round>)
    requires n > 0
    ensures IsRun(WiredWorld(), before) && Fresh(WiredWorld(), before[0])
    ensures NoWayOut(BareWorld()) && Rounds(BareWorld(), rs) && |rs| == n
    ensures rs[0].computing != [] && Last(before) == rs[0].computing[0] && AnyStart(BareWorld(), rs[0].computing[0])
    ensures rs[n - 1].refreshing != [] && Keeping(Last(rs[n - 1].refreshing))
      && Last(rs[n - 1].refreshing).nodes[0].own == 1
    decreases n
  {
    hide IsRun, Fresh, AnyStart, Keeping, FullRound, NoWayOut, Rounds;
    BareBare();
    if n == 1 {
      var s := Discovered();
      var r := RoundKeepsMark(s);
      RoundLast(BareWorld(), r);
      before, rs := [Start(), s], [r];
      OneRound(BareWorld(), r);
    } else {
      before, rs := StaysAtOne(n - 1);
      var r := RoundKeepsMark(Last(rs[n - 2].refreshing));
      RoundLast(BareWorld(), r);
      RoundsSnoc(BareWorld(), rs, r);
      rs := rs + [r];
    }
  }
}
