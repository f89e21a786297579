/**
 * How far a node is from a way out of its community: the table of what direct neighbours
 * declare, and the distance computed from it.
 */
module Gateway {
  const NONE := 8
  const UNKNOWN := 255
  const ROWS := 48
  const REAIR_MIN := 60
  const WORD := 0x1_0000_0000

  /** A neighbour's identity hash. */
  type Ident = nat

  datatype Nbr = Nbr(used: bool, id: Ident, declared: nat, discoveryGw: bool, heard: nat)

  type Table = seq<Nbr>

  /** The operator's word on each neighbour: 1 a gateway, 0 never counted, anything else no word. */
  type Overrides = map<Ident, int>

  function Override(ov: Overrides, id: Ident): int { if id in ov then ov[id] else -1 }

  /** Seconds between two readings of a 32-bit clock. */
  function Age(now: nat, heard: nat): nat { (now - heard) % WORD }

  /** heard_s compared as the source does, by the sign of a 32-bit difference. */
  predicate Older(a: Nbr, b: Nbr) { (a.heard - b.heard) % WORD >= WORD / 2 }

  function Effective(n: Nbr, ov: Overrides): nat {
    if Override(ov, n.id) == 1 then 0
    else if Override(ov, n.id) == 0 then UNKNOWN
    else if n.discoveryGw then 0
    else n.declared
  }

  predicate Sized(t: Table) { |t| == ROWS }

  /** No identity has two rows. */
  predicate Unique(t: Table) {
    forall i, j {:trigger t[i], t[j]} :: 0 <= i < j < |t| && t[i].used && t[j].used ==> t[i].id != t[j].id
  }

  predicate Has(t: Table, id: Ident) {
    exists i {:trigger t[i]} :: 0 <= i < |t| && t[i].used && t[i].id == id
  }

  function NewRow(id: Ident): Nbr { Nbr(true, id, UNKNOWN, false, 0) }

  /** The oldest of the used rows among the first i, the earliest if several are. */
  function OldestOf(t: Table, i: nat): (k: int)
    requires i <= |t|
    ensures -1 <= k < i && (k >= 0 ==> t[k].used)
    ensures k == -1 <==> forall j {:trigger t[j]} :: 0 <= j < i ==> !t[j].used
  {
    if i == 0 then -1
    else
      var k := OldestOf(t, i - 1);
      if t[i - 1].used && (k == -1 || Older(t[i - 1], t[k])) then i - 1 else k
  }

  /** While the clock has not wrapped, no row was heard before the one evicted. */
  lemma {:induction false} OldestIsLeast(t: Table, i: nat, j: nat)
    requires j < i <= |t| && t[j].used
    requires forall m {:trigger t[m]} :: 0 <= m < i ==> t[m].heard < WORD / 2
    ensures OldestOf(t, i) >= 0 && t[OldestOf(t, i)].heard <= t[j].heard
  {
    var k := OldestOf(t, i - 1);
    if j < i - 1 {
      OldestIsLeast(t, i - 1, j);
      assert t[k].heard < WORD / 2 && t[i - 1].heard < WORD / 2;
    } else if k >= 0 {
      assert t[k].heard < WORD / 2 && t[i - 1].heard < WORD / 2;
    }
  }

  /** The row of this identity among the first i, if there is one. */
  function FindRow(t: Table, id: Ident, i: nat): (k: int)
    requires i <= |t|
    ensures -1 <= k < i && (k >= 0 ==> t[k].used && t[k].id == id)
    ensures k == -1 ==> forall j {:trigger t[j]} :: 0 <= j < i && t[j].used ==> t[j].id != id
  {
    if i == 0 then -1
    else
      var k := FindRow(t, id, i - 1);
      if k >= 0 then k else if t[i - 1].used && t[i - 1].id == id then i - 1 else -1
  }

  /** The first free row among the first i. */
  function FreeRow(t: Table, i: nat): (k: int)
    requires i <= |t|
    ensures -1 <= k < i && (k >= 0 ==> !t[k].used)
    ensures k == -1 ==> forall j {:trigger t[j]} :: 0 <= j < i ==> t[j].used
  {
    if i == 0 then -1
    else
      var k := FreeRow(t, i - 1);
      if k >= 0 then k else if !t[i - 1].used then i - 1 else -1
  }

  /** The row an identity has or gets: its own, else a free one, else the oldest. */
  function Place(t: Table, id: Ident): (s: nat)
    requires Sized(t)
    ensures s < ROWS
  {
    var k, f, o := FindRow(t, id, ROWS), FreeRow(t, ROWS), OldestOf(t, ROWS);
    assert f == -1 ==> t[0].used;
    if k >= 0 then k else if f >= 0 then f else o
  }

  function WithRow(t: Table, id: Ident): (r: Table)
    requires Sized(t)
    ensures Sized(r) && r[Place(t, id)].used && r[Place(t, id)].id == id
  {
    if FindRow(t, id, ROWS) >= 0 then t else t[Place(t, id) := NewRow(id)]
  }

  /** The table after a declaration. */
  function NoteRow(t: Table, id: Ident, d: nat, now: nat): (r: Table)
    requires Sized(t)
    ensures Sized(r)
  {
    var u, s := WithRow(t, id), Place(t, id);
    u[s := u[s].(declared := d, heard := now)]
  }

  /** The table after a discovery announce. */
  function DiscoverRow(t: Table, id: Ident, now: nat): (r: Table)
    requires Sized(t)
    ensures Sized(r)
  {
    var u, s := WithRow(t, id), Place(t, id);
    u[s := u[s].(discoveryGw := true, heard := now)]
  }

  predicate HasFree(t: Table) { exists k {:trigger t[k]} :: 0 <= k < |t| && !t[k].used }

  /**
   * What a row for an identity costs. One that has a row gets no other. As long as a row is
   * free, a new identity takes one that was free and every row in use stays. Only in a full
   * table does it cost a row, and then one heard no later than any other.
   */
  lemma {:induction false} RowsKept(t: Table, id: Ident)
    requires Sized(t)
    ensures Has(WithRow(t, id), id)
    ensures Has(t, id) ==> WithRow(t, id) == t
    ensures !Has(t, id) && HasFree(t) ==>
      exists k {:trigger t[k]} :: 0 <= k < ROWS && !t[k].used && WithRow(t, id) == t[k := NewRow(id)]
    ensures !Has(t, id) && !HasFree(t) ==>
      exists k {:trigger t[k]} :: 0 <= k < ROWS && WithRow(t, id) == t[k := NewRow(id)]
        && ((forall m {:trigger t[m]} :: 0 <= m < ROWS ==> t[m].heard < WORD / 2) ==>
          forall j {:trigger t[j]} :: 0 <= j < ROWS ==> t[k].heard <= t[j].heard)
  {
    hide FindRow, FreeRow, OldestOf;
    var s, r := Place(t, id), WithRow(t, id);
    assert r[s].used && r[s].id == id;
    if !Has(t, id) {
      assert FindRow(t, id, ROWS) == -1 && r == t[s := NewRow(id)];
      assert 0 <= s < ROWS && t[s] == t[s];
      if !HasFree(t) && forall m {:trigger t[m]} :: 0 <= m < ROWS ==> t[m].heard < WORD / 2 {
        forall j {:trigger t[j]} | 0 <= j < ROWS
          ensures t[s].heard <= t[j].heard
        {
          OldestIsLeast(t, ROWS, j);
        }
      }
    }
  }

  /** A new row keeps identities apart. */
  lemma {:induction false} WithRowUnique(t: Table, id: Ident)
    requires Sized(t) && Unique(t)
    ensures Unique(WithRow(t, id))
  {
  }

  /** A declaration leaves every other neighbour's row as it was, or evicts it. */
  lemma {:induction false} NoteRowOthers(t: Table, id: Ident, d: nat, now: nat, k: nat)
    requires Sized(t) && Unique(t) && k < ROWS && NoteRow(t, id, d, now)[k].used
    ensures var n := NoteRow(t, id, d, now)[k];
            if k == Place(t, id) then n.id == id && n.declared == d && n.heard == now
              && (n.discoveryGw ==> t[k].used && t[k].id == id && t[k].discoveryGw)
            else n == t[k] && n.id != id
  {
    if FindRow(t, id, ROWS) == -1 && k != Place(t, id) {
      assert t[k].used;
    }
  }

  /** A row heard no longer ago than the horizon. */
  predicate Recent(n: Nbr, now: nat, horizon: nat) { n.used && (now - n.heard) % WORD <= horizon }

  /** Rows past the horizon are dropped. */
  function Expire(n: Nbr, now: nat, horizon: nat): Nbr {
    if n.used && Age(now, n.heard) > horizon then n.(used := false) else n
  }

  function Expired(t: Table, now: nat, horizon: nat): (r: Table)
    ensures |r| == |t| && forall i {:trigger r[i]} {:trigger t[i]} :: 0 <= i < |t| ==>
      r[i] == Expire(t[i], now, horizon)
  {
    seq(|t|, i requires 0 <= i < |t| => Expire(t[i], now, horizon))
  }

  /** The distance by way of the first i rows. */
  function BestOf(t: Table, ov: Overrides, i: nat): (best: nat)
    requires i <= |t|
    ensures best <= NONE
  {
    if i == 0 then NONE
    else
      var b := BestOf(t, ov, i - 1);
      var e := Effective(t[i - 1], ov);
      if t[i - 1].used && e < NONE && e + 1 < b then e + 1 else b
  }

  /**
   * A finite distance is one more than what some row counts as, and no row counts as less.
   */
  lemma {:induction false} BestHasWitness(t: Table, ov: Overrides, i: nat)
    requires i <= |t|
    ensures var best := BestOf(t, ov, i);
            && best >= 1
            && (best < NONE ==> exists k {:trigger t[k]} :: 0 <= k < i && t[k].used && Effective(t[k], ov) == best - 1)
            && (forall k {:trigger t[k]} :: 0 <= k < i && t[k].used && Effective(t[k], ov) < NONE ==>
              best <= Effective(t[k], ov) + 1)
  {
    if i > 0 {
      BestHasWitness(t, ov, i - 1);
    }
  }

  /** The whole computation. */
  function Distance(t: Table, ov: Overrides, gateway: bool): nat {
    if gateway then 0 else BestOf(t, ov, |t|)
  }

  /**
   * The operator's word stands over everything: a neighbour called a gateway gives distance 1, and
   * one called none gives nothing, whatever it declares and however it was marked.
   */
  lemma {:induction false} OperatorDecides(t: Table, ov: Overrides, k: nat)
    requires k < |t| && t[k].used
    ensures Override(ov, t[k].id) == 1 ==> Distance(t, ov, false) == 1
    ensures Override(ov, t[k].id) == 0 ==> Distance(t, ov, false) == Distance(t[k := t[k].(used := false)], ov, false)
  {
    BestHasWitness(t, ov, |t|);
    if Override(ov, t[k].id) == 0 {
      Overruled(t, ov, k, |t|);
    }
  }

  lemma {:induction false} Overruled(t: Table, ov: Overrides, k: nat, i: nat)
    requires k < |t| && i <= |t| && Override(ov, t[k].id) == 0
    ensures BestOf(t, ov, i) == BestOf(t[k := t[k].(used := false)], ov, i)
  {
    if i > 0 {
      Overruled(t, ov, k, i - 1);
    }
  }

  /** The row counts as a gateway whatever it declares. */
  predicate Vouches(n: Nbr, ov: Overrides) {
    n.used && (Override(ov, n.id) == 1 || (Override(ov, n.id) != 0 && n.discoveryGw))
  }

  /**
   * With every neighbour declaring "none", a node that is no gateway itself computes
   * "none" exactly when no row it keeps is vouched for by the operator or by a discovery
   * announce once heard.
   */
  lemma {:induction false} NoneExactlyWhen(t: Table, ov: Overrides)
    requires forall k {:trigger t[k]} :: 0 <= k < |t| && t[k].used ==> t[k].declared >= NONE
    ensures Distance(t, ov, false) == NONE <==> forall k {:trigger t[k]} :: 0 <= k < |t| ==> !Vouches(t[k], ov)
  {
    BestHasWitness(t, ov, |t|);
    if exists k {:trigger t[k]} :: 0 <= k < |t| && Vouches(t[k], ov) {
      var k :| 0 <= k < |t| && Vouches(t[k], ov);
      assert Effective(t[k], ov) == 0;
    }
  }

  /**
   * What is computed rests on what was heard within the horizon: a finite distance is one more
   * than what some such row counts as, none of them counts as less, and a row last heard before
   * the horizon does not count at all.
   */
  lemma {:induction false} RestsOnFreshRows(t: Table, ov: Overrides, now: nat, horizon: nat)
    ensures var d := Distance(Expired(t, now, horizon), ov, false);
      && 1 <= d <= NONE
      && (d < NONE ==>
        exists k {:trigger t[k]} :: 0 <= k < |t| && Recent(t[k], now, horizon) && Effective(t[k], ov) + 1 == d)
      && forall k {:trigger t[k]} :: 0 <= k < |t| && Recent(t[k], now, horizon) && Effective(t[k], ov) < NONE ==>
           d <= Effective(t[k], ov) + 1
  {
    var r := Expired(t, now, horizon);
    BestHasWitness(r, ov, |r|);
    var d := BestOf(r, ov, |r|);
    if d < NONE {
      var k :| 0 <= k < |r| && r[k].used && Effective(r[k], ov) == d - 1;
      assert t[k].used;
    }
    forall k {:trigger t[k]} | 0 <= k < |t| && Recent(t[k], now, horizon) && Effective(t[k], ov) < NONE
      ensures d <= Effective(t[k], ov) + 1
    {
      assert r[k] == t[k];
    }
  }

  /**
   * A discovery announce once heard outlives the wired interface it spoke of: any later
   * declaration by the same neighbour, "none" included, keeps the row and its mark, so
   * the node goes on taking it for a gateway.
   */
  lemma {:induction false} DiscoveryOutlivesGateway(t: Table, ov: Overrides, id: Ident, d: nat, now: nat, later: nat,
      horizon: nat)
    requires Sized(t) && FindRow(t, id, ROWS) >= 0 && t[FindRow(t, id, ROWS)].discoveryGw && Override(ov, id) != 0
    requires Age(later, now) <= horizon
    ensures Distance(Expired(NoteRow(t, id, Declared(d), now), later, horizon), ov, false) == 1
  {
    var r := Expired(NoteRow(t, id, Declared(d), now), later, horizon);
    BestHasWitness(r, ov, |r|);
    var k := FindRow(t, id, ROWS);
    assert r[k].used && Effective(r[k], ov) == 0;
  }

  function Declared(d: nat): nat { if d > NONE then NONE else d }

  class GatewayTable {
    const nbrs: array<Nbr>
    var uplink: bool
    var own: nat
    var announceOwed: bool
    var lastReair: nat
    var published: bool

    ghost predicate Valid()
      reads this, nbrs
    {
      Sized(nbrs[..]) && Unique(nbrs[..]) && own <= NONE
    }

    constructor ()
      ensures Valid() && fresh(nbrs) && own == NONE && !published && forall i {:trigger nbrs[i]} :: 0 <= i < ROWS ==>
        !nbrs[i].used
    {
      nbrs := new Nbr[ROWS](_ => Nbr(false, 0, 0, false, 0));
      uplink, own, announceOwed, lastReair, published := false, NONE, false, 0, false;
    }

    /** The row of an identity, made if need be in a free slot or in place of the oldest row. */
    method FindOrAlloc(id: Ident) returns (s: nat)
      requires Valid()
      modifies nbrs
      ensures Valid() && s == Place(old(nbrs[..]), id) && nbrs[..] == WithRow(old(nbrs[..]), id)
      ensures s < ROWS && nbrs[s].used && nbrs[s].id == id
      ensures Has(old(nbrs[..]), id) || HasFree(old(nbrs[..])) ==>
        forall k {:trigger nbrs[k]} :: 0 <= k < ROWS && old(nbrs[k]).used ==> nbrs[k] == old(nbrs[k])
    {
      ghost var t := nbrs[..];
      WithRowUnique(t, id);
      RowsKept(t, id);
      var free, oldest: int := -1, -1;
      for i: nat := 0 to ROWS
        invariant nbrs[..] == t && oldest == OldestOf(t, i) && free == FreeRow(t, i) && FindRow(t, id, i) == -1
      {
        assert nbrs[i] == t[i];
        if !nbrs[i].used {
          if free == -1 {
            free := i;
          }
        } else {
          if nbrs[i].id == id {
            FoundHere(t, id, i);
            return i;
          }
          if oldest == -1 || Older(nbrs[i], nbrs[oldest]) {
            oldest := i;
          }
        }
      }
      assert free == -1 ==> t[0].used;
      s := if free >= 0 then free else oldest;
      nbrs[s] := NewRow(id);
      assert nbrs[..] == t[s := NewRow(id)];
    }

    /** The distance from what the table holds now; an announce is owed when it moved. */
    method Recompute(now: nat, horizon: nat, self: bool, ov: Overrides)
      requires Valid()
      modifies this`own, this`announceOwed, this`published, nbrs
      ensures Valid() && nbrs[..] == Expired(old(nbrs[..]), now, horizon)
      ensures own == Distance(nbrs[..], ov, uplink || self) && published
      ensures forall k {:trigger nbrs[k]} :: 0 <= k < ROWS ==>
        (nbrs[k].used <==> Recent(old(nbrs[k]), now, horizon))
      ensures announceOwed == (old(announceOwed) || (old(published) && own != old(own)))
    {
      ghost var t, r := nbrs[..], Expired(nbrs[..], now, horizon);
      var best := NONE;
      for i: nat := 0 to ROWS
        invariant forall k {:trigger nbrs[k]} :: 0 <= k < ROWS ==> nbrs[k] == if k < i then r[k] else t[k]
        invariant best == BestOf(r, ov, i) && own == old(own) && announceOwed == old(announceOwed)
          && published == old(published)
      {
        assert nbrs[i] == t[i] && r[i] == Expire(t[i], now, horizon);
        if nbrs[i].used && Age(now, nbrs[i].heard) > horizon {
          nbrs[i] := nbrs[i].(used := false);
        } else if nbrs[i].used {
          var e := Effective(nbrs[i], ov);
          if e < NONE && e + 1 < best {
            best := e + 1;
          }
        }
      }
      assert nbrs[..] == r;
      ExpiredUnique(t, now, horizon);
      var d := if uplink || self then 0 else best;
      if d == own && published {
        return;
      }
      if published {
        announceOwed := true;
      }
      own, published := d, true;
    }

    /** A neighbour declares its distance. True when ours should be said again for its sake. */
    method Note(id: Ident, distance: nat, now: nat, horizon: nat, self: bool, ov: Overrides) returns (reair: bool)
      requires Valid()
      modifies this, nbrs
      ensures Valid() && uplink == old(uplink)
      ensures var t, d := old(nbrs[..]), Declared(distance);
              if WithRow(t, id)[Place(t, id)].declared == d then nbrs[..] == NoteRow(t, id, d, now) && own == old(own)
              else nbrs[..] == Expired(NoteRow(t, id, d, now), now, horizon)
                   && own == Distance(nbrs[..], ov, uplink || self)
      ensures reair == (old(own) < NONE && Declared(distance) > old(own) + 1
        && (old(lastReair) == 0 || Age(now, old(lastReair)) >= REAIR_MIN))
      ensures lastReair == if !reair then old(lastReair) else if now == 0 then 1 else now
      ensures announceOwed == (old(announceOwed) || (old(published) && own != old(own)))
      ensures published == (old(published) || WithRow(old(nbrs[..]),
        id)[Place(old(nbrs[..]), id)].declared != Declared(distance))
    {
      hide Unique, BestOf, WithRow, Place;
      var d := Declared(distance);
      var s := FindOrAlloc(id);
      var changed := nbrs[s].declared != d;
      var row := nbrs[s].(declared := d, heard := now);
      SetKeepsUnique(nbrs[..], s, row);
      ghost var u := nbrs[..];
      nbrs[s] := row;
      assert nbrs[..] == u[s := row];
      reair := own < NONE && d > own + 1 && (lastReair == 0 || Age(now, lastReair) >= REAIR_MIN);
      if reair {
        lastReair := if now == 0 then 1 else now;
      }
      if changed {
        Recompute(now, horizon, self, ov);
      }
    }

    /** A stock discovery announce for a wired interface. */
    method DiscoveryNote(id: Ident, now: nat, horizon: nat, self: bool, ov: Overrides)
      requires Valid()
      modifies this, nbrs
      ensures Valid() && uplink == old(uplink) && lastReair == old(lastReair)
      ensures var t := old(nbrs[..]);
              if WithRow(t, id)[Place(t, id)].discoveryGw then nbrs[..] == DiscoverRow(t, id, now) && own == old(own)
              else nbrs[..] == Expired(DiscoverRow(t, id, now), now, horizon)
                   && own == Distance(nbrs[..], ov, uplink || self)
      ensures announceOwed == (old(announceOwed) || (old(published) && own != old(own)))
      ensures published == (old(published) || !WithRow(old(nbrs[..]), id)[Place(old(nbrs[..]), id)].discoveryGw)
    {
      hide Unique, BestOf, WithRow, Place;
      var s := FindOrAlloc(id);
      var changed := !nbrs[s].discoveryGw;
      var row := nbrs[s].(discoveryGw := true, heard := now);
      SetKeepsUnique(nbrs[..], s, row);
      ghost var u := nbrs[..];
      nbrs[s] := row;
      assert nbrs[..] == u[s := row];
      if changed {
        Recompute(now, horizon, self, ov);
      }
    }

    /**
     * Any direct announce: it refreshes a row that only the operator's word keeps, and
     * makes one only for a neighbour the operator has named.
     */
    method Heard(id: Ident, now: nat, horizon: nat, self: bool, ov: Overrides)
      requires Valid()
      modifies this, nbrs
      ensures Valid() && uplink == old(uplink) && lastReair == old(lastReair)
      ensures Has(old(nbrs[..]), id) ==> own == old(own) && forall k {:trigger nbrs[k]} :: 0 <= k < ROWS ==>
                nbrs[k] == if old(nbrs[k]).used && old(nbrs[k]).id == id && old(nbrs[k]).declared == UNKNOWN
                  && !old(nbrs[k]).discoveryGw
                           then old(nbrs[k]).(heard := now) else old(nbrs[k])
      ensures !Has(old(nbrs[..]), id) && Override(ov, id) < 0 ==> nbrs[..] == old(nbrs[..]) && own == old(own)
      ensures !Has(old(nbrs[..]), id) && Override(ov, id) >= 0 ==>
                var t := old(nbrs[..]);
                nbrs[..] == Expired(WithRow(t, id)[Place(t, id) := NewRow(id).(heard := now)], now, horizon)
                && own == Distance(nbrs[..], ov, uplink || self)
      ensures announceOwed == (old(announceOwed) || (old(published) && own != old(own)))
      ensures published == (old(published) || (!Has(old(nbrs[..]), id) && Override(ov, id) >= 0))
    {
      hide BestOf, Place;
      ghost var t := nbrs[..];
      for i: nat := 0 to ROWS
        invariant nbrs[..] == t && forall k {:trigger t[k]} :: 0 <= k < i && t[k].used ==> t[k].id != id
        invariant own == old(own) && lastReair == old(lastReair) && uplink == old(uplink)
          && announceOwed == old(announceOwed) && published == old(published)
      {
        assert nbrs[i] == t[i];
        if nbrs[i].used && nbrs[i].id == id {
          if nbrs[i].declared == UNKNOWN && !nbrs[i].discoveryGw {
            SetKeepsUnique(t, i, t[i].(heard := now));
            nbrs[i] := nbrs[i].(heard := now);
            assert nbrs[..] == t[i := t[i].(heard := now)];
          }
          return;
        }
      }
      if Override(ov, id) < 0 {
        return;
      }
      var s := FindOrAlloc(id);
      var row := nbrs[s].(heard := now);
      SetKeepsUnique(nbrs[..], s, row);
      ghost var u := nbrs[..];
      nbrs[s] := row;
      assert nbrs[..] == u[s := row];
      Recompute(now, horizon, self, ov);
    }

    method SetUplink(up: bool, now: nat, horizon: nat, self: bool, ov: Overrides)
      requires Valid()
      modifies this, nbrs
      ensures Valid() && uplink == up && published
      ensures up != old(uplink) || !old(published) ==>
                nbrs[..] == Expired(old(nbrs[..]), now, horizon) && own == Distance(nbrs[..], ov, up || self)
      ensures up == old(uplink) && old(published) ==> own == old(own) && nbrs[..] == old(nbrs[..])
      ensures announceOwed == (old(announceOwed) || (old(published) && own != old(own)))
    {
      if up == uplink && published {
        return;
      }
      uplink := up;
      Recompute(now, horizon, self, ov);
    }

    method AnnounceOwed() returns (owed: bool)
      requires Valid()
      modifies this`announceOwed
      ensures Valid() && owed == old(announceOwed) && !announceOwed
    {
      owed := announceOwed;
      announceOwed := false;
    }
  }

  lemma {:induction false} ExpiredUnique(t: Table, now: nat, horizon: nat)
    requires Unique(t)
    ensures Unique(Expired(t, now, horizon))
  {
    var r := Expired(t, now, horizon);
    forall i, j {:trigger r[i], r[j]} | 0 <= i < j < |r| && r[i].used && r[j].used
      ensures r[i].id != r[j].id
    {
      assert t[i].used && t[j].used;
    }
  }

  lemma {:induction false} SetKeepsUnique(t: Table, s: nat, row: Nbr)
    requires Unique(t) && s < |t| && t[s].used && row.id == t[s].id
    ensures Unique(t[s := row])
  {
  }

  /** The first match found is the one. */
  lemma {:induction false} FoundHere(t: Table, id: Ident, i: nat)
    requires Sized(t) && i < ROWS && t[i].used && t[i].id == id && FindRow(t, id, i) == -1
    ensures Place(t, id) == i && WithRow(t, id) == t
  {
    FoundStays(t, id, i, ROWS);
  }

  lemma {:induction false} FoundStays(t: Table, id: Ident, i: nat, m: nat)
    requires i < m <= |t| && t[i].used && t[i].id == id && FindRow(t, id, i) == -1
    ensures FindRow(t, id, m) == i
  {
    if i < m - 1 {
      FoundStays(t, id, i, m - 1);
    }
  }
}
