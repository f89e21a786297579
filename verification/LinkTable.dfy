/**
 * The table of link slots, and whole runs over it: connects, disconnects, requests,
 * callbacks of the link layer and ticks, in any order.
 */
module LinkTable {
  import opened Prelude
  import opened LinkSlots
  import opened LinkTiming

  const SLOTS := 32

  /** out is everything that left the table; opens counts the links opened so far. */
  datatype Table = Table(slots: seq<Slot>, out: seq<Effect>, opens: nat)

  // ----- finding a slot

  /** What a scan of the table looks for. */
  datatype Key = ByTag(tag: string) | ByLink(link: nat) | ByMrid(mrid: nat) | Unused

  predicate Matches(s: Slot, key: Key) {
    match key
    case ByTag(tag) => s.used && s.tag == tag
    case ByLink(link) => s.used && s.link == Some(link)
    case ByMrid(mrid) => s.used && s.inFlight.Some? && s.inFlight.value.mrid == mrid
    case Unused => !s.used
  }

  /** The first match from index i, or -1. */
  function Find(slots: seq<Slot>, key: Key, i: nat): (j: int)
    requires i <= |slots|
    ensures -1 <= j < |slots|
    ensures j >= 0 ==> i <= j && Matches(slots[j], key) && forall k :: i <= k < j ==> !Matches(slots[k], key)
    ensures j < 0 ==> forall k :: i <= k < |slots| ==> !Matches(slots[k], key)
    decreases |slots| - i
  {
    if i == |slots| then -1 else if Matches(slots[i], key) then i else Find(slots, key, i + 1)
  }

  /** The used slot that has been idle longest among the first n, or -1. */
  function Victim(slots: seq<Slot>, n: nat): (j: int)
    requires n <= |slots|
    ensures -1 <= j < n
    ensures j < 0 ==> forall k :: 0 <= k < n ==> !slots[k].used
    ensures j >= 0 ==> slots[j].used && forall k :: 0 <= k < n && slots[k].used ==>
      slots[j].lastActivity <= slots[k].lastActivity
  {
    if n == 0 then -1
    else
      var j := Victim(slots, n - 1);
      if slots[n - 1].used && (j < 0 || slots[n - 1].lastActivity < slots[j].lastActivity) then n - 1 else j
  }

  // ----- the handlers

  function Put(table: Table, j: int, x: (Slot, seq<Effect>)): (r: Table)
    requires 0 <= j < |table.slots|
    ensures r.opens == table.opens
  {
    table.(slots := table.slots[j := x.0], out := table.out + x.1)
  }

  /** linkFreeSlot, with whatever was changed in the slot just before. */
  function FreeAt(table: Table, j: int, s: Slot): Table
    requires 0 <= j < |table.slots|
  {
    Put(table, j, (FreeSlot(s), FailHeld(s)))
  }

  /** linkAlloc: a free slot, or the longest-idle one, torn down and freed. */
  function Alloc(table: Table, now: int): (r: (Table, int))
    requires |table.slots| == SLOTS
    ensures |r.0.slots| == SLOTS && r.0.opens == table.opens
    ensures 0 <= r.1 < SLOTS && !r.0.slots[r.1].used
  {
    var j := Find(table.slots, Unused, 0);
    if j >= 0 then (table, j)
    else
      var v := Victim(table.slots, SLOTS);
      (FreeAt(table, v, TearDown(table.slots[v], now)), v)
  }

  /** An empty tag is refused, and so is one a live consumer holds; a tag without a consumer is reclaimed. */
  predicate Refused(table: Table, tag: string) {
    tag == "" || (Find(table.slots, ByTag(tag), 0) >= 0 && table.slots[Find(table.slots, ByTag(tag), 0)].handle >= 0)
  }

  function Reclaim(table: Table, tag: string): (r: Table)
    ensures |r.slots| == |table.slots| && r.opens == table.opens
  {
    var dup := Find(table.slots, ByTag(tag), 0);
    if dup >= 0 then FreeAt(table, dup, table.slots[dup]) else table
  }

  function Connect(table: Table, handle: int, tag: string, env: Env, now: int): Table
    requires |table.slots| == SLOTS
  {
    if Refused(table, tag) then table
    else
      var a := Alloc(Reclaim(table, tag), now);
      Put(a.0, a.1, OpenSlot(table.opens, handle, tag, env, now)).(opens := table.opens + 1)
  }

  function Accept(table: Table, handle: int, tag: string, link: nat, now: int): Table
    requires |table.slots| == SLOTS
  {
    var a := Alloc(table, now);
    Put(a.0, a.1, (AcceptSlot(table.opens, handle, tag, link, now), [])).(opens := table.opens + 1)
  }

  function Disconnect(table: Table, ref: int, now: int): Table {
    if ref < 0 || ref >= |table.slots| || !table.slots[ref].used then table
    else FreeAt(table, ref, TearDown(table.slots[ref].(handle := -1), now).(link := None, state := Closed))
  }

  /** A request frame as it arrives: too short for its header, cut off behind it, or whole. */
  datatype Frame = Short | Truncated | Whole

  function Ask(table: Table, frame: Frame, tag: string, r: Request, o: Issue, now: int): Table {
    match frame
    case Short => table
    case Truncated => table.(out := table.out + Reply(r, false))
    case Whole =>
      var j := Find(table.slots, ByTag(tag), 0);
      if j < 0 then table.(out := table.out + Reply(r, false))
        else Put(table, j, RequestSlot(table.slots[j], r, o, now))
  }

  function TickTo(slots: seq<Slot>, envs: seq<Env>, now: int, n: nat): (r: (seq<Slot>, seq<Effect>))
    requires n <= |slots| == |envs|
    ensures |r.0| == |slots|
    ensures forall k :: n <= k < |slots| ==> r.0[k] == slots[k]
  {
    if n == 0 then (slots, [])
    else
      var p := TickTo(slots, envs, now, n - 1);
      var x := TickSlot(slots[n - 1], envs[n - 1], now);
      (p.0[n - 1 := x.0], p.1 + x.1)
  }

  datatype Event =
    | Connecting(handle: int, tag: string, env: Env, now: int)
    | Accepting(handle: int, tag: string, link: nat, now: int)
    | Disconnecting(ref: int, now: int)
    | Asking(frame: Frame, tag: string, task: nat, port: nat, cid: nat, token: nat, issue: Issue, now: int)
    | Established(link: nat, issue: Issue, now: int)
    | LinkClosed(link: nat, now: int)
    | Responding(mrid: nat, roomy: bool, now: int)
    | RequestFailed(mrid: nat, now: int)
    | Tick(envs: seq<Env>, now: int)

  predicate Legal(e: Event) { e.Tick? ==> |e.envs| == SLOTS }

  /** What the request callbacks and link callbacks do once they have found their slot; without one they do nothing. */
  function OnSlot(table: Table, e: Event, j: int): Table
    requires 0 <= j < |table.slots|
    requires e.Responding? || e.RequestFailed? ==> table.slots[j].inFlight.Some?
  {
    match e
    case Established(_, issue, now) => Put(table, j, EstablishSlot(table.slots[j], issue, now))
    case LinkClosed(_, now) => Put(table, j, (CloseSlot(table.slots[j], now), []))
    case Responding(_, roomy, now) => Put(table, j, RespondSlot(table.slots[j], roomy, now))
    case RequestFailed(_, now) => Put(table, j, FailSlot(table.slots[j]))
    case _ => table
  }

  function Callback(table: Table, e: Event, key: Key): Table
    requires e.Responding? || e.RequestFailed? ==> key.ByMrid?
  {
    var j := Find(table.slots, key, 0);
    if j < 0 then table else OnSlot(table, e, j)
  }

  function Apply(table: Table, e: Event): (next: Table)
    requires |table.slots| == SLOTS && Legal(e)
    ensures |next.slots| == SLOTS
  {
    match e
    case Connecting(handle, tag, env, now) => Connect(table, handle, tag, env, now)
    case Accepting(handle, tag, link, now) => Accept(table, handle, tag, link, now)
    case Disconnecting(ref, now) => Disconnect(table, ref, now)
    case Asking(frame, tag, task, port, cid, token, issue, now) =>
      Ask(table, frame, tag, Request(task, port, cid, token, now), issue, now)
    case Established(link, _, _) => Callback(table, e, ByLink(link))
    case LinkClosed(link, _) => Callback(table, e, ByLink(link))
    case Responding(mrid, _, _) => Callback(table, e, ByMrid(mrid))
    case RequestFailed(mrid, _) => Callback(table, e, ByMrid(mrid))
    case Tick(envs, now) =>
      var p := TickTo(table.slots, envs, now, SLOTS);
      table.(slots := p.0, out := table.out + p.1)
  }

  const FREE_SLOT := Slot(false, 0, -1, "", Free, None, 0, 0, 0, 0, 0, 0, 0, None, None)

  function Init(): (table: Table)
    ensures |table.slots| == SLOTS && forall j :: 0 <= j < SLOTS ==> table.slots[j] == FREE_SLOT
  {
    Table(seq(SLOTS, i => FREE_SLOT), [], 0)
  }

  function Run(es: seq<Event>): (table: Table)
    requires forall e :: e in es ==> Legal(e)
    ensures |table.slots| == SLOTS
  {
    if es == [] then Init() else Apply(Run(es[..|es| - 1]), es[|es| - 1])
  }

  // ----- every request is answered exactly once

  function Held(slots: seq<Slot>, t: nat): nat {
    if slots == [] then 0 else Held(slots[..|slots| - 1], t) + HeldIn(slots[|slots| - 1], t)
  }

  lemma {:induction false} HeldUpdate(slots: seq<Slot>, j: nat, s: Slot, t: nat)
    requires j < |slots|
    ensures Held(slots[j := s], t) == Held(slots, t) - HeldIn(slots[j], t) + HeldIn(s, t)
  {
    var n := |slots| - 1;
    if j == n {
      assert slots[j := s][..n] == slots[..n];
    } else {
      HeldUpdate(slots[..n], j, s, t);
      assert slots[j := s][..n] == slots[..n][j := s];
    }
  }

  lemma {:induction false} HeldNone(slots: seq<Slot>, t: nat)
    requires forall j :: 0 <= j < |slots| ==> HeldIn(slots[j], t) == 0
    ensures Held(slots, t) == 0
  {
    if slots != [] {
      HeldNone(slots[..|slots| - 1], t);
    }
  }

  /** Whether an event asks with this token and can be answered. */
  predicate Asks(e: Event, t: nat) { e.Asking? && !e.frame.Short? && e.task != 0 && e.port != 0 && e.token == t }

  function Asked(es: seq<Event>, t: nat): nat {
    if es == [] then 0 else Asked(es[..|es| - 1], t) + if Asks(es[|es| - 1], t) then 1 else 0
  }

  /** The askings with this token that are held or have been answered. */
  function Total(table: Table, t: nat): nat { Held(table.slots, t) + Answered(table.out, t) }

  /** The used slots are sound and stem from different opens, each dialled as often as its attempts say. */
  ghost predicate SlotsOk(table: Table) {
    && |table.slots| == SLOTS
    && (forall j :: 0 <= j < SLOTS ==> SlotOk(table.slots[j]))
    && (forall i, j :: 0 <= i < j < SLOTS && table.slots[i].used && table.slots[j].used ==>
      table.slots[i].opening != table.slots[j].opening)
    && (forall j :: 0 <= j < SLOTS && table.slots[j].used ==>
          table.slots[j].opening < table.opens && Dials(table.out, table.slots[j].opening) == table.slots[j].attempts)
  }

  /** No open dials more than three times, and none before it is made. */
  ghost predicate DialsOk(table: Table) {
    forall o: nat {:trigger Dials(table.out, o)} ::
      Dials(table.out, o) <= ATTEMPTS && (o >= table.opens ==> Dials(table.out, o) == 0)
  }

  lemma {:induction false} SlotsSound(table: Table)
    requires SlotsOk(table)
    ensures |table.slots| == SLOTS && forall j {:trigger table.slots[j]} :: 0 <= j < SLOTS ==> SlotOk(table.slots[j])
  {
  }

  lemma {:induction false} AttemptsOk(s: Slot)
    requires SlotOk(s)
    ensures s.attempts <= ATTEMPTS
    ensures !s.used ==> forall t :: HeldIn(s, t) == 0
  {
  }

  lemma {:induction false} PutCounts(table: Table, j: int, x: (Slot, seq<Effect>), t: nat)
    requires 0 <= j < |table.slots|
    ensures Total(Put(table, j, x), t) == Total(table, t) - HeldIn(table.slots[j], t) + HeldIn(x.0, t)
      + Answered(x.1, t)
    ensures Dials(Put(table, j, x).out, t) == Dials(table.out, t) + Dials(x.1, t)
  {
    HeldUpdate(table.slots, j, x.0, t);
    CountsConcat(table.out, x.1, t);
  }

  /** One slot's move keeps the books. */
  lemma {:induction false} PutKeeps(table: Table, j: int, x: (Slot, seq<Effect>), came: Option<Request>)
    requires SlotsOk(table) && DialsOk(table) && 0 <= j < SLOTS && table.slots[j].used
    requires Moves(table.slots[j], x.0, x.1, came)
    ensures var next := Put(table, j, x);
      SlotsOk(next) && DialsOk(next) && forall t ::
        Total(next, t) == Total(table, t) + if came.Some? then One(came.value, t) else 0
  {
    hide SlotOk, Answered, Dials, Held, One, HeldIn;
    var next := Put(table, j, x);
    forall t: nat
      ensures Total(next, t) == Total(table, t) + if came.Some? then One(came.value, t) else 0
      ensures Dials(next.out, t) == Dials(table.out, t) + Dials(x.1, t)
    {
      PutCounts(table, j, x, t);
    }
    AttemptsOk(table.slots[j]);
    AttemptsOk(x.0);
  }

  /** A new open in a free slot keeps the books. */
  lemma {:induction false} OpenKeeps(table: Table, j: int, x: (Slot, seq<Effect>))
    requires SlotsOk(table) && DialsOk(table) && 0 <= j < SLOTS && !table.slots[j].used
    requires SlotOk(x.0) && x.0.used && x.0.opening == table.opens
    requires forall t {:trigger Answered(x.1, t)} :: HeldIn(x.0, t) == Answered(x.1, t) == 0
    requires forall o {:trigger Dials(x.1, o)} :: Dials(x.1, o) == if o == table.opens then x.0.attempts else 0
    ensures var next := Put(table, j, x).(opens := table.opens + 1);
      SlotsOk(next) && DialsOk(next) && forall t :: Total(next, t) == Total(table, t)
  {
    hide SlotOk, Answered, Dials, Held, One, HeldIn;
    var next := Put(table, j, x).(opens := table.opens + 1);
    AttemptsOk(table.slots[j]);
    AttemptsOk(x.0);
    forall t: nat
      ensures Total(next, t) == Total(table, t)
      ensures Dials(next.out, t) == Dials(table.out, t) + Dials(x.1, t)
    {
      PutCounts(table, j, x, t);
    }
  }

  /** Freeing keeps the books, whatever was done to the link first. */
  lemma {:induction false} FreeKeeps(table: Table, j: int, s: Slot)
    requires SlotsOk(table) && DialsOk(table) && 0 <= j < SLOTS && table.slots[j].used
    requires s.opening == table.slots[j].opening && s.openedAt == table.slots[j].openedAt
    requires s.pending == table.slots[j].pending && s.inFlight == table.slots[j].inFlight
    ensures var next := FreeAt(table, j, s);
      SlotsOk(next) && DialsOk(next) && (forall t :: Total(next, t) == Total(table, t)) && !next.slots[j].used
  {
    hide SlotOk, Answered, Dials, Held, FailHeld;
    FreeMoves(s);
    PutKeeps(table, j, (FreeSlot(s), FailHeld(s)), None);
  }

  ghost predicate BooksOk(table: Table) { SlotsOk(table) && DialsOk(table) }

  lemma {:induction false} BooksDials(table: Table)
    requires BooksOk(table)
    ensures DialsOk(table)
  {
  }

  /** From table to next, the books stay in order and nothing held is lost or answered twice. */
  ghost predicate Keeps(table: Table, next: Table) {
    BooksOk(next) && next.opens >= table.opens
      && forall t {:trigger Total(next, t)} :: Total(next, t) == Total(table, t)
  }

  lemma {:induction false} AllocKeeps(table: Table, now: int)
    requires BooksOk(table)
    ensures Keeps(table, Alloc(table, now).0)
  {
    hide SlotsOk, DialsOk, Total, FreeAt;
    SlotsSound(table);
    if Find(table.slots, Unused, 0) < 0 {
      var v := Victim(table.slots, SLOTS);
      assert forall k :: 0 <= k < SLOTS ==> !Matches(table.slots[k], Unused);
      FreeKeeps(table, v, TearDown(table.slots[v], now));
    }
  }

  lemma {:induction false} ReclaimKeeps(table: Table, tag: string)
    requires BooksOk(table)
    ensures Keeps(table, Reclaim(table, tag))
  {
    hide SlotsOk, DialsOk, Total, FreeAt;
    var dup := Find(table.slots, ByTag(tag), 0);
    if dup >= 0 {
      SlotsSound(table);
      FreeKeeps(table, dup, table.slots[dup]);
    }
  }

  lemma {:induction false} OpenMoves(opening: nat, handle: int, tag: string, env: Env, now: int)
    ensures var x := OpenSlot(opening, handle, tag, env, now);
      && SlotOk(x.0) && x.0.used && x.0.opening == opening
      && (forall t {:trigger Answered(x.1, t)} :: HeldIn(x.0, t) == Answered(x.1, t) == 0)
      && (forall o {:trigger Dials(x.1, o)} :: Dials(x.1, o) == if o == opening then x.0.attempts else 0)
  {
    hide Answered, Dials;
    forall n: nat
      ensures Answered([], n) == 0 && Dials([], n) == 0
      ensures Answered([Dialed(opening)], n) == 0
      ensures Dials([Dialed(opening)], n) == if n == opening then 1 else 0
    {
      CountsShort(Dialed(opening), n);
    }
  }

  lemma {:induction false} ConnectKeeps(table: Table, handle: int, tag: string, env: Env, now: int)
    requires BooksOk(table)
    ensures Keeps(table, Connect(table, handle, tag, env, now))
  {
    hide SlotsOk, DialsOk, Total, Alloc, Reclaim, OpenSlot, SlotOk, Answered, Dials, HeldIn;
    SlotsSound(table);
    if !Refused(table, tag) {
      ReclaimKeeps(table, tag);
      var mid := Reclaim(table, tag);
      AllocKeeps(mid, now);
      var a := Alloc(mid, now);
      OpenMoves(table.opens, handle, tag, env, now);
      OpenKeeps(a.0, a.1, OpenSlot(table.opens, handle, tag, env, now));
    }
  }

  lemma {:induction false} AcceptKeeps(table: Table, handle: int, tag: string, link: nat, now: int)
    requires BooksOk(table)
    ensures Keeps(table, Accept(table, handle, tag, link, now))
  {
    hide SlotsOk, DialsOk, Total, Alloc, Answered, Dials;
    SlotsSound(table);
    AllocKeeps(table, now);
    var a := Alloc(table, now);
    forall n: nat ensures Answered([], n) == 0 && Dials([], n) == 0 { CountsShort(Dialed(0), n); }
    OpenKeeps(a.0, a.1, (AcceptSlot(table.opens, handle, tag, link, now), []));
  }

  lemma {:induction false} DisconnectKeeps(table: Table, ref: int, now: int)
    requires BooksOk(table)
    ensures Keeps(table, Disconnect(table, ref, now))
  {
    hide SlotsOk, DialsOk, Total;
    SlotsSound(table);
    if 0 <= ref < |table.slots| && table.slots[ref].used {
      FreeKeeps(table, ref, TearDown(table.slots[ref].(handle := -1), now).(link := None, state := Closed));
    }
  }

  lemma {:induction false} ReplyKeeps(table: Table, r: Request)
    requires BooksOk(table)
    ensures var next := table.(out := table.out + Reply(r, false));
      BooksOk(next) && forall t :: Total(next, t) == Total(table, t) + One(r, t)
  {
    hide Answered, Dials, Reply, One, SlotOk, Held;
    var next := table.(out := table.out + Reply(r, false));
    forall t: nat
      ensures Total(next, t) == Total(table, t) + One(r, t) && Dials(next.out, t) == Dials(table.out, t)
    {
      CountsConcat(table.out, Reply(r, false), t);
      ReplyCounts(r, false, t);
    }
  }

  lemma {:induction false} AskKeeps(table: Table, frame: Frame, tag: string, r: Request, o: Issue, now: int)
    requires BooksOk(table)
    ensures var next := Ask(table, frame, tag, r, o, now);
      BooksOk(next) && next.opens == table.opens
      && forall t {:trigger Total(next, t)} :: Total(next, t) == Total(table, t) + if frame.Short? then 0 else One(r, t)
  {
    hide SlotsOk, DialsOk, Total, RequestSlot, Moves, SlotOk, One, Reply;
    var j := Find(table.slots, ByTag(tag), 0);
    if frame.Truncated? || j < 0 {
      ReplyKeeps(table, r);
    } else if frame.Whole? {
      SlotsSound(table);
      RequestMoves(table.slots[j], r, o, now);
      PutKeeps(table, j, RequestSlot(table.slots[j], r, o, now), Some(r));
    }
  }

  lemma {:induction false} CallbackKeeps(table: Table, e: Event, key: Key)
    requires BooksOk(table)
    requires if e.Responding? || e.RequestFailed? then key.ByMrid? else key.ByLink?
    ensures Keeps(table, Callback(table, e, key))
  {
    hide SlotsOk, DialsOk, Total, EstablishSlot, CloseSlot, RespondSlot, FailSlot, Moves, SlotOk, One;
    var j := Find(table.slots, key, 0);
    if j >= 0 {
      var s := table.slots[j];
      SlotsSound(table);
      match e
      case Established(_, issue, now) => EstablishMoves(s, issue, now); PutKeeps(table, j, EstablishSlot(s, issue, now),
        None);
      case LinkClosed(_, now) => CloseMoves(s, now); PutKeeps(table, j, (CloseSlot(s, now), []), None);
      case Responding(_, roomy, now) => SettleMoves(s, roomy, now); PutKeeps(table, j, RespondSlot(s, roomy, now),
        None);
      case RequestFailed(_, now) => SettleMoves(s, true, now); PutKeeps(table, j, FailSlot(s), None);
      case _ =>
    }
  }

  function Ticked(table: Table, envs: seq<Env>, now: int, n: nat): Table
    requires n <= |table.slots| == |envs|
  {
    var p := TickTo(table.slots, envs, now, n);
    table.(slots := p.0, out := table.out + p.1)
  }

  lemma {:induction false} TickedStep(table: Table, envs: seq<Env>, now: int, n: nat)
    requires 0 < n <= |table.slots| == |envs|
    ensures var mid := Ticked(table, envs, now, n - 1);
      |mid.slots| == |table.slots| && mid.slots[n - 1] == table.slots[n - 1]
      && Ticked(table, envs, now, n) == Put(mid, n - 1, TickSlot(table.slots[n - 1], envs[n - 1], now))
  {
    hide TickSlot;
    var x := TickSlot(table.slots[n - 1], envs[n - 1], now);
    var p := TickTo(table.slots, envs, now, n - 1);
    assert table.out + (p.1 + x.1) == (table.out + p.1) + x.1;
  }

  lemma {:induction false} TickedNone(table: Table, envs: seq<Env>, now: int)
    requires |table.slots| == |envs|
    ensures Ticked(table, envs, now, 0) == table
  {
    assert table.out + [] == table.out;
  }

  lemma {:induction false} PutNothing(table: Table, j: int)
    requires 0 <= j < |table.slots|
    ensures Put(table, j, (table.slots[j], [])) == table
  {
    assert table.slots[j := table.slots[j]] == table.slots && table.out + [] == table.out;
  }

  lemma {:induction false} TickKeeps(table: Table, envs: seq<Env>, now: int, n: nat)
    requires BooksOk(table) && n <= |table.slots| == |envs| == SLOTS
    ensures Keeps(table, Ticked(table, envs, now, n))
  {
    hide SlotsOk, DialsOk, Total, TickSlot, TickTo, Moves, SlotOk, One, Ticked, Put;
    if n == 0 {
      TickedNone(table, envs, now);
    } else {
      TickKeeps(table, envs, now, n - 1);
      var mid := Ticked(table, envs, now, n - 1);
      TickedStep(table, envs, now, n);
      var s := table.slots[n - 1];
      var x := TickSlot(s, envs[n - 1], now);
      if s.used {
        SlotsSound(table);
        TickMoves(s, envs[n - 1], now);
        PutKeeps(mid, n - 1, x, None);
      } else {
        UnusedRests(s, envs[n - 1], now);
        PutNothing(mid, n - 1);
      }
    }
  }

  /** Every event keeps the books, and adds one to be answered just when it asks. */
  lemma {:induction false} ApplyKeeps(table: Table, e: Event)
    requires BooksOk(table) && |table.slots| == SLOTS && Legal(e)
    ensures BooksOk(Apply(table, e))
    ensures forall t {:trigger Total(Apply(table, e), t)} ::
      Total(Apply(table, e), t) == Total(table, t) + if Asks(e, t) then 1 else 0
  {
    hide SlotsOk, DialsOk, Total, Connect, Accept, Disconnect, Ask, Callback, TickTo, BooksOk;
    match e
    case Connecting(handle, tag, env, now) => ConnectKeeps(table, handle, tag, env, now);
    case Accepting(handle, tag, link, now) => AcceptKeeps(table, handle, tag, link, now);
    case Disconnecting(ref, now) => DisconnectKeeps(table, ref, now);
    case Asking(frame, tag, task, port, cid, token, issue, now) =>
      AskKeeps(table, frame, tag, Request(task, port, cid, token, now), issue, now);
    case Established(link, _, _) => CallbackKeeps(table, e, ByLink(link));
    case LinkClosed(link, _) => CallbackKeeps(table, e, ByLink(link));
    case Responding(mrid, _, _) => CallbackKeeps(table, e, ByMrid(mrid));
    case RequestFailed(mrid, _) => CallbackKeeps(table, e, ByMrid(mrid));
    case Tick(envs, now) => TickKeeps(table, envs, now, SLOTS);
  }

  /**
   * Over every run: each asking is held by the table or was answered, and that exactly once; no
   * open makes more than three establishments.
   */
  lemma {:induction false} ExactlyOnce(es: seq<Event>)
    requires forall e :: e in es ==> Legal(e)
    ensures BooksOk(Run(es))
    ensures forall t: nat {:trigger Held(Run(es).slots, t)} ::
      Held(Run(es).slots, t) + Answered(Run(es).out, t) == Asked(es, t)
    ensures forall o: nat {:trigger Dials(Run(es).out, o)} :: Dials(Run(es).out, o) <= ATTEMPTS
  {
    if es == [] {
      forall t: nat ensures Held(Init().slots, t) == 0 { HeldNone(Init().slots, t); }
    } else {
      hide BooksOk, Apply;
      var n := |es| - 1;
      ExactlyOnce(es[..n]);
      ApplyKeeps(Run(es[..n]), es[n]);
      BooksDials(Run(es));
      forall t: nat
        ensures Held(Run(es).slots, t) + Answered(Run(es).out, t) == Asked(es, t)
      {
        assert Total(Run(es), t) == Total(Run(es[..n]), t) + if Asks(es[n], t) then 1 else 0;
      }
    }
  }
}
