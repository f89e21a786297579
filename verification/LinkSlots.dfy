/**
 * One link slot: path wait, establishment, retry, active, closed, freed, with a request
 * deferred or in flight. Times are milliseconds and positive, so that 0 can mean "none".
 * The fields opening, token and asked only tell opens and requests apart.
 */
module LinkSlots {
  import opened Prelude

  const ATTEMPTS := 3
  const GRACE := 3_000
  const REASK := 30_000
  const RESPONSE_SLACK := 5_000

  datatype LinkState = Free | AwaitingPath | Establishing | Active | Closed | Failed

  datatype Request = Request(task: nat, port: nat, cid: nat, token: nat, asked: int)

  /** There is a task and a port to answer to. */
  predicate WellFormed(r: Request) { r.task != 0 && r.port != 0 }

  /** What leaves the table: an answer to a requester, or a link dialled for an open. */
  datatype Effect = Response(r: Request) | Failure(r: Request) | Dialed(opening: nat)

  datatype InFlight = InFlight(mrid: nat, r: Request, deadline: int)

  datatype Slot = Slot(
    used: bool, opening: nat, handle: int, tag: string, state: LinkState, link: Option<nat>,
    openedAt: int, lastActivity: int, pathDeadline: int, pathAskedAt: int, estabDeadline: int,
    attempts: nat, deadAt: int, pending: Option<Request>, inFlight: Option<InFlight>)

  // ----- what the surroundings decide

  /** What comes of building a link: its identity and the time it may take to establish. */
  datatype Kickoff = NoIdentity | AspectMismatch | CtorThrew | Started(link: nat, budget: nat)

  /** What Link::request does: throw, return nothing, or return an id and a timeout. */
  datatype Issue = Threw | Nothing | Issued(mrid: nat, timeout: nat)

  /** What one slot finds at an open or a tick. */
  datatype Env = Env(reachable: bool, reachableAfterExpiry: bool, kickoff: Kickoff, alive: bool, pathBudget: nat)

  // ----- one slot

  /** An answer goes out if there is anywhere to send it. */
  function Reply(r: Request, ok: bool): (s: seq<Effect>)
    ensures |s| <= 1
  {
    if !WellFormed(r) then [] else if ok then [Response(r)] else [Failure(r)]
  }

  /** linkKickoff */
  function KickoffSlot(s: Slot, k: Kickoff, now: int): (Slot, seq<Effect>) {
    match k
    case Started(link, budget) =>
      (s.(link := Some(link), state := Establishing, estabDeadline := now + budget,
          attempts := if s.attempts < 255 then s.attempts + 1 else s.attempts), [Dialed(s.opening)])
    case _ => (s.(state := Failed), [])
  }

  /** The part of linkFreeSlot that answers what the slot still holds. */
  function FailHeld(s: Slot): seq<Effect> {
    (if s.inFlight.Some? then Reply(s.inFlight.value.r, false) else [])
    + (if s.pending.Some? then Reply(s.pending.value, false) else [])
  }

  /** The rest of linkFreeSlot. */
  function FreeSlot(s: Slot): Slot {
    s.(used := false, handle := -1, state := Free, link := None, lastActivity := 0, attempts := 0,
       pending := None, inFlight := None)
  }

  /** linkRetry */
  function RetrySlot(s: Slot, env: Env, now: int): (Slot, seq<Effect>) {
    if env.reachableAfterExpiry then KickoffSlot(s.(state := Establishing), env.kickoff, now)
    else
      (s.(state := AwaitingPath, estabDeadline := 0, pathDeadline := now + env.pathBudget, pathAskedAt := now), [])
  }

  /** linkStartRequest */
  function StartSlot(s: Slot, r: Request, o: Issue, now: int): (Slot, seq<Effect>) {
    if s.inFlight.Some? then (s, Reply(r, false))
    else
      match o
      case Issued(mrid, timeout) =>
        (s.(inFlight := Some(InFlight(mrid, r, now + timeout + RESPONSE_SLACK)), lastActivity := now), [])
      case _ => (s, Reply(r, false))
  }

  /** onLinkEstablishedCb: the deferred request goes out. */
  function EstablishSlot(s: Slot, o: Issue, now: int): (Slot, seq<Effect>) {
    var s1 := s.(state := Active, estabDeadline := 0, lastActivity := now);
    if s1.pending.Some? then StartSlot(s1.(pending := None), s1.pending.value, o, now) else (s1, [])
  }

  /** onLinkClosedCb: during establishment it only brings the deadline forward. */
  function CloseSlot(s: Slot, now: int): Slot {
    if s.state.Establishing? then s.(link := None, estabDeadline := now)
    else s.(state := Closed, deadAt := now, link := None)
  }

  /** onReqResponseCb, when there is memory for the response and when there is not. */
  function RespondSlot(s: Slot, roomy: bool, now: int): (Slot, seq<Effect>)
    requires s.inFlight.Some?
  {
    (s.(inFlight := None, lastActivity := now), Reply(s.inFlight.value.r, roomy))
  }

  /** onReqFailedCb, and the timeout in linkTick. */
  function FailSlot(s: Slot): (Slot, seq<Effect>)
    requires s.inFlight.Some?
  {
    (s.(inFlight := None), Reply(s.inFlight.value.r, false))
  }

  /** A REQUEST for this slot's link. */
  function RequestSlot(s: Slot, r: Request, o: Issue, now: int): (Slot, seq<Effect>) {
    if !s.state.Active? || s.link.None? then
      if s.pending.Some? || s.inFlight.Some? then (s, Reply(r, false)) else (s.(pending := Some(r)), [])
    else StartSlot(s, r, o, now)
  }

  function TickRequest(s: Slot, now: int): (Slot, seq<Effect>) {
    if s.inFlight.Some? && s.inFlight.value.deadline != 0 && now >= s.inFlight.value.deadline then FailSlot(s)
    else (s, [])
  }

  function TickState(s: Slot, env: Env, now: int): (Slot, seq<Effect>) {
    match s.state
    case AwaitingPath =>
      if env.reachable then KickoffSlot(s, env.kickoff, now)
      else if now - s.pathAskedAt >= REASK && now < s.pathDeadline then (s.(pathAskedAt := now), [])
      else if now >= s.pathDeadline then (s.(state := Failed, deadAt := now), [])
      else (s, [])
    case Establishing =>
      if s.estabDeadline != 0 && now >= s.estabDeadline then
        var s1 := s.(link := None);
        if env.alive && s.attempts < ATTEMPTS then RetrySlot(s1, env, now)
        else (s1.(state := Failed, deadAt := now), [])
      else (s, [])
    case Closed => TickDead(s, now)
    case Failed => TickDead(s, now)
    case _ => (s, [])
  }

  function TickDead(s: Slot, now: int): (Slot, seq<Effect>) {
    var s1 := if s.deadAt == 0 then s.(deadAt := now) else s;
    if now - s1.deadAt >= GRACE then (FreeSlot(s1), FailHeld(s1)) else (s1, [])
  }

  /** linkTick, for one slot. */
  function TickSlot(s: Slot, env: Env, now: int): (Slot, seq<Effect>) {
    if !s.used then (s, [])
    else
      var a := TickRequest(s, now);
      var b := TickState(a.0, env, now);
      (b.0, a.1 + b.1)
  }

  lemma {:induction false} UnusedRests(s: Slot, env: Env, now: int)
    ensures !s.used ==> TickSlot(s, env, now) == (s, [])
  {
  }

  /** The teardown of a link fires the closed callback while the slot still has the link. */
  function TearDown(s: Slot, now: int): Slot {
    if s.link.Some? then CloseSlot(s, now).(link := None) else s
  }

  /** onLinkConnect, once a slot is found. */
  function OpenSlot(opening: nat, handle: int, tag: string, env: Env, now: int): (Slot, seq<Effect>) {
    var s := Slot(true, opening, handle, tag, Establishing, None, now, now, now + env.pathBudget, now, 0, 0, 0, None,
      None);
    if env.reachable then KickoffSlot(s, env.kickoff, now) else (s.(state := AwaitingPath), [])
  }

  lemma {:induction false} OpenedAs(opening: nat, handle: int, tag: string, env: Env, now: int)
    ensures var s := OpenSlot(opening, handle, tag, env, now).0;
      s.used && s.tag == tag && s.handle == handle && s.opening == opening
  {
  }

  /** onIncomingLinkEstablished, once a slot is found. No handle means the consumer cannot be reached. */
  function AcceptSlot(opening: nat, handle: int, tag: string, link: nat, now: int): Slot {
    var s := Slot(true, opening, handle, tag, Active, Some(link), now, now, 0, 0, 0, 0, 0, None, None);
    if handle < 0 then s.(handle := -1, link := None, state := Failed, deadAt := now) else s
  }

  // ----- what every slot keeps

  ghost predicate SlotOk(s: Slot) {
    && s.attempts <= ATTEMPTS
    && (!s.used ==> s.state.Free? && s.link.None? && s.pending.None? && s.inFlight.None?)
    && (s.used ==> !s.state.Free?)
    && (s.state.AwaitingPath? ==> s.attempts < ATTEMPTS && s.link.None?)
    && (s.state.Establishing? ==> 1 <= s.attempts)
    && (s.state.AwaitingPath? || s.state.Establishing? ==> s.deadAt == 0)
    && (s.state.Active? ==> s.link.Some? && s.pending.None?)
    && (s.link.Some? ==> s.state.Establishing? || s.state.Active?)
    && (s.inFlight.Some? ==> s.state.Active? || s.state.Closed?)
  }

  /** 1 for the request with this token, if it has anywhere to be answered. */
  function One(r: Request, t: nat): nat { if WellFormed(r) && r.token == t then 1 else 0 }

  /** How often a slot holds the request with this token. */
  function HeldIn(s: Slot, t: nat): nat {
    (if s.pending.Some? then One(s.pending.value, t) else 0)
      + (if s.inFlight.Some? then One(s.inFlight.value.r, t) else 0)
  }

  function Answers(e: Effect, t: nat): nat { if !e.Dialed? && e.r.token == t then 1 else 0 }

  function Answered(log: seq<Effect>, t: nat): nat {
    if log == [] then 0 else Answered(log[..|log| - 1], t) + Answers(log[|log| - 1], t)
  }

  function Dials(log: seq<Effect>, o: nat): nat {
    if log == [] then 0 else Dials(log[..|log| - 1], o) + if log[|log| - 1] == Dialed(o) then 1 else 0
  }

  lemma {:induction false} CountsConcat(a: seq<Effect>, b: seq<Effect>, n: nat)
    ensures Answered(a + b, n) == Answered(a, n) + Answered(b, n)
    ensures Dials(a + b, n) == Dials(a, n) + Dials(b, n)
    decreases |b|
  {
    if b == [] {
      assert a + b == a;
    } else {
      var b' := b[..|b| - 1];
      CountsConcat(a, b', n);
      assert (a + b)[..|a + b| - 1] == a + b';
    }
  }

  lemma {:induction false} CountsShort(e: Effect, n: nat)
    ensures Answered([e], n) == Answers(e, n) && Answered([], n) == 0
    ensures Dials([e], n) == (if e == Dialed(n) then 1 else 0) && Dials([], n) == 0
  {
    assert [e][..0] == [];
  }

  lemma {:induction false} ReplyCounts(r: Request, ok: bool, n: nat)
    ensures Answered(Reply(r, ok), n) == One(r, n)
    ensures Dials(Reply(r, ok), n) == 0
  {
    CountsShort(if ok then Response(r) else Failure(r), n);
  }

  /**
   * A slot went from s to s2, taking in the request and putting out the effects: for every
   * token, what was held or came in is held or answered; for every open, its establishments
   * are counted in attempts.
   */
  ghost predicate Moves(s: Slot, s2: Slot, out: seq<Effect>, came: Option<Request>) {
    && SlotOk(s2) && s2.opening == s.opening && s2.openedAt == s.openedAt
    && (forall t {:trigger Answered(out, t)} ::
      HeldIn(s, t) + (if came.Some? then One(came.value, t) else 0) == HeldIn(s2, t) + Answered(out, t))
    && (forall o {:trigger Dials(out, o)} ::
      Dials(out, o) == if s2.used && o == s.opening then s2.attempts - s.attempts else 0)
  }

  lemma {:induction false} FreeMoves(s: Slot)
    ensures Moves(s, FreeSlot(s), FailHeld(s), None)
  {
    hide Answered, Dials, Reply;
    forall n: nat
      ensures Answered(FailHeld(s), n) == HeldIn(s, n) && Dials(FailHeld(s), n) == 0
    {
      CountsShort(Dialed(0), n);
      if s.inFlight.Some? {
        ReplyCounts(s.inFlight.value.r, false, n);
      }
      if s.pending.Some? {
        ReplyCounts(s.pending.value, false, n);
      }
      CountsConcat(if s.inFlight.Some? then Reply(s.inFlight.value.r, false) else [],
                   if s.pending.Some? then Reply(s.pending.value, false) else [], n);
    }
    assert SlotOk(FreeSlot(s));
  }

  lemma {:induction false} KickoffMoves(s: Slot, k: Kickoff, now: int)
    requires s.used && s.attempts < ATTEMPTS && s.deadAt == 0 && s.inFlight.None? && s.link.None?
    ensures var x := KickoffSlot(s, k, now); Moves(s, x.0, x.1, None)
  {
    hide Answered, Dials;
    forall n: nat
      ensures Answered([], n) == 0 && Dials([], n) == 0
      ensures Answered([Dialed(s.opening)], n) == 0
      ensures Dials([Dialed(s.opening)], n) == if n == s.opening then 1 else 0
    {
      CountsShort(Dialed(s.opening), n);
    }
  }

  /** Starting a request in a slot that has taken it in: it is held, or failed at once. */
  lemma {:induction false} StartMoves(s: Slot, r: Request, o: Issue, now: int)
    requires SlotOk(s) && s.state.Active?
    ensures var x := StartSlot(s, r, o, now); Moves(s, x.0, x.1, Some(r))
  {
    hide Answered, Dials, Reply;
    forall n: nat
      ensures Answered([], n) == 0 && Dials([], n) == 0
      ensures Answered(Reply(r, false), n) == One(r, n) && Dials(Reply(r, false), n) == 0
    {
      CountsShort(Dialed(0), n);
      ReplyCounts(r, false, n);
    }
  }

  lemma {:induction false} RequestMoves(s: Slot, r: Request, o: Issue, now: int)
    requires SlotOk(s) && s.used
    ensures var x := RequestSlot(s, r, o, now); Moves(s, x.0, x.1, Some(r))
  {
    hide Answered, Dials, Reply, StartSlot;
    if s.state.Active? {
      StartMoves(s, r, o, now);
    } else {
      forall n: nat
        ensures Answered([], n) == 0 && Dials([], n) == 0
        ensures Answered(Reply(r, false), n) == One(r, n) && Dials(Reply(r, false), n) == 0
      {
        CountsShort(Dialed(0), n);
        ReplyCounts(r, false, n);
      }
    }
  }

  lemma {:induction false} EstablishMoves(s: Slot, o: Issue, now: int)
    requires SlotOk(s) && s.link.Some?
    ensures var x := EstablishSlot(s, o, now); Moves(s, x.0, x.1, None)
  {
    hide Answered, Dials, StartSlot;
    var s1 := s.(state := Active, estabDeadline := 0, lastActivity := now, pending := None);
    if s.pending.Some? {
      StartMoves(s1, s.pending.value, o, now);
    } else {
      forall n: nat ensures Answered([], n) == 0 && Dials([], n) == 0 { CountsShort(Dialed(0), n); }
    }
  }

  lemma {:induction false} CloseMoves(s: Slot, now: int)
    requires SlotOk(s) && s.link.Some?
    ensures Moves(s, CloseSlot(s, now), [], None)
  {
    hide Answered, Dials;
    forall n: nat ensures Answered([], n) == 0 && Dials([], n) == 0 { CountsShort(Dialed(0), n); }
  }

  /** The in-flight request is answered, whichever way. */
  lemma {:induction false} SettleMoves(s: Slot, roomy: bool, now: int)
    requires SlotOk(s) && s.inFlight.Some?
    ensures var x := RespondSlot(s, roomy, now); Moves(s, x.0, x.1, None)
    ensures var y := FailSlot(s); Moves(s, y.0, y.1, None)
  {
    hide Answered, Dials, Reply;
    var r := s.inFlight.value.r;
    forall n: nat
      ensures Answered(Reply(r, roomy), n) == One(r, n) && Dials(Reply(r, roomy), n) == 0
      ensures Answered(Reply(r, false), n) == One(r, n) && Dials(Reply(r, false), n) == 0
    {
      ReplyCounts(r, roomy, n);
      ReplyCounts(r, false, n);
    }
  }

  lemma {:induction false} TickStateMoves(s: Slot, env: Env, now: int)
    requires SlotOk(s) && s.used
    ensures var x := TickState(s, env, now); Moves(s, x.0, x.1, None)
  {
    hide Answered, Dials, KickoffSlot, FailHeld;
    forall n: nat ensures Answered([], n) == 0 && Dials([], n) == 0 { CountsShort(Dialed(0), n); }
    match s.state
    case AwaitingPath =>
      KickoffMoves(s, env.kickoff, now);
    case Establishing =>
      if s.attempts < ATTEMPTS {
        KickoffMoves(s.(link := None), env.kickoff, now);
      }
    case Closed =>
      FreeMoves(if s.deadAt == 0 then s.(deadAt := now) else s);
    case Failed =>
      FreeMoves(if s.deadAt == 0 then s.(deadAt := now) else s);
    case Active =>
  }

  /** A tick only turns held requests into answers, and dials at most once. */
  lemma {:induction false} TickMoves(s: Slot, env: Env, now: int)
    requires SlotOk(s) && s.used
    ensures var x := TickSlot(s, env, now); Moves(s, x.0, x.1, None)
  {
    hide Answered, Dials, TickState, FailSlot;
    var a := TickRequest(s, now);
    if s.inFlight.Some? {
      SettleMoves(s, false, now);
    }
    forall n: nat ensures Answered([], n) == 0 && Dials([], n) == 0 { CountsShort(Dialed(0), n); }
    assert Moves(s, a.0, a.1, None);
    assert a.0 == s || a == FailSlot(s);
    if s.inFlight.Some? {
      AfterFail(s);
    }
    TickStateMoves(a.0, env, now);
    var b := TickState(a.0, env, now);
    forall n: nat
      ensures Answered(a.1 + b.1, n) == Answered(a.1, n) + Answered(b.1, n)
      ensures Dials(a.1 + b.1, n) == Dials(a.1, n) + Dials(b.1, n)
    {
      CountsConcat(a.1, b.1, n);
    }
  }

  lemma {:induction false} AfterFail(s: Slot)
    requires s.inFlight.Some?
    ensures FailSlot(s).0.used == s.used && FailSlot(s).0.attempts == s.attempts
  {
  }
}
