/**
 * How long a slot can stay unestablished. Ticks come at most a gap apart, a path wait and
 * an establishment have their budgets, and a request its timeout; every deadline is then
 * acted on within a gap, and at most three attempts fit between the open and the free.
 */
module LinkTiming {
  import opened Prelude
  import opened LinkSlots

  datatype Bounds = Bounds(gap: nat, path: nat, estab: nat, reply: nat)

  /** One attempt: wait for a path, establish, and be noticed. */
  function AttemptTime(b: Bounds): nat { b.path + b.estab + 3 * b.gap }

  /** From failure to the slot's release. */
  function ReleaseTime(b: Bounds): nat { GRACE + 2 * b.gap }

  /** What the attempts still to come may take. */
  function Ahead(attempts: nat, b: Bounds): nat {
    match attempts
    case 0 => 3 * AttemptTime(b)
    case 1 => 2 * AttemptTime(b)
    case 2 => AttemptTime(b)
    case _ => 0
  }

  /** The longest a slot can be open without being active, closed or free. */
  function OpenTime(b: Bounds): nat { 3 * AttemptTime(b) + ReleaseTime(b) }

  /** The longest a request can be held. */
  function AnswerTime(b: Bounds): nat { OpenTime(b) + b.reply + RESPONSE_SLACK + b.gap }

  predicate KickoffFits(k: Kickoff, b: Bounds) { k.Started? ==> k.budget <= b.estab }

  predicate EnvFits(env: Env, b: Bounds) { env.pathBudget <= b.path && KickoffFits(env.kickoff, b) }

  predicate IssueFits(o: Issue, b: Bounds) { o.Issued? ==> o.timeout <= b.reply }

  /** The time, and the time of the last tick. */
  predicate ClockOk(now: int, last: int, b: Bounds) { 1 <= last <= now <= last + b.gap }

  /** Deadlines lie ahead of the last tick, and leave room for what may still follow. */
  ghost predicate InTime(s: Slot, now: int, last: int, b: Bounds) {
    && s.openedAt <= now
    && (s.state.AwaitingPath? ==>
          last <= s.pathDeadline && s.pathDeadline + b.estab + 3 * b.gap + Ahead(s.attempts + 1, b) <= s.openedAt
            + Ahead(0, b))
    && (s.state.Establishing? ==>
          && 1 <= last <= s.estabDeadline
          && s.estabDeadline + (if s.link.Some? then 2 * b.gap else b.gap) + Ahead(s.attempts, b) <= s.openedAt
            + Ahead(0, b))
    && (s.state.Failed? ==>
          if s.deadAt == 0 then last + 2 * b.gap + GRACE <= s.openedAt + OpenTime(b)
          else last < s.deadAt + GRACE && s.deadAt + b.gap + GRACE <= s.openedAt + OpenTime(b))
    && (s.state.Closed? ==> 1 <= s.deadAt <= now && last < s.deadAt + GRACE)
    && (s.pending.Some? ==> s.openedAt <= s.pending.value.asked <= now)
    && (s.pending.Some? && s.state.Closed? ==> s.deadAt <= s.pending.value.asked)
    && (s.inFlight.Some? ==>
          && s.inFlight.value.r.asked <= now
          && last < s.inFlight.value.deadline
          && s.inFlight.value.deadline + b.gap <= s.inFlight.value.r.asked + AnswerTime(b))
  }

  /** Time passing changes nothing a slot relies on. */
  lemma {:induction false} LaterInTime(s: Slot, now: int, later: int, last: int, b: Bounds)
    requires InTime(s, now, last, b) && now <= later
    ensures InTime(s, later, last, b)
  {
  }

  /** The bounds read off: how late it can be while a slot is used and not active, or holds a request. */
  lemma {:induction false} InTimeBounds(s: Slot, now: int, last: int, b: Bounds)
    requires SlotOk(s) && InTime(s, now, last, b) && ClockOk(now, last, b)
    ensures s.state.AwaitingPath? || s.state.Establishing? || s.state.Failed? ==> now <= s.openedAt + OpenTime(b)
    ensures s.state.Closed? ==> now < s.deadAt + GRACE + b.gap
    ensures s.pending.Some? && s.used ==> now <= s.pending.value.asked + OpenTime(b)
    ensures s.inFlight.Some? && s.used ==> now < s.inFlight.value.r.asked + AnswerTime(b)
  {
  }

  lemma {:induction false} KickoffInTime(s: Slot, k: Kickoff, now: int, b: Bounds)
    requires s.attempts < ATTEMPTS && s.deadAt == 0 && s.openedAt <= now && 1 <= now && KickoffFits(k, b)
    requires s.pending.Some? ==> s.openedAt <= s.pending.value.asked <= now
    requires s.inFlight.None?
    requires now + b.estab + 2 * b.gap + Ahead(s.attempts + 1, b) <= s.openedAt + Ahead(0, b)
    ensures InTime(KickoffSlot(s, k, now).0, now, now, b)
  {
  }

  lemma {:induction false} WaitInTime(s: Slot, env: Env, last: int, now: int, b: Bounds)
    requires SlotOk(s) && s.state.AwaitingPath? && EnvFits(env, b)
    requires InTime(s, now, last, b) && ClockOk(now, last, b)
    ensures InTime(TickState(s, env, now).0, now, now, b)
  {
    hide KickoffSlot;
    if env.reachable {
      KickoffInTime(s, env.kickoff, now, b);
    }
  }

  lemma {:induction false} TryInTime(s: Slot, env: Env, last: int, now: int, b: Bounds)
    requires SlotOk(s) && s.state.Establishing? && EnvFits(env, b)
    requires InTime(s, now, last, b) && ClockOk(now, last, b)
    ensures InTime(TickState(s, env, now).0, now, now, b)
  {
    hide KickoffSlot;
    if s.estabDeadline <= now && env.alive && s.attempts < ATTEMPTS && env.reachableAfterExpiry {
      KickoffInTime(s.(link := None), env.kickoff, now, b);
    }
  }

  /** A tick acts on every deadline that has passed, and what it starts fits into what is left. */
  lemma {:induction false} TickInTime(s: Slot, env: Env, last: int, now: int, b: Bounds)
    requires SlotOk(s) && s.used && EnvFits(env, b)
    requires InTime(s, now, last, b) && ClockOk(now, last, b)
    ensures TickSlot(s, env, now).0.used ==> InTime(TickSlot(s, env, now).0, now, now, b)
  {
    hide KickoffSlot, FailHeld, RetrySlot;
    match s.state
    case AwaitingPath =>
      WaitInTime(s, env, last, now, b);
    case Establishing =>
      TryInTime(s, env, last, now, b);
    case _ =>
  }

  lemma {:induction false} OpenInTime(opening: nat, handle: int, tag: string, env: Env, now: int, last: int, b: Bounds)
    requires EnvFits(env, b) && ClockOk(now, last, b)
    ensures InTime(OpenSlot(opening, handle, tag, env, now).0, now, last, b)
  {
  }

  lemma {:induction false} AcceptInTime(opening: nat, handle: int, tag: string, link: nat, now: int, last: int,
      b: Bounds)
    requires ClockOk(now, last, b)
    ensures InTime(AcceptSlot(opening, handle, tag, link, now), now, last, b)
  {
  }

  lemma {:induction false} RequestInTime(s: Slot, r: Request, o: Issue, now: int, last: int, b: Bounds)
    requires SlotOk(s) && s.used && r.asked == now && IssueFits(o, b)
    requires InTime(s, now, last, b) && ClockOk(now, last, b)
    ensures InTime(RequestSlot(s, r, o, now).0, now, last, b)
  {
  }

  /** The deferred request was held no longer than an open can take, so its own timeout still fits. */
  lemma {:induction false} EstablishInTime(s: Slot, o: Issue, now: int, last: int, b: Bounds)
    requires SlotOk(s) && s.link.Some? && IssueFits(o, b)
    requires InTime(s, now, last, b) && ClockOk(now, last, b)
    ensures InTime(EstablishSlot(s, o, now).0, now, last, b)
  {
    InTimeBounds(s, now, last, b);
  }

  /** A close during establishment can move its deadline back by a gap, once. */
  lemma {:induction false} CloseInTime(s: Slot, now: int, last: int, b: Bounds)
    requires SlotOk(s) && s.link.Some?
    requires InTime(s, now, last, b) && ClockOk(now, last, b)
    ensures InTime(CloseSlot(s, now), now, last, b)
  {
  }

  lemma {:induction false} SettleInTime(s: Slot, roomy: bool, now: int, last: int, b: Bounds)
    requires InTime(s, now, last, b) && s.inFlight.Some?
    ensures InTime(RespondSlot(s, roomy, now).0, now, last, b)
    ensures InTime(FailSlot(s).0, now, last, b)
  {
  }
}
