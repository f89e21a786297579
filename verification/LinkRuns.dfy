/** Runs with a clock: slots are released, and requests answered, within bounded time. */
module LinkRuns {
  import opened Prelude
  import opened LinkSlots
  import opened LinkTiming
  import opened LinkTable

  function Now(es: seq<Event>, start: int): int { if es == [] then start else es[|es| - 1].now }

  function LastTick(es: seq<Event>, start: int): int {
    if es == [] then start
    else if es[|es| - 1].Tick? then es[|es| - 1].now
    else LastTick(es[..|es| - 1], start)
  }

  predicate Fits(e: Event, b: Bounds) {
    match e
    case Connecting(_, _, env, _) => EnvFits(env, b)
    case Asking(_, _, _, _, _, _, issue, _) => IssueFits(issue, b)
    case Established(_, issue, _) => IssueFits(issue, b)
    case Tick(envs, _) => forall env :: env in envs ==> EnvFits(env, b)
    case _ => true
  }

  /** Time does not run backwards, ticks come at most a gap apart, and budgets are kept to. */
  predicate Timely(es: seq<Event>, start: int, b: Bounds) {
    if es == [] then 1 <= start
    else
      var p, e := es[..|es| - 1], es[|es| - 1];
      && Timely(p, start, b) && Legal(e) && Fits(e, b)
      && Now(p, start) <= e.now <= LastTick(p, start) + b.gap
  }

  lemma {:induction false} TimelyClock(es: seq<Event>, start: int, b: Bounds)
    requires Timely(es, start, b)
    ensures ClockOk(Now(es, start), LastTick(es, start), b)
    ensures forall e :: e in es ==> Legal(e)
  {
    if es != [] {
      var n := |es| - 1;
      TimelyClock(es[..n], start, b);
      forall e | e in es ensures Legal(e) {
        assert e in es[..n] || e == es[n];
      }
    }
  }

  // ----- every used slot stays in time

  ghost predicate AllInTime(table: Table, now: int, last: int, b: Bounds) {
    forall j :: 0 <= j < |table.slots| && table.slots[j].used ==> InTime(table.slots[j], now, last, b)
  }

  lemma {:induction false} PutInTime(table: Table, j: int, x: (Slot, seq<Effect>), now: int, last: int, b: Bounds)
    requires AllInTime(table, now, last, b) && 0 <= j < |table.slots|
    requires x.0.used ==> InTime(x.0, now, last, b)
    ensures AllInTime(Put(table, j, x), now, last, b)
  {
    hide InTime;
  }

  lemma {:induction false} FreeInTime(table: Table, j: int, s: Slot, now: int, last: int, b: Bounds)
    requires AllInTime(table, now, last, b) && 0 <= j < |table.slots|
    ensures AllInTime(FreeAt(table, j, s), now, last, b)
  {
    hide InTime;
    PutInTime(table, j, (FreeSlot(s), FailHeld(s)), now, last, b);
  }

  lemma {:induction false} AllocInTime(table: Table, now: int, last: int, b: Bounds)
    requires AllInTime(table, now, last, b) && |table.slots| == SLOTS
    ensures AllInTime(Alloc(table, now).0, now, last, b)
  {
    hide AllInTime, FreeAt;
    if Find(table.slots, Unused, 0) < 0 {
      var v := Victim(table.slots, SLOTS);
      FreeInTime(table, v, TearDown(table.slots[v], now), now, last, b);
    }
  }

  lemma {:induction false} OpensInTime(table: Table, e: Event, last: int, b: Bounds)
    requires |table.slots| == SLOTS && (e.Connecting? || e.Accepting?) && Fits(e, b) && ClockOk(e.now, last, b)
    requires AllInTime(table, e.now, last, b)
    ensures AllInTime(Apply(table, e), e.now, last, b)
  {
    hide InTime, FreeAt, Alloc, OpenSlot, AcceptSlot;
    match e
    case Connecting(handle, tag, env, now) =>
      if !Refused(table, tag) {
        var dup := Find(table.slots, ByTag(tag), 0);
        if dup >= 0 {
          FreeInTime(table, dup, table.slots[dup], now, last, b);
        }
        var mid := Reclaim(table, tag);
        AllocInTime(mid, now, last, b);
        var a := Alloc(mid, now);
        OpenInTime(table.opens, handle, tag, env, now, last, b);
        PutInTime(a.0, a.1, OpenSlot(table.opens, handle, tag, env, now), now, last, b);
      }
    case Accepting(handle, tag, link, now) =>
      AllocInTime(table, now, last, b);
      var a := Alloc(table, now);
      AcceptInTime(table.opens, handle, tag, link, now, last, b);
      PutInTime(a.0, a.1, (AcceptSlot(table.opens, handle, tag, link, now), []), now, last, b);
  }

  lemma {:induction false} AsksInTime(table: Table, e: Event, last: int, b: Bounds)
    requires SlotsOk(table) && e.Asking? && Fits(e, b) && ClockOk(e.now, last, b)
    requires AllInTime(table, e.now, last, b)
    ensures AllInTime(Apply(table, e), e.now, last, b)
  {
    hide InTime, SlotOk, RequestSlot;
    var j := Find(table.slots, ByTag(e.tag), 0);
    if e.frame.Whole? && j >= 0 {
      var r := Request(e.task, e.port, e.cid, e.token, e.now);
      RequestInTime(table.slots[j], r, e.issue, e.now, last, b);
      PutInTime(table, j, RequestSlot(table.slots[j], r, e.issue, e.now), e.now, last, b);
    }
  }

  lemma {:induction false} CallbacksInTime(table: Table, e: Event, key: Key, last: int, b: Bounds)
    requires SlotsOk(table) && Fits(e, b) && ClockOk(e.now, last, b)
    requires e.Established? || e.LinkClosed? || e.Responding? || e.RequestFailed?
    requires if e.Responding? || e.RequestFailed? then key.ByMrid? else key.ByLink?
    requires AllInTime(table, e.now, last, b)
    ensures AllInTime(Callback(table, e, key), e.now, last, b)
  {
    hide InTime, SlotOk, EstablishSlot, CloseSlot, RespondSlot, FailSlot;
    var j := Find(table.slots, key, 0);
    if j >= 0 {
      var s := table.slots[j];
      match e
      case Established(_, issue, now) =>
        EstablishInTime(s, issue, now, last, b);
        PutInTime(table, j, EstablishSlot(s, issue, now), now, last, b);
      case LinkClosed(_, now) =>
        CloseInTime(s, now, last, b);
        PutInTime(table, j, (CloseSlot(s, now), []), now, last, b);
      case Responding(_, roomy, now) =>
        SettleInTime(s, roomy, now, last, b);
        PutInTime(table, j, RespondSlot(s, roomy, now), now, last, b);
      case RequestFailed(_, now) =>
        SettleInTime(s, true, now, last, b);
        PutInTime(table, j, FailSlot(s), now, last, b);
    }
  }

  /** A tick treats every slot as TickSlot says. */
  lemma {:induction false} TickedAt(slots: seq<Slot>, envs: seq<Env>, now: int, n: nat, k: nat)
    requires k < n <= |slots| == |envs|
    ensures TickTo(slots, envs, now, n).0[k] == TickSlot(slots[k], envs[k], now).0
  {
    hide TickSlot;
    if k < n - 1 {
      TickedAt(slots, envs, now, n - 1, k);
    }
  }

  lemma {:induction false} TicksInTime(table: Table, envs: seq<Env>, now: int, last: int, b: Bounds)
    requires SlotsOk(table) && |envs| == SLOTS && ClockOk(now, last, b)
    requires forall env :: env in envs ==> EnvFits(env, b)
    requires AllInTime(table, now, last, b)
    ensures AllInTime(Apply(table, Tick(envs, now)), now, now, b)
  {
    hide InTime, SlotOk, TickSlot, TickTo;
    var next := Apply(table, Tick(envs, now));
    forall j | 0 <= j < SLOTS && next.slots[j].used
      ensures InTime(next.slots[j], now, now, b)
    {
      TickedAt(table.slots, envs, now, SLOTS, j);
      UnusedRests(table.slots[j], envs[j], now);
      TickInTime(table.slots[j], envs[j], last, now, b);
    }
  }

  lemma {:induction false} ApplyInTime(table: Table, e: Event, last: int, b: Bounds)
    requires SlotsOk(table) && Legal(e) && Fits(e, b) && ClockOk(e.now, last, b)
    requires AllInTime(table, e.now, last, b)
    ensures AllInTime(Apply(table, e), e.now, if e.Tick? then e.now else last, b)
  {
    hide SlotsOk, AllInTime, Callback, ClockOk;
    SlotsSound(table);
    match e
    case Connecting(_, _, _, _) => OpensInTime(table, e, last, b);
    case Accepting(_, _, _, _) => OpensInTime(table, e, last, b);
    case Disconnecting(ref, now) =>
      if 0 <= ref < |table.slots| && table.slots[ref].used {
        FreeInTime(table, ref, TearDown(table.slots[ref].(handle := -1), now).(link := None, state := Closed), now,
          last, b);
      }
    case Asking(_, _, _, _, _, _, _, _) => AsksInTime(table, e, last, b);
    case Established(link, _, _) => CallbacksInTime(table, e, ByLink(link), last, b);
    case LinkClosed(link, _) => CallbacksInTime(table, e, ByLink(link), last, b);
    case Responding(mrid, _, _) => CallbacksInTime(table, e, ByMrid(mrid), last, b);
    case RequestFailed(mrid, _) => CallbacksInTime(table, e, ByMrid(mrid), last, b);
    case Tick(envs, now) => TicksInTime(table, envs, now, last, b);
  }

  lemma {:induction false} RunInTime(es: seq<Event>, start: int, b: Bounds)
    requires Timely(es, start, b)
    ensures forall e :: e in es ==> Legal(e)
    ensures SlotsOk(Run(es)) && AllInTime(Run(es), Now(es, start), LastTick(es, start), b)
  {
    hide SlotsOk, InTime, Apply;
    TimelyClock(es, start, b);
    ExactlyOnce(es);
    if es != [] {
      var n := |es| - 1;
      RunInTime(es[..n], start, b);
      TimelyClock(es[..n], start, b);
      var table := Run(es[..n]);
      var now, last := Now(es[..n], start), LastTick(es[..n], start);
      SlotsSound(table);
      forall j | 0 <= j < SLOTS && table.slots[j].used
        ensures InTime(table.slots[j], es[n].now, last, b)
      {
        LaterInTime(table.slots[j], now, es[n].now, last, b);
      }
      ApplyInTime(table, es[n], last, b);
    }
  }

  /**
   * Over every timely run: a slot that waits, establishes or has failed was opened no longer ago
   * than three attempts and a release take; a closed one is released after the grace.
   */
  lemma {:induction false} SlotsReleased(es: seq<Event>, start: int, b: Bounds, j: nat)
    requires Timely(es, start, b) && j < SLOTS
    requires forall e :: e in es ==> Legal(e)
    ensures var s := Run(es).slots[j];
      s.used && !s.state.Active? ==> Now(es, start) <= if s.state.Closed? then s.deadAt + GRACE + b.gap
        else s.openedAt + OpenTime(b)
  {
    hide InTime;
    RunInTime(es, start, b);
    TimelyClock(es, start, b);
    var s := Run(es).slots[j];
    if s.used {
      InTimeBounds(s, Now(es, start), LastTick(es, start), b);
    }
  }

  // ----- every request is answered, once, in bounded time

  predicate HoldsSince(s: Slot, t: nat, since: int) {
    && (s.pending.Some? && s.pending.value.token == t ==> s.pending.value.asked <= since)
    && (s.inFlight.Some? && s.inFlight.value.r.token == t ==> s.inFlight.value.r.asked <= since)
  }

  ghost predicate AllSince(slots: seq<Slot>, t: nat, since: int) {
    forall j :: 0 <= j < |slots| ==> HoldsSince(slots[j], t, since)
  }

  /** The event does not ask with this token. */
  predicate Quiet(e: Event, t: nat) { !(e.Asking? && e.token == t) }

  lemma {:induction false} QuietSlots(s: Slot, e: Event, t: nat, since: int)
    requires HoldsSince(s, t, since)
    ensures e.Established? ==> HoldsSince(EstablishSlot(s, e.issue, e.now).0, t, since)
    ensures HoldsSince(CloseSlot(s, e.now), t, since) && HoldsSince(FreeSlot(s), t, since)
    ensures s.inFlight.Some? ==> HoldsSince(FailSlot(s).0, t, since)
    ensures s.inFlight.Some? && e.Responding? ==> HoldsSince(RespondSlot(s, e.roomy, e.now).0, t, since)
    ensures e.Asking? && Quiet(e, t) ==>
      HoldsSince(RequestSlot(s, Request(e.task, e.port, e.cid, e.token, e.now), e.issue, e.now).0, t, since)
  {
    hide Reply;
  }

  lemma {:induction false} QuietTick(s: Slot, env: Env, now: int, t: nat, since: int)
    requires HoldsSince(s, t, since)
    ensures HoldsSince(TickSlot(s, env, now).0, t, since)
  {
  }

  lemma {:induction false} NewHoldsNothing(opening: nat, handle: int, tag: string, env: Env, link: nat, now: int,
      t: nat, since: int)
    ensures HoldsSince(OpenSlot(opening, handle, tag, env, now).0, t, since)
    ensures HoldsSince(AcceptSlot(opening, handle, tag, link, now), t, since)
  {
  }

  lemma {:induction false} QuietFree(table: Table, j: int, s: Slot, t: nat, since: int)
    requires AllSince(table.slots, t, since) && 0 <= j < |table.slots|
    ensures AllSince(FreeAt(table, j, s).slots, t, since)
  {
  }

  lemma {:induction false} QuietAlloc(table: Table, now: int, t: nat, since: int)
    requires AllSince(table.slots, t, since) && |table.slots| == SLOTS
    ensures AllSince(Alloc(table, now).0.slots, t, since)
  {
    hide AllSince, FreeAt;
    if Find(table.slots, Unused, 0) < 0 {
      var v := Victim(table.slots, SLOTS);
      QuietFree(table, v, TearDown(table.slots[v], now), t, since);
    }
  }

  lemma {:induction false} QuietOpen(table: Table, e: Event, t: nat, since: int)
    requires AllSince(table.slots, t, since) && |table.slots| == SLOTS && (e.Connecting? || e.Accepting?)
    ensures AllSince(Apply(table, e).slots, t, since)
  {
    hide HoldsSince, FreeAt, Alloc, OpenSlot, AcceptSlot;
    match e
    case Connecting(handle, tag, env, now) =>
      if !Refused(table, tag) {
        var dup := Find(table.slots, ByTag(tag), 0);
        if dup >= 0 {
          QuietFree(table, dup, table.slots[dup], t, since);
        }
        QuietAlloc(Reclaim(table, tag), now, t, since);
        NewHoldsNothing(table.opens, handle, tag, env, 0, now, t, since);
      }
    case Accepting(handle, tag, link, now) =>
      QuietAlloc(table, now, t, since);
      NewHoldsNothing(table.opens, handle, tag, Env(false, false, NoIdentity, false, 0), link, now, t, since);
  }

  lemma {:induction false} QuietApply(table: Table, e: Event, t: nat, since: int)
    requires AllSince(table.slots, t, since) && |table.slots| == SLOTS && Legal(e) && Quiet(e, t)
    ensures AllSince(Apply(table, e).slots, t, since)
  {
    hide HoldsSince, FreeAt, Connect, Accept, EstablishSlot, CloseSlot, RespondSlot, FailSlot, RequestSlot, FreeSlot,
      TickSlot, TickTo;
    if e.Connecting? || e.Accepting? {
      QuietOpen(table, e, t, since);
    } else {
      forall j | 0 <= j < SLOTS
        ensures HoldsSince(Apply(table, e).slots[j], t, since)
      {
        QuietSlots(table.slots[j], e, t, since);
        match e
        case Disconnecting(ref, now) =>
          if 0 <= ref < |table.slots| {
            QuietFree(table, ref, TearDown(table.slots[ref].(handle := -1), now).(link := None, state := Closed), t,
              since);
          }
        case Tick(envs, now) =>
          TickedAt(table.slots, envs, now, SLOTS, j);
          QuietTick(table.slots[j], envs[j], now, t, since);
        case _ =>
      }
    }
  }

  lemma {:induction false} HeldSince(s: Slot, now: int, last: int, b: Bounds, t: nat)
    requires InTime(s, now, last, b)
    ensures HoldsSince(s, t, now)
  {
  }

  /** What is held with a token goes back to when that token was last asked with. */
  lemma {:induction false} HeldIsOld(es: seq<Event>, k: nat, start: int, b: Bounds, t: nat)
    requires Timely(es, start, b) && k <= |es|
    requires forall e :: e in es ==> Legal(e)
    requires forall i :: k <= i < |es| ==> Quiet(es[i], t)
    ensures AllSince(Run(es).slots, t, Now(es[..k], start))
    decreases |es|
  {
    hide InTime, Apply, SlotsOk;
    if k == |es| {
      assert es[..k] == es;
      RunInTime(es, start, b);
      forall j | 0 <= j < SLOTS
        ensures HoldsSince(Run(es).slots[j], t, Now(es, start))
      {
        var s := Run(es).slots[j];
        SlotsSound(Run(es));
        if s.used {
          HeldSince(s, Now(es, start), LastTick(es, start), b, t);
        }
      }
    } else {
      var n := |es| - 1;
      assert es[..n][..k] == es[..k];
      HeldIsOld(es[..n], k, start, b, t);
      QuietApply(Run(es[..n]), es[n], t, Now(es[..k], start));
    }
  }

  /**
   * Once the answer time has passed since a token was last asked with, nothing is held for it
   * any more: each asking has been answered, exactly once.
   */
  lemma {:induction false} Settled(es: seq<Event>, k: nat, start: int, b: Bounds, t: nat)
    requires Timely(es, start, b) && k <= |es|
    requires forall e :: e in es ==> Legal(e)
    requires forall i :: k <= i < |es| ==> Quiet(es[i], t)
    requires Now(es, start) > Now(es[..k], start) + AnswerTime(b)
    ensures Answered(Run(es).out, t) == Asked(es, t)
  {
    hide InTime, Run, Answered, Held, Asked;
    RunInTime(es, start, b);
    TimelyClock(es, start, b);
    HeldIsOld(es, k, start, b, t);
    ExactlyOnce(es);
    var table := Run(es);
    forall j | 0 <= j < SLOTS
      ensures HeldIn(table.slots[j], t) == 0
    {
      var s := table.slots[j];
      if s.used {
        InTimeBounds(s, Now(es, start), LastTick(es, start), b);
      }
    }
    HeldNone(table.slots, t);
  }
}
