/**
 * What becomes of a slot and of what it holds, from both sides: nothing is given up, failed or
 * freed before there is a reason, and what the reason leads to. LinkRuns says that it is not
 * put off; here it is not brought forward.
 */
module LinkFates {
  import opened Prelude
  import opened LinkSlots
  import opened LinkTable

  // ----- when a slot may be freed

  /** The table is full, and no slot has been idle longer. */
  predicate Idlest(slots: seq<Slot>, j: nat)
    requires j < |slots|
  {
    forall k :: 0 <= k < |slots| ==> slots[k].used && slots[j].lastActivity <= slots[k].lastActivity
  }

  /** Closed or failed, and the grace is over. */
  predicate GraceOver(s: Slot, now: int) {
    (s.state.Closed? || s.state.Failed?) && s.deadAt != 0 && now - s.deadAt >= GRACE
  }

  /**
   * The only reasons to free a slot: its consumer leaves or has left and the tag is opened again,
   * the table is full and it has been idle longest, or it is dead and the grace is over.
   */
  predicate MayFree(table: Table, e: Event, j: nat)
    requires j < |table.slots|
  {
    match e
    case Connecting(_, tag, _, _) => (table.slots[j].tag == tag && table.slots[j].handle < 0) || Idlest(table.slots, j)
    case Accepting(_, _, _, _) => Idlest(table.slots, j)
    case Disconnecting(ref, _) => ref == j
    case Tick(_, now) => GraceOver(table.slots[j], now)
    case _ => false
  }

  lemma {:induction false} AllocSpares(table: Table, now: int, j: nat)
    requires |table.slots| == SLOTS && j < SLOTS && table.slots[j].used && !Idlest(table.slots, j)
    ensures var a := Alloc(table, now); a.1 != j && a.0.slots[j] == table.slots[j]
  {
  }

  lemma {:induction false} OpensSpare(table: Table, e: Event, j: nat)
    requires |table.slots| == SLOTS && j < SLOTS && (e.Connecting? || e.Accepting?)
    requires table.slots[j].used && !MayFree(table, e, j)
    ensures Apply(table, e).slots[j] == table.slots[j]
  {
    hide Alloc, OpenSlot, AcceptSlot, FreeSlot, FailHeld;
    match e
    case Connecting(handle, tag, env, now) =>
      if !Refused(table, tag) {
        var dup := Find(table.slots, ByTag(tag), 0);
        var mid := Reclaim(table, tag);
        if dup >= 0 {
          assert mid.slots[dup] == FreeSlot(table.slots[dup]);
          FreedIsUnused(table.slots[dup]);
        }
        assert !Idlest(mid.slots, j);
        AllocSpares(mid, now, j);
      }
    case Accepting(_, _, _, now) => AllocSpares(table, now, j);
  }

  lemma {:induction false} FreedIsUnused(s: Slot)
    ensures !FreeSlot(s).used
  {
  }

  /** What an event makes of a slot that it does not free. */
  function SlotNext(table: Table, e: Event, j: nat): Slot
    requires |table.slots| == SLOTS && j < SLOTS && Legal(e)
  {
    var s := table.slots[j];
    match e
    case Asking(frame, tag, task, port, cid, token, issue, now) =>
      if frame.Whole? && Find(table.slots, ByTag(tag), 0) == j
      then RequestSlot(s, Request(task, port, cid, token, now), issue, now).0 else s
    case Established(link, issue, now) =>
      if Find(table.slots, ByLink(link), 0) == j then EstablishSlot(s, issue, now).0 else s
    case LinkClosed(link, now) => if Find(table.slots, ByLink(link), 0) == j then CloseSlot(s, now) else s
    case Responding(mrid, roomy, now) =>
      if Find(table.slots, ByMrid(mrid), 0) == j then RespondSlot(s, roomy, now).0 else s
    case RequestFailed(mrid, now) => if Find(table.slots, ByMrid(mrid), 0) == j then FailSlot(s).0 else s
    case Tick(envs, now) => TickSlot(s, envs[j], now).0
    case _ => s
  }

  lemma {:induction false} SlotGoes(table: Table, e: Event, j: nat)
    requires |table.slots| == SLOTS && j < SLOTS && Legal(e) && table.slots[j].used && !MayFree(table, e, j)
    ensures Apply(table, e).slots[j] == SlotNext(table, e, j)
  {
    hide RequestSlot, EstablishSlot, CloseSlot, RespondSlot, FailSlot, TickSlot, FreeSlot, FailHeld, Connect, Accept,
      TickTo, TearDown;
    match e
    case Connecting(_, _, _, _) => OpensSpare(table, e, j);
    case Accepting(_, _, _, _) => OpensSpare(table, e, j);
    case Tick(envs, now) => TickedSlot(table.slots, envs, now, SLOTS, j);
    case _ =>
  }

  lemma {:induction false} TickedSlot(slots: seq<Slot>, envs: seq<Env>, now: int, n: nat, k: nat)
    requires k < n <= |slots| == |envs|
    ensures TickTo(slots, envs, now, n).0[k] == TickSlot(slots[k], envs[k], now).0
  {
    hide TickSlot;
    if k < n - 1 {
      TickedSlot(slots, envs, now, n - 1, k);
    }
  }

  /** It is freed for no other reason: otherwise it stays in use, by the same open. */
  lemma {:induction false} FreedOnly(table: Table, e: Event, j: nat)
    requires SlotsOk(table) && j < SLOTS && Legal(e) && table.slots[j].used && !MayFree(table, e, j)
    ensures var s, s' := table.slots[j], Apply(table, e).slots[j];
      s'.used && s'.opening == s.opening && s'.tag == s.tag && s'.handle == s.handle && s'.openedAt == s.openedAt
  {
    hide SlotOk, TickSlot, Apply;
    SlotGoes(table, e, j);
    if e.Tick? {
      TickSpares(table.slots[j], e.envs[j], e.now);
    }
  }

  lemma {:induction false} TickSpares(s: Slot, env: Env, now: int)
    requires s.used && !GraceOver(s, now)
    ensures var s' := TickSlot(s, env, now).0;
      s'.used && s'.opening == s.opening && s'.tag == s.tag && s'.handle == s.handle && s'.openedAt == s.openedAt
  {
  }

  lemma {:induction false} RunSlotsOk(es: seq<Event>)
    requires forall e :: e in es ==> Legal(e)
    ensures SlotsOk(Run(es))
  {
    hide SlotsOk, Run;
    ExactlyOnce(es);
  }

  // ----- what is held stays held

  /** What ends a request in flight: a callback for it, or its deadline at a tick. */
  predicate Ends(e: Event, x: InFlight) {
    || ((e.Responding? || e.RequestFailed?) && e.mrid == x.mrid)
    || (e.Tick? && x.deadline != 0 && e.now >= x.deadline)
  }

  lemma {:induction false} StepHoldsInFlight(table: Table, e: Event, j: nat)
    requires SlotsOk(table) && j < SLOTS && Legal(e) && table.slots[j].used && !MayFree(table, e, j)
    requires table.slots[j].inFlight.Some? && !Ends(e, table.slots[j].inFlight.value)
    ensures Apply(table, e).slots[j].used && Apply(table, e).slots[j].inFlight == table.slots[j].inFlight
  {
    hide Apply, SlotOk, TickSlot;
    SlotsSound(table);
    SlotGoes(table, e, j);
    FreedOnly(table, e, j);
    if e.Tick? {
      TickHolds(table.slots[j], e.envs[j], e.now);
    }
  }

  lemma {:induction false} TickHolds(s: Slot, env: Env, now: int)
    requires SlotOk(s) && s.used && !GraceOver(s, now)
    ensures s.inFlight.Some? && !(s.inFlight.value.deadline != 0 && now >= s.inFlight.value.deadline) ==>
      TickSlot(s, env, now).0.inFlight == s.inFlight
    ensures TickSlot(s, env, now).0.pending == s.pending
  {
  }

  /** A request in flight is neither answered nor lost until something ends it, or frees the slot. */
  lemma {:induction false} InFlightKept(es: seq<Event>, k: nat, j: nat)
    requires (forall e :: e in es ==> Legal(e)) && k <= |es| && j < SLOTS
    requires var s := Run(es[..k]).slots[j];
      s.used && s.inFlight.Some? && forall i :: k <= i < |es| ==>
        !MayFree(Run(es[..i]), es[i], j) && !Ends(es[i], s.inFlight.value)
    ensures Run(es).slots[j].used && Run(es).slots[j].inFlight == Run(es[..k]).slots[j].inFlight
    decreases |es|
  {
    hide Apply, SlotsOk, MayFree, Ends, Find;
    if k == |es| {
      assert es[..k] == es;
    } else {
      var n := |es| - 1;
      assert es[..n][..k] == es[..k];
      assert forall i :: k <= i < n ==> es[..n][..i] == es[..i] && es[..n][i] == es[i];
      InFlightKept(es[..n], k, j);
      RunSlotsOk(es[..n]);
      StepHoldsInFlight(Run(es[..n]), es[n], j);
    }
  }

  predicate InUse(s: Slot) { s.used && s.inFlight.Some? }

  /** No two slots wait for the same request id. */
  predicate DistinctIds(slots: seq<Slot>) {
    forall i, j :: 0 <= i < j < |slots| && InUse(slots[i]) && InUse(slots[j]) ==>
      slots[i].inFlight.value.mrid != slots[j].inFlight.value.mrid
  }

  /**
   * A response that arrives before the deadline, on a slot that nothing has freed, is what the
   * requester gets.
   */
  lemma {:induction false} ResponseArrives(es: seq<Event>, k: nat, j: nat, now: int)
    requires (forall e :: e in es ==> Legal(e)) && k <= |es| && j < SLOTS
    requires var s := Run(es[..k]).slots[j];
      s.used && s.inFlight.Some? && WellFormed(s.inFlight.value.r) && forall i :: k <= i < |es| ==>
        !MayFree(Run(es[..i]), es[i], j) && !Ends(es[i], s.inFlight.value)
    requires DistinctIds(Run(es).slots)
    ensures var x := Run(es[..k]).slots[j].inFlight.value;
      Apply(Run(es), Responding(x.mrid, true, now)).out == Run(es).out + [Response(x.r)]
  {
    hide Run, MayFree, Ends;
    InFlightKept(es, k, j);
    var slots, x := Run(es).slots, Run(es[..k]).slots[j].inFlight.value;
    var f := Find(slots, ByMrid(x.mrid), 0);
    assert Matches(slots[j], ByMrid(x.mrid));
    assert f == j;
  }

  /** A deferred request waits for its link to come up. */
  lemma {:induction false} StepHoldsPending(table: Table, e: Event, j: nat)
    requires SlotsOk(table) && j < SLOTS && Legal(e) && table.slots[j].used && !MayFree(table, e, j)
    requires table.slots[j].pending.Some? && !(e.Established? && table.slots[j].link == Some(e.link))
    ensures Apply(table, e).slots[j].used && Apply(table, e).slots[j].pending == table.slots[j].pending
  {
    hide Apply, SlotOk, TickSlot;
    SlotsSound(table);
    SlotGoes(table, e, j);
    FreedOnly(table, e, j);
    if e.Tick? {
      TickHolds(table.slots[j], e.envs[j], e.now);
    }
  }

  /** Where a request goes: in flight, deferred, or back as a failure at once, and when which. */
  lemma {:induction false} AskedGoes(table: Table, e: Event)
    requires SlotsOk(table) && Legal(e) && e.Asking?
    ensures var next, r, j := Apply(table, e), Request(e.task, e.port, e.cid, e.token, e.now), Find(table.slots,
        ByTag(e.tag), 0);
      if e.frame.Short? then next == table
      else if e.frame.Truncated? || j < 0 then next == table.(out := table.out + Reply(r, false))
      else
        var s := table.slots[j];
        if s.state.Active? && s.inFlight.None? && e.issue.Issued? then
          next.out == table.out && next.slots[j].pending.None? && next.slots[j].lastActivity == e.now
          && next.slots[j].inFlight == Some(InFlight(e.issue.mrid, r, e.now + e.issue.timeout + RESPONSE_SLACK))
        else if !s.state.Active? && s.pending.None? && s.inFlight.None? then
          next.out == table.out && next.slots[j].inFlight.None? && next.slots[j].pending == Some(r)
        else next.out == table.out + Reply(r, false) && next.slots[j] == s
  {
    SlotsSound(table);
    assert table.out + [] == table.out;
    var j := Find(table.slots, ByTag(e.tag), 0);
    if j >= 0 {
      assert SlotOk(table.slots[j]);
    }
  }

  /** When its link comes up, a slot is active, and its deferred request is in flight, if it can be issued. */
  lemma {:induction false} EstablishedGoes(table: Table, e: Event)
    requires SlotsOk(table) && Legal(e) && e.Established? && Find(table.slots, ByLink(e.link), 0) >= 0
    ensures var j := Find(table.slots, ByLink(e.link), 0);
      var s, s', out := table.slots[j], Apply(table, e).slots[j], Apply(table, e).out;
      && s'.state.Active? && s'.link == Some(e.link) && s'.pending.None?
      && (s.pending.None? ==> s'.inFlight == s.inFlight && out == table.out)
      && (s.pending.Some? && e.issue.Issued? ==>
            out == table.out && s'.inFlight == Some(InFlight(e.issue.mrid, s.pending.value, e.now + e.issue.timeout
              + RESPONSE_SLACK)))
      && s'.lastActivity == e.now
      && (s.pending.Some? && !e.issue.Issued? ==>
            out == table.out + Reply(s.pending.value, false) && s'.inFlight.None?)
  {
    SlotsSound(table);
    assert table.out + [] == table.out;
    assert SlotOk(table.slots[Find(table.slots, ByLink(e.link), 0)]);
  }

  /**
   * A close during establishment only ends the wait: the next tick decides, and with it whether
   * the peer is tried again. An active slot is closed, and dated. Either way nothing is answered.
   */
  lemma {:induction false} ClosedGoes(table: Table, e: Event)
    requires SlotsOk(table) && Legal(e) && e.LinkClosed? && Find(table.slots, ByLink(e.link), 0) >= 0
    ensures var j := Find(table.slots, ByLink(e.link), 0);
      var s, s' := table.slots[j], Apply(table, e).slots[j];
      && Apply(table, e).out == table.out && s'.link.None? && s'.inFlight == s.inFlight && s'.pending == s.pending
      && (s.state.Establishing? ==> s'.state.Establishing? && s'.estabDeadline == e.now && s'.attempts == s.attempts)
      && (s.state.Active? ==> s'.state.Closed? && s'.deadAt == e.now)
  {
    SlotsSound(table);
    assert table.out + [] == table.out;
  }

  /** A response or a failure callback leaves the slot active, and a response counts as activity. */
  lemma {:induction false} SettledGoes(table: Table, e: Event)
    requires SlotsOk(table) && (e.Responding? || e.RequestFailed?) && Find(table.slots, ByMrid(e.mrid), 0) >= 0
    ensures var j := Find(table.slots, ByMrid(e.mrid), 0);
      var s, s' := table.slots[j], Apply(table, e).slots[j];
      && s'.inFlight.None? && s'.state == s.state && s'.link == s.link
      && s'.lastActivity == if e.Responding? then e.now else s.lastActivity
  {
  }

  /** A disconnect frees the slot at once, and the end of the grace does at a tick. */
  lemma {:induction false} FreedWhen(table: Table, e: Event, j: nat)
    requires |table.slots| == SLOTS && j < SLOTS && Legal(e)
    requires (e.Disconnecting? && e.ref == j) || (e.Tick? && GraceOver(table.slots[j], e.now))
    ensures !Apply(table, e).slots[j].used
  {
    hide TickTo, FailHeld;
    if e.Tick? {
      TickedSlot(table.slots, e.envs, e.now, SLOTS, j);
    }
  }

  /** A new open dials at once over a path, else waits for one as long as the budget says. */
  lemma {:induction false} OpenGoes(opening: nat, handle: int, tag: string, env: Env, now: int)
    ensures var x := OpenSlot(opening, handle, tag, env, now); var s := x.0;
      && s.openedAt == now && s.lastActivity == now
      && (env.reachable && env.kickoff.Started? ==>
            s.state.Establishing? && s.link == Some(env.kickoff.link) && s.estabDeadline == now + env.kickoff.budget
            && x.1 == [Dialed(opening)] && s.attempts == 1)
      && (env.reachable && !env.kickoff.Started? ==> s.state.Failed? && x.1 == [])
      && (!env.reachable ==> s.state.AwaitingPath? && s.pathDeadline == now + env.pathBudget && x.1 == [])
  {
  }

  /** Slot j is there for the taking, if need be from the link idle longest. */
  predicate Takeable(table: Table, tag: string, j: nat)
    requires j < |table.slots|
  {
    !table.slots[j].used || (table.slots[j].tag == tag && table.slots[j].handle < 0) || Idlest(table.slots, j)
  }

  /** The slot that an open or an incoming link is given. */
  ghost predicate Given(table: Table, next: Table, tag: string, j: nat, s: Slot) {
    j < |table.slots| == |next.slots| && next.slots[j] == s && s.used && s.opening == table.opens
    && Takeable(table, tag, j)
  }

  predicate EndsWith(out: seq<Effect>, more: seq<Effect>) { |more| <= |out| && out[|out| - |more|..] == more }

  lemma {:induction false} AllocTakes(table: Table, now: int, tag: string)
    requires |table.slots| == SLOTS
    ensures Takeable(table, tag, Alloc(table, now).1)
  {
  }

  /** An open is refused, and changes nothing, or it is given a slot as OpenGoes says, and what it puts out is last. */
  lemma {:induction false} ConnectGoes(table: Table, e: Event) returns (j: nat)
    requires |table.slots| == SLOTS && e.Connecting?
    ensures Refused(table, e.tag) ==> Apply(table, e) == table
    ensures var x := OpenSlot(table.opens, e.handle, e.tag, e.env, e.now);
      !Refused(table, e.tag) ==> Given(table, Apply(table, e), e.tag, j, x.0) && EndsWith(Apply(table, e).out, x.1)
  {
    hide FailHeld, TearDown;
    j := 0;
    if !Refused(table, e.tag) {
      var mid := Reclaim(table, e.tag);
      var dup := Find(table.slots, ByTag(e.tag), 0);
      j := Alloc(mid, e.now).1;
      AllocTakes(mid, e.now, e.tag);
      if dup >= 0 {
        assert !mid.slots[dup].used && !Idlest(mid.slots, j);
        assert j == dup || mid.slots[j] == table.slots[j];
      }
    }
  }

  /** An incoming link is given a slot, active at once; without a listener it is a failed one, and dated. */
  lemma {:induction false} AcceptGoes(table: Table, e: Event) returns (j: nat, s: Slot)
    requires |table.slots| == SLOTS && e.Accepting?
    ensures Given(table, Apply(table, e), e.tag, j, s) && s.tag == e.tag && s.inFlight.None? && s.pending.None?
    ensures if e.handle < 0 then s.state.Failed? && s.link.None? && s.deadAt == e.now
      else s.state.Active? && s.link == Some(e.link) && s.handle == e.handle && s.lastActivity == e.now
  {
    hide FailHeld, TearDown;
    j := Alloc(table, e.now).1;
    s := AcceptSlot(table.opens, e.handle, e.tag, e.link, e.now);
  }

  // ----- no state is left early

  /** What makes a slot leave its state: a path, its link coming up or going down, a deadline at a tick. */
  predicate Due(s: Slot, e: Event, j: nat)
    requires j < SLOTS && Legal(e)
  {
    match s.state
    case AwaitingPath => e.Tick? && (e.envs[j].reachable || e.now >= s.pathDeadline)
    case Establishing =>
      || (e.Tick? && s.estabDeadline != 0 && e.now >= s.estabDeadline)
      || ((e.Established? || e.LinkClosed?) && s.link == Some(e.link))
    case Active => e.LinkClosed? && s.link == Some(e.link)
    case _ => false
  }

  /** The state, and what it waits for. */
  predicate Waiting(s: Slot, s': Slot) {
    && s'.used && s'.state == s.state && s'.link == s.link && s'.attempts == s.attempts && s'.opening == s.opening
    && (s.state.AwaitingPath? ==> s'.pathDeadline == s.pathDeadline)
    && (s.state.Establishing? ==> s'.estabDeadline == s.estabDeadline)
    && (s.deadAt != 0 ==> s'.deadAt == s.deadAt)
  }

  lemma {:induction false} StepWaits(table: Table, e: Event, j: nat)
    requires SlotsOk(table) && j < SLOTS && Legal(e) && table.slots[j].used && !MayFree(table, e, j)
    requires !Due(table.slots[j], e, j)
    ensures Waiting(table.slots[j], Apply(table, e).slots[j])
  {
    hide Apply, TickSlot;
    SlotsSound(table);
    SlotGoes(table, e, j);
    assert SlotOk(table.slots[j]);
    if e.Tick? {
      TickWaits(table.slots[j], e.envs[j], e.now);
    }
  }

  lemma {:induction false} TickWaits(s: Slot, env: Env, now: int)
    requires SlotOk(s) && s.used && !GraceOver(s, now)
    requires !(s.state.AwaitingPath? && (env.reachable || now >= s.pathDeadline))
    requires !(s.state.Establishing? && s.estabDeadline != 0 && now >= s.estabDeadline)
    ensures Waiting(s, TickSlot(s, env, now).0)
  {
  }

  /** From event k on, nothing frees slot j, and nothing is due for it as it was in s. */
  ghost predicate Undisturbed(es: seq<Event>, k: nat, j: nat, s: Slot)
    requires (forall e :: e in es ==> Legal(e)) && j < SLOTS
  {
    forall i {:trigger es[i]} :: k <= i < |es| ==> !MayFree(Run(es[..i]), es[i], j) && !Due(s, es[i], j)
  }

  lemma {:induction false} UndisturbedBefore(es: seq<Event>, k: nat, j: nat, s: Slot)
    requires (forall e :: e in es ==> Legal(e)) && k < |es| && j < SLOTS && Undisturbed(es, k, j, s)
    ensures var n := |es| - 1;
      Undisturbed(es[..n], k, j, s) && es[..n][..k] == es[..k] && !MayFree(Run(es[..n]), es[n], j) && !Due(s, es[n], j)
  {
    hide MayFree, Due, Run;
    var n := |es| - 1;
    forall i {:trigger es[..n][i]} | k <= i < n
      ensures !MayFree(Run(es[..n][..i]), es[..n][i], j) && !Due(s, es[..n][i], j)
    {
      assert es[..n][..i] == es[..i] && es[..n][i] == es[i];
    }
  }

  /**
   * A slot stays in its state, with its link, its attempts and its deadline, for as long as
   * nothing frees it and nothing is due.
   */
  lemma {:induction false} StateKept(es: seq<Event>, k: nat, j: nat)
    requires (forall e :: e in es ==> Legal(e)) && k <= |es| && j < SLOTS && Run(es[..k]).slots[j].used
    requires Undisturbed(es, k, j, Run(es[..k]).slots[j])
    ensures Waiting(Run(es[..k]).slots[j], Run(es).slots[j])
    decreases |es|
  {
    hide Apply, SlotsOk, MayFree, Due, Waiting, Find, Undisturbed;
    var s0 := Run(es[..k]).slots[j];
    if k == |es| {
      assert es[..k] == es;
      WaitingChain(s0, s0, s0);
    } else {
      var n := |es| - 1;
      UndisturbedBefore(es, k, j, s0);
      StateKept(es[..n], k, j);
      RunSlotsOk(es[..n]);
      DueSame(s0, Run(es[..n]).slots[j], es[n], j);
      WaitingChain(s0, Run(es[..n]).slots[j], s0);
      StepWaits(Run(es[..n]), es[n], j);
      WaitingChain(s0, Run(es[..n]).slots[j], Run(es).slots[j]);
    }
  }

  lemma {:induction false} DueSame(a: Slot, b: Slot, e: Event, j: nat)
    requires Waiting(a, b) && j < SLOTS && Legal(e)
    ensures Due(a, e, j) == Due(b, e, j)
  {
  }

  lemma {:induction false} WaitingChain(a: Slot, b: Slot, c: Slot)
    ensures a.used ==> Waiting(a, a)
    ensures Waiting(a, b) ==> b.used
    ensures Waiting(a, b) && Waiting(b, c) ==> Waiting(a, c)
  {
  }

  // ----- what a tick decides

  predicate TimedOut(s: Slot, now: int) { s.state.Establishing? && s.estabDeadline != 0 && now >= s.estabDeadline }

  /** A peer heard of lately is tried again, up to three times. */
  predicate TriesAgain(s: Slot, env: Env, now: int) { TimedOut(s, now) && env.alive && s.attempts < ATTEMPTS }

  predicate Kicks(s: Slot, env: Env, now: int) {
    (s.state.AwaitingPath? && env.reachable) || (TriesAgain(s, env, now) && env.reachableAfterExpiry)
  }

  predicate GivesUp(s: Slot, env: Env, now: int) {
    || (s.state.AwaitingPath? && !env.reachable && now >= s.pathDeadline)
    || (TimedOut(s, now) && !(env.alive && s.attempts < ATTEMPTS))
    || (Kicks(s, env, now) && !env.kickoff.Started?)
  }

  /**
   * A tick dials exactly when there is a path for a slot that waits for one, or an establishment
   * has timed out and the peer is to be tried again over a path; it goes back to waiting exactly
   * when that path is missing; it gives up exactly when the path budget is spent, when the peer
   * is not alive or has been tried three times, or when no link can be built.
   */
  lemma {:induction false} TickDecides(s: Slot, env: Env, now: int)
    requires SlotOk(s) && s.used && !GraceOver(s, now)
    ensures var x := TickSlot(s, env, now); var s' := x.0;
      && (Dialed(s.opening) in x.1 <==> Kicks(s, env, now) && env.kickoff.Started?)
      && (Kicks(s, env, now) && env.kickoff.Started? ==>
            s'.state.Establishing? && s'.link == Some(env.kickoff.link) && s'.estabDeadline == now + env.kickoff.budget
            && s'.attempts == s.attempts + 1)
      && (s'.state.Failed? && !s.state.Failed? <==> GivesUp(s, env, now))
      && (TriesAgain(s, env, now) && !env.reachableAfterExpiry ==>
            s'.state.AwaitingPath? && s'.pathDeadline == now + env.pathBudget && s'.attempts == s.attempts)
      && (s'.state.Closed? <==> s.state.Closed?)
  {
    hide FailHeld;
    var a := TickRequest(s, now);
    assert forall f :: f in a.1 ==> !f.Dialed?;
    assert a.0.state == s.state && a.0.opening == s.opening;
    DeadDials(a.0, env, now);
  }

  lemma {:induction false} DeadDials(s: Slot, env: Env, now: int)
    requires !GraceOver(s, now)
    ensures forall f :: f in TickDead(s, now).1 ==> !f.Dialed?
  {
  }

  // ----- three tries

  /** The surroundings let every attempt begin: a path, a live peer, and a link that can be built. */
  predicate Willing(e: Event) {
    match e
    case Connecting(_, _, env, _) => env.reachable && env.kickoff.Started?
    case Accepting(handle, _, _, _) => handle >= 0
    case Tick(envs, _) => forall env :: env in envs ==>
      env.reachable && env.reachableAfterExpiry && env.alive && env.kickoff.Started?
    case _ => true
  }

  predicate Persistent(s: Slot) {
    s.used ==> !s.state.AwaitingPath? && (s.state.Failed? ==> s.attempts == ATTEMPTS)
  }

  predicate AllPersistent(table: Table) { forall j :: 0 <= j < |table.slots| ==> Persistent(table.slots[j]) }

  lemma {:induction false} PersistentTick(s: Slot, env: Env, now: int)
    requires SlotOk(s) && Persistent(s)
    requires env.reachable && env.reachableAfterExpiry && env.alive && env.kickoff.Started?
    ensures Persistent(TickSlot(s, env, now).0)
  {
  }

  lemma {:induction false} PersistentPut(table: Table, j: int, x: (Slot, seq<Effect>))
    requires AllPersistent(table) && 0 <= j < |table.slots| && Persistent(x.0)
    ensures AllPersistent(Put(table, j, x))
  {
  }

  lemma {:induction false} PersistentFree(table: Table, j: int, s: Slot)
    requires AllPersistent(table) && 0 <= j < |table.slots|
    ensures AllPersistent(FreeAt(table, j, s))
  {
  }

  lemma {:induction false} PersistentAlloc(table: Table, now: int)
    requires AllPersistent(table) && |table.slots| == SLOTS
    ensures AllPersistent(Alloc(table, now).0)
  {
    hide AllPersistent, FreeAt;
    if Find(table.slots, Unused, 0) < 0 {
      var v := Victim(table.slots, SLOTS);
      PersistentFree(table, v, TearDown(table.slots[v], now));
    }
  }

  lemma {:induction false} PersistentOpens(table: Table, e: Event)
    requires |table.slots| == SLOTS && AllPersistent(table) && (e.Connecting? || e.Accepting?) && Willing(e)
    ensures AllPersistent(Apply(table, e))
  {
    hide AllPersistent, FreeAt, Alloc;
    match e
    case Connecting(handle, tag, env, now) =>
      if !Refused(table, tag) {
        var dup := Find(table.slots, ByTag(tag), 0);
        if dup >= 0 {
          PersistentFree(table, dup, table.slots[dup]);
        }
        PersistentAlloc(Reclaim(table, tag), now);
        var a := Alloc(Reclaim(table, tag), now);
        var x := OpenSlot(table.opens, handle, tag, env, now);
        PersistentPut(a.0, a.1, x);
        PersistentCount(Put(a.0, a.1, x), table.opens + 1);
      }
    case Accepting(handle, tag, link, now) =>
      PersistentAlloc(table, now);
      var a := Alloc(table, now);
      var x: (Slot, seq<Effect>) := (AcceptSlot(table.opens, handle, tag, link, now), []);
      PersistentPut(a.0, a.1, x);
      PersistentCount(Put(a.0, a.1, x), table.opens + 1);
  }

  lemma {:induction false} PersistentCount(table: Table, opens: nat)
    requires AllPersistent(table)
    ensures AllPersistent(table.(opens := opens))
  {
  }

  lemma {:induction false} PersistentApply(table: Table, e: Event)
    requires SlotsOk(table) && AllPersistent(table) && Legal(e) && Willing(e)
    ensures AllPersistent(Apply(table, e))
  {
    hide TickSlot, TickTo, FreeAt, Connect, Accept, Persistent;
    SlotsSound(table);
    if e.Connecting? || e.Accepting? {
      PersistentOpens(table, e);
    } else if e.Disconnecting? {
      if 0 <= e.ref < |table.slots| {
        var s := TearDown(table.slots[e.ref].(handle := -1), e.now);
        PersistentFree(table, e.ref, s.(link := None, state := Closed));
      }
    } else {
      forall j | 0 <= j < SLOTS
        ensures Persistent(Apply(table, e).slots[j])
      {
        assert Persistent(table.slots[j]) && SlotOk(table.slots[j]);
        if e.Tick? {
          TickedSlot(table.slots, e.envs, e.now, SLOTS, j);
          PersistentTick(table.slots[j], e.envs[j], e.now);
        } else {
          PersistentCallback(table, e, j);
        }
      }
    }
  }

  lemma {:induction false} PersistentCallback(table: Table, e: Event, j: nat)
    requires SlotsOk(table) && j < SLOTS && Persistent(table.slots[j]) && Legal(e)
    requires e.Asking? || e.Established? || e.LinkClosed? || e.Responding? || e.RequestFailed?
    ensures Persistent(Apply(table, e).slots[j])
  {
    SlotsSound(table);
    assert SlotOk(table.slots[j]);
  }

  /**
   * Three attempts, and no fewer: as long as there are paths, live peers and links to be built,
   * every open that has failed has dialled exactly three times, each establishment having been
   * given its whole time (StateKept).
   */
  lemma {:induction false} ThreeTries(es: seq<Event>, j: nat)
    requires (forall e :: e in es ==> Legal(e) && Willing(e)) && j < SLOTS
    ensures AllPersistent(Run(es))
    ensures var s := Run(es).slots[j]; s.used && s.state.Failed? ==> Dials(Run(es).out, s.opening) == ATTEMPTS
  {
    hide Dials, SlotOk;
    ExactlyOnce(es);
    if es != [] {
      hide Apply;
      var n := |es| - 1;
      ExactlyOnce(es[..n]);
      ThreeTries(es[..n], j);
      PersistentApply(Run(es[..n]), es[n]);
    }
  }
}
