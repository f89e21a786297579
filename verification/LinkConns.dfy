/**
 * The slot array with the handlers that work on it. It keeps the events it has handled as a
 * ghost history, and so what holds of every run of the table machine holds of it: requests are
 * answered exactly once, slots are released, answers come in time.
 */
module LinkConns {
  import opened Prelude
  import opened LinkSlots
  import opened LinkTable
  import opened LinkTiming
  import opened LinkRuns
  import opened LinkAnswers

  class Conns {
    const slots: array<Slot>
    var out: seq<Effect>
    var opens: nat
    ghost var es: seq<Event>

    /** Everything handled so far was well-formed, and has left the table as the machine says. */
    ghost predicate Valid()
      reads this, slots
    {
      slots.Length == SLOTS && (forall e :: e in es ==> Legal(e)) && View() == Run(es)
    }

    ghost function View(): Table
      reads slots, `out, `opens
    {
      Table(slots[..], out, opens)
    }

    constructor ()
      ensures Valid() && fresh(slots) && es == []
    {
      slots := new Slot[SLOTS](i => FREE_SLOT);
      out, opens, es := [], 0, [];
      new;
      assert slots[..] == Init().slots;
    }

    // ----- what the class guarantees

    /** Every request asked for so far is held in a slot or has been answered, and that once. */
    lemma {:induction false} Accounted(token: nat)
      requires Valid()
      ensures Held(slots[..], token) + Answered(out, token) == Asked(es, token)
    {
      ExactlyOnce(es);
    }

    /**
     * As many of them have had a response as responses have come in while they were in flight,
     * with memory for them; the other answers were failures.
     */
    lemma {:induction false} Responded(token: nat)
      requires Valid()
      ensures Responses(out, token) == Delivered(es, token)
      ensures Held(slots[..], token) + Delivered(es, token) + Failures(out, token) == Asked(es, token)
    {
      hide Run, Held, Failures, Responses, Delivered, Asked;
      RespondedExactly(es, token);
    }

    /** No open has dialled more than three times, and a used slot as often as it counts. */
    lemma {:induction false} DialsBounded(opening: nat)
      requires Valid()
      ensures Dials(out, opening) <= ATTEMPTS
      ensures forall j :: 0 <= j < SLOTS && slots[j].used && slots[j].opening == opening ==>
        Dials(out, opening) == slots[j].attempts
    {
      hide Dials;
      ExactlyOnce(es);
    }

    /** If the handlers were called in time, a slot that is not active is about to be released. */
    lemma {:induction false} Released(start: int, b: Bounds, j: nat)
      requires Valid() && Timely(es, start, b) && j < SLOTS && slots[j].used && !slots[j].state.Active?
      ensures Now(es, start) <= if slots[j].state.Closed? then slots[j].deadAt + GRACE + b.gap
        else slots[j].openedAt + OpenTime(b)
    {
      hide Run;
      SlotsReleased(es, start, b, j);
    }

    /** And of a request asked for long enough ago, every asking has had its one answer. */
    lemma {:induction false} AllAnswered(k: nat, start: int, b: Bounds, token: nat)
      requires Valid() && Timely(es, start, b) && k <= |es| && forall i :: k <= i < |es| ==> Quiet(es[i], token)
      requires Now(es, start) > Now(es[..k], start) + AnswerTime(b)
      ensures Answered(out, token) == Asked(es, token)
    {
      hide Run, Answered, Asked;
      Settled(es, k, start, b, token);
    }

    /** An event joins the history. */
    ghost method Handle(e: Event)
      requires Valid() && Legal(e)
      modifies `es
      ensures es == old(es) + [e] && (forall x :: x in es ==> Legal(x)) && Run(es) == Apply(View(), e)
    {
      assert (es + [e])[..|es|] == es;
      es := es + [e];
    }

    /** Emit an answer, if there is anyone to take it: reqSendAux, reqFailDirect. */
    method Emit(r: Request, ok: bool)
      modifies `out
      ensures out == old(out) + Reply(r, ok)
    {
      if WellFormed(r) {
        out := out + [if ok then Response(r) else Failure(r)];
      }
    }

    /** linkFindByTag, linkFindByLink, linkFindByReqMrid, and linkAlloc's look for a free slot. */
    method Scan(key: Key) returns (j: int)
      requires slots.Length == SLOTS
      ensures j == Find(slots[..], key, 0)
    {
      var i := 0;
      while i < SLOTS
        invariant 0 <= i <= SLOTS
        invariant Find(slots[..], key, 0) == Find(slots[..], key, i)
      {
        if Matches(slots[i], key) {
          return i;
        }
        i := i + 1;
      }
      j := -1;
    }

    method LongestIdle() returns (victim: int)
      requires slots.Length == SLOTS
      ensures victim == Victim(slots[..], SLOTS)
    {
      victim := -1;
      var oldest := 0;
      for i := 0 to SLOTS
        invariant victim == Victim(slots[..], i)
        invariant victim >= 0 ==> oldest == slots[victim].lastActivity
      {
        if slots[i].used && (victim < 0 || slots[i].lastActivity < oldest) {
          oldest := slots[i].lastActivity;
          victim := i;
        }
      }
    }

    /** linkFreeSlot */
    method Free(j: int)
      requires slots.Length == SLOTS && 0 <= j < SLOTS
      modifies slots, `out
      ensures View() == FreeAt(old(View()), j, old(slots[j]))
    {
      if slots[j].inFlight.Some? {
        Emit(slots[j].inFlight.value.r, false);
      }
      if slots[j].pending.Some? {
        Emit(slots[j].pending.value, false);
      }
      assert out == old(out) + FailHeld(slots[j]);
      slots[j] := slots[j].(used := false, handle := -1, lastActivity := 0, link := None);
      slots[j] := slots[j].(pending := None, inFlight := None, attempts := 0, state := LinkState.Free);
      assert slots[..] == old(slots[..])[j := FreeSlot(old(slots[j]))];
    }

    /** The teardown of whatever link the slot still has, with the closed callback it fires. */
    method Teardown(j: int, now: int)
      requires slots.Length == SLOTS && 0 <= j < SLOTS
      modifies slots
      ensures slots[..] == old(slots[..])[j := TearDown(old(slots[j]), now)]
    {
      if slots[j].link.Some? {
        Close(j, now);
        slots[j] := slots[j].(link := None);
      }
    }

    method Close(j: int, now: int)
      requires slots.Length == SLOTS && 0 <= j < SLOTS
      modifies slots
      ensures slots[..] == old(slots[..])[j := CloseSlot(old(slots[j]), now)]
    {
      if slots[j].state.Establishing? {
        slots[j] := slots[j].(link := None, estabDeadline := now);
      } else {
        slots[j] := slots[j].(state := Closed, deadAt := now);
        slots[j] := slots[j].(link := None);
      }
    }

    /** linkAlloc */
    method Allocate(now: int) returns (j: int)
      requires slots.Length == SLOTS
      modifies slots, `out
      ensures (View(), j) == Alloc(old(View()), now)
    {
      j := Scan(Unused);
      if j < 0 {
        j := LongestIdle();
        Teardown(j, now);
        Free(j);
        assert slots[..] == old(slots[..])[j := FreeSlot(TearDown(old(slots[j]), now))];
      }
    }

    /** linkKickoff */
    method Kick(j: int, k: Kickoff, now: int)
      requires slots.Length == SLOTS && 0 <= j < SLOTS
      modifies slots, `out
      ensures View() == Put(old(View()), j, KickoffSlot(old(slots[j]), k, now))
    {
      match k
      case Started(link, budget) =>
        slots[j] := slots[j].(link := Some(link), state := Establishing, estabDeadline := now + budget);
        if slots[j].attempts < 255 {
          slots[j] := slots[j].(attempts := slots[j].attempts + 1);
        }
        out := out + [Dialed(slots[j].opening)];
      case _ =>
        slots[j] := slots[j].(state := Failed);
        assert out == out + [];
    }

    /** linkRetry */
    method Retry(j: int, env: Env, now: int)
      requires slots.Length == SLOTS && 0 <= j < SLOTS
      modifies slots, `out
      ensures View() == Put(old(View()), j, RetrySlot(old(slots[j]), env, now))
    {
      if env.reachableAfterExpiry {
        slots[j] := slots[j].(state := Establishing);
        Kick(j, env.kickoff, now);
      } else {
        slots[j] := slots[j].(state := AwaitingPath, estabDeadline := 0);
        slots[j] := slots[j].(pathDeadline := now + env.pathBudget, pathAskedAt := now);
        assert out == out + [];
      }
    }

    /** linkStartRequest */
    method Start(j: int, r: Request, o: Issue, now: int)
      requires slots.Length == SLOTS && 0 <= j < SLOTS
      modifies slots, `out
      ensures View() == Put(old(View()), j, StartSlot(old(slots[j]), r, o, now))
    {
      if slots[j].inFlight.Some? || !o.Issued? {
        Emit(r, false);
        assert slots[..] == slots[..][j := slots[j]];
      } else {
        slots[j] := slots[j].(inFlight := Some(InFlight(o.mrid, r, now + o.timeout + RESPONSE_SLACK)));
        slots[j] := slots[j].(lastActivity := now);
        assert out == out + [];
      }
    }

    method OnEstablished(link: nat, o: Issue, now: int)
      requires Valid()
      modifies slots, `out, `es
      ensures Valid() && es == old(es) + [Established(link, o, now)]
    {
      hide Run;
      Handle(Established(link, o, now));
      var j := Scan(ByLink(link));
      if j < 0 {
        return;
      }
      slots[j] := slots[j].(state := Active, estabDeadline := 0);
      slots[j] := slots[j].(lastActivity := now);
      if slots[j].pending.Some? {
        var r := slots[j].pending.value;
        slots[j] := slots[j].(pending := None);
        Start(j, r, o, now);
      } else {
        assert out == out + [];
      }
    }

    method OnClosed(link: nat, now: int)
      requires Valid()
      modifies slots, `out, `es
      ensures Valid() && es == old(es) + [LinkClosed(link, now)]
    {
      Handle(LinkClosed(link, now));
      var j := Scan(ByLink(link));
      if j >= 0 {
        Close(j, now);
        assert out == out + [];
      }
    }

    /** onReqResponseCb */
    method OnResponse(mrid: nat, roomy: bool, now: int)
      requires Valid()
      modifies slots, `out, `es
      ensures Valid() && es == old(es) + [Responding(mrid, roomy, now)]
      ensures var j := Find(old(slots[..]), ByMrid(mrid), 0);
        if j < 0 then slots[..] == old(slots[..]) && out == old(out)
        else
          var r := old(slots[..])[j].inFlight.value.r;
          slots[j].inFlight.None?
          && out == old(out) + if !WellFormed(r) then [] else if roomy then [Response(r)] else [Failure(r)]
    {
      hide Run;
      Handle(Responding(mrid, roomy, now));
      var j := Scan(ByMrid(mrid));
      if j >= 0 {
        Settle(j, roomy);
        slots[j] := slots[j].(lastActivity := now);
      }
    }

    /** onReqFailedCb */
    method OnRequestFailed(mrid: nat, now: int)
      requires Valid()
      modifies slots, `out, `es
      ensures Valid() && es == old(es) + [RequestFailed(mrid, now)]
      ensures var j := Find(old(slots[..]), ByMrid(mrid), 0);
        if j < 0 then slots[..] == old(slots[..]) && out == old(out)
        else
          var r := old(slots[..])[j].inFlight.value.r;
          slots[j].inFlight.None? && out == old(out) + if WellFormed(r) then [Failure(r)] else []
    {
      Handle(RequestFailed(mrid, now));
      var j := Scan(ByMrid(mrid));
      if j >= 0 {
        Settle(j, false);
      }
    }

    method Settle(j: int, ok: bool)
      requires slots.Length == SLOTS && 0 <= j < SLOTS && slots[j].inFlight.Some?
      modifies slots, `out
      ensures slots[..] == old(slots[..])[j := old(slots[j]).(inFlight := None)]
      ensures out == old(out) + Reply(old(slots[j]).inFlight.value.r, ok)
    {
      Emit(slots[j].inFlight.value.r, ok);
      slots[j] := slots[j].(inFlight := None);
    }

    /** onLinkConnect, once it has its slot. */
    method Open(j: int, handle: int, tag: string, env: Env, now: int)
      requires slots.Length == SLOTS && 0 <= j < SLOTS
      modifies slots, `out, `opens
      ensures View() == Put(old(View()), j, OpenSlot(old(opens), handle, tag, env, now)).(opens := old(opens) + 1)
    {
      hide KickoffSlot;
      slots[j] := Slot(true, opens, handle, tag, Establishing, None, now, now, now + env.pathBudget, now, 0, 0, 0, None,
        None);
      opens := opens + 1;
      if env.reachable {
        Kick(j, env.kickoff, now);
      } else {
        slots[j] := slots[j].(state := AwaitingPath);
        assert out == out + [];
      }
    }

    /** onLinkConnect; ref is the slot's index, -1 a refusal. */
    method OnConnect(handle: int, tag: string, env: Env, now: int) returns (ref: int)
      requires Valid()
      modifies slots, `out, `es, `opens
      ensures Valid() && es == old(es) + [Connecting(handle, tag, env, now)]
      ensures ref < 0 <==> Refused(old(View()), tag)
      ensures ref >= 0 ==>
        ref < SLOTS && slots[ref].tag == tag && slots[ref].handle == handle && slots[ref].opening == old(opens)
    {
      hide Run, FreeAt, Find, KickoffSlot;
      Handle(Connecting(handle, tag, env, now));
      if tag == "" {
        return -1;
      }
      var dup := Scan(ByTag(tag));
      if dup >= 0 {
        if slots[dup].handle >= 0 {
          return -1;
        }
        Free(dup);
      }
      assert View() == Reclaim(old(View()), tag);
      ref := Allocate(now);
      Open(ref, handle, tag, env, now);
      OpenedAs(old(opens), handle, tag, env, now);
    }

    /** onIncomingLinkEstablished; a negative handle means that the listener could not be reached. */
    method OnIncoming(handle: int, tag: string, link: nat, now: int)
      requires Valid()
      modifies slots, `out, `es, `opens
      ensures Valid() && es == old(es) + [Accepting(handle, tag, link, now)]
    {
      hide Run, Alloc, Callback, Connect, Disconnect, Find;
      Handle(Accepting(handle, tag, link, now));
      var j := Allocate(now);
      slots[j] := Slot(true, opens, -1, tag, Active, Some(link), now, now, 0, 0, 0, 0, 0, None, None);
      opens := opens + 1;
      if handle < 0 {
        slots[j] := slots[j].(link := None, state := Failed, deadAt := now);
      } else {
        slots[j] := slots[j].(handle := handle);
      }
      assert out == out + [];
    }

    method OnDisconnect(ref: int, now: int)
      requires Valid()
      modifies slots, `out, `es
      ensures Valid() && es == old(es) + [Disconnecting(ref, now)]
    {
      Handle(Disconnecting(ref, now));
      if ref < 0 || ref >= SLOTS || !slots[ref].used {
        return;
      }
      slots[ref] := slots[ref].(handle := -1);
      Teardown(ref, now);
      slots[ref] := slots[ref].(link := None, state := Closed);
      Free(ref);
    }

    /** onLinkAux, for a REQUEST. */
    method OnRequest(frame: Frame, tag: string, task: nat, port: nat, cid: nat, token: nat, o: Issue, now: int)
      requires Valid()
      modifies slots, `out, `es
      ensures Valid() && es == old(es) + [Asking(frame, tag, task, port, cid, token, o, now)]
    {
      Handle(Asking(frame, tag, task, port, cid, token, o, now));
      if frame.Short? {
        return;
      }
      var r := Request(task, port, cid, token, now);
      if frame.Truncated? {
        Emit(r, false);
        return;
      }
      var j := Scan(ByTag(tag));
      if j < 0 {
        Emit(r, false);
        return;
      }
      if !slots[j].state.Active? || slots[j].link.None? {
        if slots[j].pending.Some? || slots[j].inFlight.Some? {
          Emit(r, false);
          assert slots[..] == slots[..][j := slots[j]];
          return;
        }
        slots[j] := slots[j].(pending := Some(r));
        assert out == out + [];
        return;
      }
      Start(j, r, o, now);
    }

    /** linkTick, for the slot j. */
    method TickOne(j: int, env: Env, now: int)
      requires slots.Length == SLOTS && 0 <= j < SLOTS && slots[j].used
      modifies slots, `out
      ensures View() == Put(old(View()), j, TickSlot(old(slots[j]), env, now))
    {
      hide TickState, Reply;
      ghost var table := View();
      if slots[j].inFlight.Some? && slots[j].inFlight.value.deadline != 0 && now >= slots[j].inFlight.value.deadline {
        Settle(j, false);
      }
      ghost var a := TickRequest(table.slots[j], now);
      assert slots[..] == table.slots[j := a.0] && out == table.out + a.1;
      TickRest(j, env, now);
      assert out == table.out + (a.1 + TickState(a.0, env, now).1);
    }

    /** The switch over the state in linkTick. */
    method TickRest(j: int, env: Env, now: int)
      requires slots.Length == SLOTS && 0 <= j < SLOTS
      modifies slots, `out
      ensures View() == Put(old(View()), j, TickState(old(slots[j]), env, now))
    {
      ghost var s := slots[j];
      match slots[j].state {
        case AwaitingPath =>
          if env.reachable {
            Kick(j, env.kickoff, now);
          } else if now - slots[j].pathAskedAt >= REASK && now < slots[j].pathDeadline {
            slots[j] := slots[j].(pathAskedAt := now);
          } else if now >= slots[j].pathDeadline {
            slots[j] := slots[j].(state := Failed);
            slots[j] := slots[j].(deadAt := now);
          }
        case Establishing =>
          if slots[j].estabDeadline != 0 && now >= slots[j].estabDeadline {
            slots[j] := slots[j].(link := None);
            if env.alive && slots[j].attempts < ATTEMPTS {
              Retry(j, env, now);
            } else {
              slots[j] := slots[j].(state := Failed);
              slots[j] := slots[j].(deadAt := now);
            }
          }
        case Closed => TickGrace(j, now);
        case Failed => TickGrace(j, now);
        case _ =>
      }
      if TickState(s, env, now).1 == [] {
        assert old(out) + [] == old(out);
      }
      assert slots[..] == old(slots[..])[j := TickState(s, env, now).0];
    }

    method TickGrace(j: int, now: int)
      requires slots.Length == SLOTS && 0 <= j < SLOTS
      modifies slots, `out
      ensures View() == Put(old(View()), j, TickDead(old(slots[j]), now))
    {
      if slots[j].deadAt == 0 {
        slots[j] := slots[j].(deadAt := now);
      }
      if now - slots[j].deadAt >= GRACE {
        Free(j);
      } else {
        assert out == out + [];
      }
      assert slots[..] == old(slots[..])[j := TickDead(old(slots[j]), now).0];
    }

    method OnTick(envs: seq<Env>, now: int)
      requires Valid() && |envs| == SLOTS
      modifies slots, `out, `es
      ensures Valid() && es == old(es) + [Tick(envs, now)]
    {
      hide Run, TickSlot;
      ghost var table := View();
      Handle(Tick(envs, now));
      assert View() == Ticked(table, envs, now, 0) by { assert out == out + []; }
      for j := 0 to SLOTS
        invariant es == old(es) + [Tick(envs, now)] && (forall e :: e in es ==> Legal(e))
          && Run(es) == Apply(table, Tick(envs, now))
        invariant View() == Ticked(table, envs, now, j)
      {
        ghost var mid := View();
        TickedStep(table, envs, now, j + 1);
        if slots[j].used {
          TickOne(j, envs[j], now);
        } else {
          UnusedRests(slots[j], envs[j], now);
          PutNothing(mid, j);
        }
      }
    }
  }
}
