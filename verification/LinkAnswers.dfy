/**
 * Which answer a request gets, and when: responses and failures told apart, and what is held
 * kept until something happens that ends it.
 */
module LinkAnswers {
  import opened Prelude
  import opened LinkSlots
  import opened LinkTable

  // ----- responses and failures

  function Responses(log: seq<Effect>, t: nat): nat {
    if log == [] then 0
    else
      var e := log[|log| - 1];
      Responses(log[..|log| - 1], t) + if e.Response? && e.r.token == t then 1 else 0
  }

  function Failures(log: seq<Effect>, t: nat): nat {
    if log == [] then 0
    else
      var e := log[|log| - 1];
      Failures(log[..|log| - 1], t) + if e.Failure? && e.r.token == t then 1 else 0
  }

  /** Every answer is one or the other. */
  lemma {:induction false} AnswersSplit(log: seq<Effect>, t: nat)
    ensures Answered(log, t) == Responses(log, t) + Failures(log, t)
  {
    if log != [] {
      AnswersSplit(log[..|log| - 1], t);
    }
  }

  predicate NoResponse(log: seq<Effect>) { forall i :: 0 <= i < |log| ==> !log[i].Response? }

  lemma {:induction false} NoneMore(log: seq<Effect>, more: seq<Effect>, t: nat)
    requires NoResponse(more)
    ensures Responses(log + more, t) == Responses(log, t)
    decreases |more|
  {
    if more == [] {
      assert log + more == log;
    } else {
      var m := more[..|more| - 1];
      assert (log + more)[..|log + more| - 1] == log + m;
      NoneMore(log, m, t);
    }
  }

  /** A response has come for the request in flight with this token, and there is memory for it. */
  predicate Delivers(table: Table, e: Event, t: nat) {
    && e.Responding? && e.roomy
    && var j := Find(table.slots, ByMrid(e.mrid), 0);
       j >= 0 && WellFormed(table.slots[j].inFlight.value.r) && table.slots[j].inFlight.value.r.token == t
  }

  /** How often that has happened. */
  function Delivered(es: seq<Event>, t: nat): nat
    requires forall e :: e in es ==> Legal(e)
  {
    if es == [] then 0
    else
      var n := |es| - 1;
      Delivered(es[..n], t) + if Delivers(Run(es[..n]), es[n], t) then 1 else 0
  }

  /** What the parts of the handlers put out is never a response. */
  lemma {:induction false} QuietParts(s: Slot, r: Request, o: Issue, env: Env, now: int, opening: nat, handle: int,
      tag: string)
    ensures NoResponse(FailHeld(s)) && NoResponse(Reply(r, false))
    ensures NoResponse(StartSlot(s, r, o, now).1) && NoResponse(RequestSlot(s, r, o, now).1)
    ensures NoResponse(EstablishSlot(s, o, now).1)
    ensures s.inFlight.Some? ==> NoResponse(FailSlot(s).1)
    ensures NoResponse(OpenSlot(opening, handle, tag, env, now).1)
  {
  }

  lemma {:induction false} QuietTicks(s: Slot, env: Env, now: int)
    ensures NoResponse(TickSlot(s, env, now).1)
  {
    var r := Request(0, 0, 0, 0, 0);
    var a := TickRequest(s, now).0;
    QuietParts(s, r, Nothing, env, now, 0, 0, "");
    QuietParts(a, r, Nothing, env, now, 0, 0, "");
    QuietParts(if a.deadAt == 0 then a.(deadAt := now) else a, r, Nothing, env, now, 0, 0, "");
  }

  lemma {:induction false} QuietTickTo(slots: seq<Slot>, envs: seq<Env>, now: int, n: nat)
    requires n <= |slots| == |envs|
    ensures NoResponse(TickTo(slots, envs, now, n).1)
  {
    hide TickSlot;
    if n > 0 {
      QuietTickTo(slots, envs, now, n - 1);
      QuietTicks(slots[n - 1], envs[n - 1], now);
    }
  }

  /** What a handler adds to what has left the table. */
  ghost predicate Adds(table: Table, next: Table, more: seq<Effect>) { next.out == table.out + more }

  ghost predicate AddsQuietly(table: Table, next: Table) {
    exists more {:trigger Adds(table, next, more)} :: Adds(table, next, more) && NoResponse(more)
  }

  lemma {:induction false} AddsNothing(table: Table, next: Table)
    requires next.out == table.out
    ensures AddsQuietly(table, next)
  {
    assert table.out == table.out + [];
    assert Adds(table, next, []);
  }

  lemma {:induction false} QuietPut(table: Table, mid: Table, j: int, x: (Slot, seq<Effect>))
    requires AddsQuietly(table, mid) && 0 <= j < |mid.slots| && NoResponse(x.1)
    ensures AddsQuietly(table, Put(mid, j, x))
  {
    var more :| Adds(table, mid, more) && NoResponse(more);
    assert table.out + more + x.1 == table.out + (more + x.1);
    assert Adds(table, Put(mid, j, x), more + x.1);
  }

  lemma {:induction false} QuietFree(table: Table, mid: Table, j: int, s: Slot)
    requires AddsQuietly(table, mid) && 0 <= j < |mid.slots|
    ensures AddsQuietly(table, FreeAt(mid, j, s))
  {
    hide AddsQuietly;
    QuietParts(s, Request(0, 0, 0, 0, 0), Nothing, Env(false, false, NoIdentity, false, 0), 0, 0, 0, "");
    QuietPut(table, mid, j, (FreeSlot(s), FailHeld(s)));
  }

  lemma {:induction false} QuietAlloc(table: Table, mid: Table, now: int)
    requires AddsQuietly(table, mid) && |mid.slots| == SLOTS
    ensures AddsQuietly(table, Alloc(mid, now).0)
  {
    hide AddsQuietly, FreeAt;
    if Find(mid.slots, Unused, 0) < 0 {
      var v := Victim(mid.slots, SLOTS);
      QuietFree(table, mid, v, TearDown(mid.slots[v], now));
    }
  }

  lemma {:induction false} QuietOpens(table: Table, e: Event)
    requires |table.slots| == SLOTS && (e.Connecting? || e.Accepting?)
    ensures AddsQuietly(table, Apply(table, e))
  {
    hide AddsQuietly, FreeAt, Alloc, OpenSlot, AcceptSlot, NoResponse;
    AddsNothing(table, table);
    match e
    case Connecting(handle, tag, env, now) =>
      if !Refused(table, tag) {
        var dup := Find(table.slots, ByTag(tag), 0);
        if dup >= 0 {
          QuietFree(table, table, dup, table.slots[dup]);
        }
        var mid := Reclaim(table, tag);
        QuietAlloc(table, mid, now);
        var a := Alloc(mid, now);
        QuietParts(FREE_SLOT, Request(0, 0, 0, 0, 0), Nothing, env, now, table.opens, handle, tag);
        var x := OpenSlot(table.opens, handle, tag, env, now);
        QuietPut(table, a.0, a.1, x);
        SameOut(table, Put(a.0, a.1, x), table.opens + 1);
      }
    case Accepting(handle, tag, link, now) =>
      QuietAlloc(table, table, now);
      var a := Alloc(table, now);
      var x: (Slot, seq<Effect>) := (AcceptSlot(table.opens, handle, tag, link, now), []);
      assert NoResponse([]) by { NoneIn(); }
      QuietPut(table, a.0, a.1, x);
      SameOut(table, Put(a.0, a.1, x), table.opens + 1);
  }

  lemma {:induction false} NoneIn()
    ensures NoResponse([])
  {
  }

  lemma {:induction false} SameOut(table: Table, next: Table, opens: nat)
    requires AddsQuietly(table, next)
    ensures AddsQuietly(table, next.(opens := opens))
  {
    var more :| Adds(table, next, more) && NoResponse(more);
    assert Adds(table, next.(opens := opens), more);
  }

  /** No event but a response coming in puts out a response. */
  lemma {:induction false} QuietApply(table: Table, e: Event)
    requires |table.slots| == SLOTS && Legal(e) && !e.Responding?
    ensures AddsQuietly(table, Apply(table, e))
  {
    hide AddsQuietly, FreeAt, Alloc, EstablishSlot, CloseSlot, FailSlot, RequestSlot, FreeSlot, TickSlot, TickTo,
      NoResponse, Put, Reply;
    AddsNothing(table, table);
    NoneIn();
    match e
    case Connecting(_, _, _, _) => QuietOpens(table, e);
    case Accepting(_, _, _, _) => QuietOpens(table, e);
    case Disconnecting(ref, now) =>
      if 0 <= ref < |table.slots| && table.slots[ref].used {
        QuietFree(table, table, ref, TearDown(table.slots[ref].(handle := -1), now).(link := None, state := Closed));
      }
    case Asking(frame, tag, task, port, cid, token, issue, now) =>
      var r := Request(task, port, cid, token, now);
      var j := Find(table.slots, ByTag(tag), 0);
      var s := if j >= 0 then table.slots[j] else FREE_SLOT;
      QuietParts(s, r, issue, Env(false, false, NoIdentity, false, 0), now, 0, 0, "");
      if frame.Truncated? || (frame.Whole? && j < 0) {
        assert Adds(table, Apply(table, e), Reply(r, false));
        QuietlyBy(table, Apply(table, e), Reply(r, false));
      } else if frame.Whole? {
        QuietPut(table, table, j, RequestSlot(s, r, issue, now));
      }
    case Established(link, _, _) => QuietCallback(table, e, ByLink(link));
    case LinkClosed(link, _) => QuietCallback(table, e, ByLink(link));
    case RequestFailed(mrid, _) => QuietCallback(table, e, ByMrid(mrid));
    case Tick(envs, now) =>
      QuietTickTo(table.slots, envs, now, SLOTS);
      var p := TickTo(table.slots, envs, now, SLOTS);
      assert Adds(table, Apply(table, e), p.1);
      QuietlyBy(table, Apply(table, e), p.1);
  }

  lemma {:induction false} QuietlyBy(table: Table, next: Table, more: seq<Effect>)
    requires Adds(table, next, more) && NoResponse(more)
    ensures AddsQuietly(table, next)
  {
  }

  lemma {:induction false} QuietCallback(table: Table, e: Event, key: Key)
    requires |table.slots| == SLOTS && (e.Established? || e.LinkClosed? || e.RequestFailed?)
    requires if e.RequestFailed? then key.ByMrid? else key.ByLink?
    ensures AddsQuietly(table, Callback(table, e, key))
  {
    hide AddsQuietly, EstablishSlot, CloseSlot, FailSlot, NoResponse, Put;
    AddsNothing(table, table);
    NoneIn();
    var j := Find(table.slots, key, 0);
    if j >= 0 {
      var s := table.slots[j];
      QuietParts(s, Request(0, 0, 0, 0, 0), if e.Established? then e.issue else Nothing,
        Env(false, false, NoIdentity, false, 0), e.now, 0, 0, "");
      match e
      case Established(_, issue, now) => QuietPut(table, table, j, EstablishSlot(s, issue, now));
      case LinkClosed(_, now) => QuietPut(table, table, j, (CloseSlot(s, now), []));
      case RequestFailed(_, now) => QuietPut(table, table, j, FailSlot(s));
      case _ =>
    }
  }

  /** A response coming in is handed on as one, if there is memory for it and anywhere to send it. */
  lemma {:induction false} RespondingPuts(table: Table, e: Event)
    requires |table.slots| == SLOTS && e.Responding?
    ensures var j, out := Find(table.slots, ByMrid(e.mrid), 0), Apply(table, e).out;
      if j < 0 || !WellFormed(table.slots[j].inFlight.value.r) then out == table.out
      else out == table.out + [if e.roomy then Response(table.slots[j].inFlight.value.r)
        else Failure(table.slots[j].inFlight.value.r)]
  {
    assert table.out + [] == table.out;
  }

  lemma {:induction false} OneMore(log: seq<Effect>, e: Effect, t: nat)
    ensures Responses(log + [e], t) == Responses(log, t) + if e.Response? && e.r.token == t then 1 else 0
  {
    assert (log + [e])[..|log|] == log;
  }

  lemma {:induction false} ApplyResponds(table: Table, e: Event, t: nat)
    requires |table.slots| == SLOTS && Legal(e)
    ensures Responses(Apply(table, e).out, t) == Responses(table.out, t) + if Delivers(table, e, t) then 1 else 0
  {
    hide Apply, NoResponse, Responses, Find;
    if e.Responding? {
      RespondingPuts(table, e);
      var j := Find(table.slots, ByMrid(e.mrid), 0);
      if j >= 0 {
        var r := table.slots[j].inFlight.value.r;
        OneMore(table.out, if e.roomy then Response(r) else Failure(r), t);
      }
    } else {
      QuietApply(table, e);
      var next := Apply(table, e);
      var more :| Adds(table, next, more) && NoResponse(more);
      NoneMore(table.out, more, t);
    }
  }

  /**
   * Over every run: of the askings with a token, just as many have been answered by a response
   * as responses have come in, with memory for them, while it was in flight. All other answers
   * are failures.
   */
  lemma {:induction false} RespondedExactly(es: seq<Event>, t: nat)
    requires forall e :: e in es ==> Legal(e)
    ensures Responses(Run(es).out, t) == Delivered(es, t)
    ensures Held(Run(es).slots, t) + Delivered(es, t) + Failures(Run(es).out, t) == Asked(es, t)
  {
    ExactlyOnce(es);
    AnswersSplit(Run(es).out, t);
    Counted(es, t);
  }

  lemma {:induction false} Counted(es: seq<Event>, t: nat)
    requires forall e :: e in es ==> Legal(e)
    ensures Responses(Run(es).out, t) == Delivered(es, t)
  {
    hide Apply, Delivers;
    if es != [] {
      var n := |es| - 1;
      Counted(es[..n], t);
      ApplyResponds(Run(es[..n]), es[n], t);
    }
  }
}
