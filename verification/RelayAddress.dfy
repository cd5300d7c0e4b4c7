/** Where the relay's upstream address comes from, and who asks it, in every interleaving. */
module RelayAddress {
  import opened Wrappers
  import opened Relay
  import opened RelaySafety
  import opened RelayProgress

  // --- the last find -------------------------------------------------------

  // A discovery ends; a thread whose server gave no reply throws the address away.
  predicate Finds(w: World, e: Event) { e.DiscoveryEnds? && w.running > 0 }
  predicate Clears(w: World, e: Event) { e.Advance? && e.t in w.threads && w.threads[e.t].pc.Clear? }
  predicate Moves(w: World, e: Event) { Finds(w, e) || Clears(w, e) }

  lemma {:induction false} RunSplits(w: World, events: seq<Event>, n: nat)
    requires n <= |events|
    ensures Run(w, events) == Run(Run(w, events[..n]), events[n..])
    decreases n
  {
    if n == 0 {
      assert events[..0] == [] && events[0..] == events;
    } else {
      assert events[..n][1..] == events[1..][..n - 1] && events[n..] == events[1..][n - 1..];
      RunSplits(Step(w, events[0]), events[1..], n - 1);
    }
  }

  lemma LastStep(w: World, events: seq<Event>, n: nat)
    requires n < |events|
    ensures Run(w, events[..n + 1]) == Step(Run(w, events[..n]), events[n])
  {
    var all := events[..n + 1];
    RunSplits(w, all, n);
    assert all[..n] == events[..n] && all[n..] == [events[n]] && [events[n]][1..] == [];
  }

  lemma AddressAfter(w: World, e: Event)
    ensures Step(w, e).fields.primary
         == if Finds(w, e) then e.found else if Clears(w, e) then None else w.fields.primary
  {
  }

  // Event k of a run put this address there, and none before event n has moved it since.
  predicate LastFound(slots: nat, events: seq<Event>, n: nat, k: nat, a: Addr)
    requires k < n <= |events|
  {
    && Finds(After(slots, events[..k]), events[k]) && events[k].found == Some(a)
    && forall j :: k < j < n ==> !Moves(After(slots, events[..j]), events[j])
  }

  /** In every interleaving the relay has an upstream address exactly if the last discovery to end found it and
      no thread that got no reply has thrown it away since. */
  lemma AddressIsTheLastFind(slots: nat, events: seq<Event>, a: Addr)
    ensures After(slots, events).fields.primary == Some(a)
       <==> exists k :: 0 <= k < |events| && LastFound(slots, events, |events|, k, a)
  {
    assert events[..|events|] == events;
    AddressUpTo(slots, events, |events|, a);
  }

  lemma {:induction false} AddressUpTo(slots: nat, events: seq<Event>, n: nat, a: Addr)
    requires n <= |events|
    ensures After(slots, events[..n]).fields.primary == Some(a)
       <==> exists k :: 0 <= k < n && LastFound(slots, events, n, k, a)
    decreases n
  {
    if n == 0 {
      assert events[..0] == [];
    } else {
      AddressUpTo(slots, events, n - 1, a);
      LastAddress(slots, events, n - 1, n);
      OneMoreEvent(slots, events, n - 1, n, a);
    }
  }

  lemma LastAddress(slots: nat, events: seq<Event>, n: nat, after: nat)
    requires n < |events| && after == n + 1
    ensures var w, e := After(slots, events[..n]), events[n];
            After(slots, events[..after]).fields.primary
            == if Finds(w, e) then e.found else if Clears(w, e) then None else w.fields.primary
  {
    LastStep(Initial(slots), events, n);
    AddressAfter(After(slots, events[..n]), events[n]);
  }

  lemma OneMoreEvent(slots: nat, events: seq<Event>, n: nat, after: nat, a: Addr)
    requires n < |events| && after == n + 1
    ensures (exists k :: 0 <= k < after && LastFound(slots, events, after, k, a))
       <==> if Moves(After(slots, events[..n]), events[n])
            then Finds(After(slots, events[..n]), events[n]) && events[n].found == Some(a)
            else exists k :: 0 <= k < n && LastFound(slots, events, n, k, a)
  {
    var w, e := After(slots, events[..n]), events[n];
    if Finds(w, e) && e.found == Some(a) { assert LastFound(slots, events, after, n, a); }
    if k :| 0 <= k < after && LastFound(slots, events, after, k, a) {
      if k < n { assert !Moves(w, e) && LastFound(slots, events, n, k, a); }
    }
    if !Moves(w, e) {
      if k :| 0 <= k < n && LastFound(slots, events, n, k, a) { assert LastFound(slots, events, after, k, a); }
    }
  }

  // --- nobody asks an address that was not found ---------------------------

  // The thread carries this address.
  predicate Carries(pc: Pc, a: Addr) {
    match pc
    case Ask(s) => s == a
    case Clear(s) => s == a
    case AskAgain(s) => s == a
    case ScheduleAgain(first) => first == Some(a)
    case Start(next) => Carries(next, a)
    case Await(first) => first == Some(a)
    case Reread(first) => first == Some(a)
    case Degrade(first) => first == Some(a)
    case Fallback(first) => first == Some(a)
    case _ => false
  }

  function FoundBy(w: World, events: seq<Event>): set<Addr>
    decreases |events|
  {
    if events == [] then {}
    else
      (if Finds(w, events[0]) && events[0].found.Some? then {events[0].found.value} else {})
      + FoundBy(Step(w, events[0]), events[1..])
  }

  ghost predicate AllKnown(w: World, known: set<Addr>) {
    && (w.fields.primary.Some? ==> w.fields.primary.value in known)
    && forall t, a :: t in w.threads && Carries(w.threads[t].pc, a) ==> a in known
  }

  lemma CarriedOn(t: Thread, f: Fields, input: Input, a: Addr)
    requires Carries(NextPc(t, f, input), a)
    ensures Carries(t.pc, a) || f.primary == Some(a)
  {
  }

  lemma StepIsKnown(w: World, e: Event, known: set<Addr>)
    requires AllKnown(w, known)
    ensures AllKnown(Step(w, e), known + if Finds(w, e) && e.found.Some? then {e.found.value} else {})
  {
    var w1 := Step(w, e);
    AddressAfter(w, e);
    forall t, a | t in w1.threads && Carries(w1.threads[t].pc, a) ensures a in known {
      if e.Advance? && e.t == t { CarriedOn(w.threads[t], w.fields, e.input, a); }
    }
  }

  lemma {:induction false} RunIsKnown(w: World, events: seq<Event>, known: set<Addr>)
    requires AllKnown(w, known)
    ensures AllKnown(Run(w, events), known + FoundBy(w, events))
    decreases |events|
  {
    if events != [] {
      var more := if Finds(w, events[0]) && events[0].found.Some? then {events[0].found.value} else {};
      StepIsKnown(w, events[0], known);
      RunIsKnown(Step(w, events[0]), events[1..], known + more);
      assert known + more + FoundBy(Step(w, events[0]), events[1..]) == known + FoundBy(w, events);
    } else {
      assert known + {} == known;
    }
  }

  /** In every interleaving, whatever address a thread asks, asks again, throws away or avoids, some discovery
      found before. */
  lemma OnlyFoundAddressesAreAsked(slots: nat, events: seq<Event>, t: Tid, a: Addr)
    requires t in After(slots, events).threads && Carries(After(slots, events).threads[t].pc, a)
    ensures a in FoundBy(Initial(slots), events)
  {
    RunIsKnown(Initial(slots), events, {});
  }

  // --- a found address is used ---------------------------------------------

  // In a run these events leave the address and this thread alone.
  predicate LeaveAlone(w: World, events: seq<Event>, t: Tid)
    decreases |events|
  {
    events == []
    || (!Moves(w, events[0]) && !(events[0].Advance? && events[0].t == t)
        && LeaveAlone(Step(w, events[0]), events[1..], t))
  }

  lemma {:induction false} AloneStays(w: World, events: seq<Event>, t: Tid, thread: Thread)
    requires LeaveAlone(w, events, t) && t in w.threads && w.threads[t] == thread && thread.pc == GetPrimary
    ensures var w1 := Run(w, events);
            t in w1.threads && w1.threads[t] == thread && w1.fields.primary == w.fields.primary
    decreases |events|
  {
    if events != [] {
      AddressAfter(w, events[0]);
      AloneStays(Step(w, events[0]), events[1..], t, thread);
    }
  }

  /** A request or connection that arrives while there is an address asks exactly that one first, whatever
      happens in between, as long as the address is not moved. */
  lemma NewcomersAskTheAddress(w: World, arrival: Event, between: seq<Event>, input: Input, a: Addr)
    requires w.fields.primary == Some(a) && a != ""
    requires arrival.Submit? || arrival.Connect?
    requires arrival.t !in w.threads && (arrival.Submit? ==> w.free > 0)
    requires LeaveAlone(Step(w, arrival), between, arrival.t)
    ensures At(Step(Run(Step(w, arrival), between), Advance(arrival.t, input)), arrival.t, Ask(a))
  {
    var w1 := Step(w, arrival);
    AloneStays(w1, between, arrival.t, w1.threads[arrival.t]);
  }

  // --- what becomes of a request -------------------------------------------

  // The thread passes this place.
  predicate Passes(w: World, events: seq<Event>, t: Tid, pc: Pc)
    decreases |events|
  {
    events != []
    && ((events[0].Advance? && events[0].t == t && At(w, t, pc)) || Passes(Step(w, events[0]), events[1..], t, pc))
  }

  // Places of a request that has its reply, and of one that will have none from the upstream.
  predicate Served(pc: Pc) { pc.Heal? || pc.Callback? || pc.Over? }
  predicate Unserved(pc: Pc, first: Option<Addr>) {
    match pc
    case ScheduleMissing => first.None?
    case Clear(server) => first == Some(server)
    case ScheduleAgain(f) => f == first
    case Start(next) => next == Degrade(first)
    case Degrade(f) => f == first
    case Fallback(f) => f == first
    case Over => true
    case _ => false
  }

  lemma UnservedGoesOn(t: Thread, f: Fields, input: Input, first: Option<Addr>)
    requires t.kind.Request? && Unserved(t.pc, first)
    ensures Unserved(NextPc(t, f, input), first)
    ensures NextPc(t, f, input) == Over <==> t.pc == Over || t.pc == Fallback(first)
    ensures NextPc(t, f, input).Fallback? <==> t.pc == Degrade(first)
  {
  }

  // A request that has not reached its fallback has yet to pass it; before that, it has yet to degrade.
  predicate PassedAll(w: World, events: seq<Event>, t: Tid, pc: Pc, first: Option<Addr>) {
    (pc != Over ==> Passes(w, events, t, Fallback(first)))
    && (pc != Over && !pc.Fallback? ==> Passes(w, events, t, Degrade(first)))
  }

  predicate CanFail(e: Event, t: Tid) { e == StartFails(t) || e == Finish(t) }

  lemma {:induction false} UnservedFallsBack(w: World, events: seq<Event>, t: Tid, first: Option<Addr>)
    requires t in w.threads && w.threads[t].kind.Request? && Unserved(w.threads[t].pc, first)
    requires forall i :: 0 <= i < |events| ==> !CanFail(events[i], t)
    ensures var w1 := Run(w, events);
            && t in w1.threads && Unserved(w1.threads[t].pc, first)
            && (w1.threads[t].pc == Over ==> PassedAll(w, events, t, w.threads[t].pc, first))
    decreases |events|
  {
    if events != [] {
      var e := events[0];
      assert !CanFail(e, t);
      if e.Advance? && e.t == t { UnservedGoesOn(w.threads[t], w.fields, e.input, first); }
      assert forall i :: 0 <= i < |events| - 1 ==> events[1..][i] == events[i + 1];
      UnservedFallsBack(Step(w, e), events[1..], t, first);
    }
  }

  lemma {:induction false} ServedHeals(w: World, events: seq<Event>, t: Tid)
    requires t in w.threads && Served(w.threads[t].pc)
    requires forall i :: 0 <= i < |events| ==> !CanFail(events[i], t)
    ensures var w1 := Run(w, events);
            && t in w1.threads && Served(w1.threads[t].pc)
            && (w1.threads[t].pc == Over && w.threads[t].pc.Heal? ==> Passes(w, events, t, Heal))
    decreases |events|
  {
    if events != [] {
      assert !CanFail(events[0], t);
      assert forall i :: 0 <= i < |events| - 1 ==> events[1..][i] == events[i + 1];
      ServedHeals(Step(w, events[0]), events[1..], t);
    }
  }

  /** In every interleaving a request that has asked the upstream is decided by the reply alone. With one, it
      marks the relay healthy and ends without a fallback; without, it throws the address away, marks the relay
      degraded, and ends only after the fallback, which it keeps from the server that just failed. */
  lemma RequestIsDecidedByItsReply(w: World, t: Tid, input: Input, server: Addr, later: seq<Event>)
    requires t in w.threads && w.threads[t] == Thread(Request, Ask(server))
    requires forall i :: 0 <= i < |later| ==> !CanFail(later[i], t)
    requires At(Run(Step(w, Advance(t, input)), later), t, Over)
    ensures var w1 := Step(w, Advance(t, input));
            if input.replied then Passes(w1, later, t, Heal)
            else At(w1, t, Clear(server))
                 && Passes(w1, later, t, Degrade(Some(server))) && Passes(w1, later, t, Fallback(Some(server)))
  {
    var w1 := Step(w, Advance(t, input));
    if input.replied {
      ServedHeals(w1, later, t);
    } else {
      UnservedFallsBack(w1, later, t, Some(server));
    }
  }

  /** And one that finds no usable address degrades the relay and falls back without asking anybody. */
  lemma RequestWithoutAddressFallsBack(w: World, t: Tid, input: Input, later: seq<Event>)
    requires t in w.threads && w.threads[t] == Thread(Request, GetPrimary) && !Usable(w.fields.primary)
    requires forall i :: 0 <= i < |later| ==> !CanFail(later[i], t)
    requires At(Run(Step(w, Advance(t, input)), later), t, Over)
    ensures var w1 := Step(w, Advance(t, input));
            Passes(w1, later, t, Degrade(w.fields.primary)) && Passes(w1, later, t, Fallback(w.fields.primary))
  {
    UnservedFallsBack(Step(w, Advance(t, input)), later, t, w.fields.primary);
  }

  /** The relay is degraded exactly if the last thread to pass either mark passed the degraded one. */
  lemma DegradedAfter(w: World, e: Event)
    ensures var pc := if e.Advance? && e.t in w.threads then w.threads[e.t].pc else Over;
            Step(w, e).fields.degraded <==> pc.Degrade? || (w.fields.degraded && !pc.Heal?)
  {
  }

  // --- what becomes of a connection ----------------------------------------

  // Places of a connection whose first address, if it had one, did not answer.
  predicate Retries(pc: Pc, first: Option<Addr>) {
    match pc
    case ScheduleMissing => first.None?
    case Clear(server) => first == Some(server)
    case ScheduleAgain(f) => f == first
    case Start(next) => Retries(next, first)
    case Await(f) => f == first
    case Reread(f) => f == first
    case AskAgain(server) => server != "" && Some(server) != first
    case Degrade(f) => f == first || f.None?
    case Fallback(_) => false
    case Ask(_) => false
    case GetPrimary => false
    case _ => true
  }

  lemma OneRetry(w: World, e: Event, t: Tid, first: Option<Addr>)
    requires t in w.threads && w.threads[t].kind.Connection? && Retries(w.threads[t].pc, first) && e != Finish(t)
    ensures var threads := Step(w, e).threads;
            t in threads && threads[t].kind.Connection? && Retries(threads[t].pc, first)
  {
  }

  lemma {:induction false} RetryGoesOn(w: World, events: seq<Event>, t: Tid, first: Option<Addr>)
    requires t in w.threads && w.threads[t].kind.Connection? && Retries(w.threads[t].pc, first)
    requires Stays(events, t)
    ensures var w1 := Run(w, events);
            t in w1.threads && w1.threads[t].kind.Connection? && Retries(w1.threads[t].pc, first)
    decreases |events|
  {
    if events != [] {
      assert events[0] != Finish(t);
      assert forall i :: 0 <= i < |events| - 1 ==> events[1..][i] == events[i + 1];
      OneRetry(w, events[0], t, first);
      RetryGoesOn(Step(w, events[0]), events[1..], t, first);
    }
  }

  /** A connection that is to ask again asks the address the relay has by then, and does exactly if that is usable
      and another one than it asked before. */
  lemma RereadAsksAnotherAddress(w: World, t: Tid, input: Input, first: Option<Addr>, a: Addr)
    requires t in w.threads && w.threads[t] == Thread(Connection, Reread(first))
    ensures At(Step(w, Advance(t, input)), t, AskAgain(a))
       <==> w.fields.primary == Some(a) && a != "" && first != Some(a)
    ensures At(Step(w, Advance(t, input)), t, Degrade(first))
       <==> forall b :: !At(Step(w, Advance(t, input)), t, AskAgain(b))
  {
    if Usable(w.fields.primary) && w.fields.primary != first {
      assert At(Step(w, Advance(t, input)), t, AskAgain(w.fields.primary.value));
    }
  }

  /** In every interleaving a connection whose server did not answer never asks that server a second time, and
      never takes the fallback. */
  lemma ConnectionsNeverAskTwice(w: World, t: Tid, input: Input, server: Addr, later: seq<Event>)
    requires t in w.threads && w.threads[t] == Thread(Connection, Ask(server)) && !input.replied
    requires Stays(later, t)
    ensures var threads := Run(Step(w, Advance(t, input)), later).threads;
            t in threads && threads[t].pc != AskAgain(server) && !threads[t].pc.Ask? && !threads[t].pc.Fallback?
  {
    RetryGoesOn(Step(w, Advance(t, input)), later, t, Some(server));
  }

  // Places of a connection on its way to look at the address again.
  predicate OnTheWay(pc: Pc, first: Option<Addr>) {
    match pc
    case ScheduleMissing => first.None?
    case Clear(server) => first == Some(server)
    case ScheduleAgain(f) => f == first
    case Start(next) => next == ScheduleAgain(first) || next == Await(first)
    case Await(f) => f == first
    case Reread(f) => f == first
    case _ => false
  }

  lemma {:induction false} ConnectionRereads(w: World, events: seq<Event>, t: Tid, first: Option<Addr>)
    requires t in w.threads && w.threads[t].kind.Connection? && OnTheWay(w.threads[t].pc, first)
    requires forall i :: 0 <= i < |events| ==> !CanFail(events[i], t)
    requires At(Run(w, events), t, Over)
    ensures Passes(w, events, t, Reread(first))
    decreases |events|
  {
    var e := events[0];
    assert !CanFail(e, t);
    assert forall i :: 0 <= i < |events| - 1 ==> events[1..][i] == events[i + 1];
    if !(e.Advance? && e.t == t && w.threads[t].pc.Reread?) { ConnectionRereads(Step(w, e), events[1..], t, first); }
  }

  /** In every interleaving a connection whose first server did not answer, or that had none, ends only after one
      more look at the address, having waited for the discovery; one whose server answered heals the relay. */
  lemma ConnectionLooksAgain(w: World, t: Tid, input: Input, later: seq<Event>)
    requires t in w.threads && w.threads[t].kind.Connection?
    requires w.threads[t].pc.Ask? || (w.threads[t].pc.GetPrimary? && !Usable(w.fields.primary))
    requires forall i :: 0 <= i < |later| ==> !CanFail(later[i], t)
    requires At(Run(Step(w, Advance(t, input)), later), t, Over)
    ensures var w1, pc := Step(w, Advance(t, input)), w.threads[t].pc;
            if pc.Ask? && input.replied then Passes(w1, later, t, Heal)
            else Passes(w1, later, t, Reread(if pc.Ask? then Some(pc.server) else w.fields.primary))
  {
    var w1, pc := Step(w, Advance(t, input)), w.threads[t].pc;
    if pc.Ask? && input.replied {
      ServedHeals(w1, later, t);
    } else {
      ConnectionRereads(w1, later, t, if pc.Ask? then Some(pc.server) else w.fields.primary);
    }
  }

  /** The second server decides it: with a reply the relay is healed, without one it is degraded. */
  lemma SecondAskDecides(w: World, t: Tid, input: Input, server: Addr, later: seq<Event>)
    requires t in w.threads && w.threads[t] == Thread(Connection, AskAgain(server))
    requires forall i :: 0 <= i < |later| ==> !CanFail(later[i], t)
    requires At(Run(Step(w, Advance(t, input)), later), t, Over)
    ensures Passes(Step(w, Advance(t, input)), later, t, if input.replied then Heal else Degrade(None))
  {
    if input.replied {
      ServedHeals(Step(w, Advance(t, input)), later, t);
    } else {
      DegradesAndEnds(Step(w, Advance(t, input)), later, t, None);
    }
  }

  lemma {:induction false} DegradesAndEnds(w: World, events: seq<Event>, t: Tid, first: Option<Addr>)
    requires At(w, t, Degrade(first)) && At(Run(w, events), t, Over)
    requires forall i :: 0 <= i < |events| ==> !CanFail(events[i], t)
    ensures Passes(w, events, t, Degrade(first))
    decreases |events|
  {
    var e := events[0];
    assert !CanFail(e, t);
    assert forall i :: 0 <= i < |events| - 1 ==> events[1..][i] == events[i + 1];
    if !(e.Advance? && e.t == t) { DegradesAndEnds(Step(w, e), events[1..], t, first); }
  }
}
