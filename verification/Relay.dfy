/** The DNS relay: the router's lock-protected fields, and the threads that come and go around them. */
module Relay {
  import opened Wrappers

  type Addr = string
  type Tid = nat

  // A truthy address: present and not the empty string.
  predicate Usable(a: Option<Addr>) { a.Some? && a.value != "" }

  const COOLDOWN: real := 1.0

  // --- the fields behind the lock ------------------------------------------

  datatype Fields = Fields(
    primary: Option<Addr>, degraded: bool, lastRefresh: real, refreshing: bool, done: bool)

  const FRESH := Fields(None, false, 0.0, false, false)

  predicate MayRefresh(f: Fields, now: real) { !f.refreshing && now - f.lastRefresh >= COOLDOWN }

  function Scheduled(f: Fields, now: real): Fields {
    if MayRefresh(f, now) then f.(refreshing := true, lastRefresh := now, done := false) else f
  }

  function Discovered(f: Fields, found: Option<Addr>, now: real): Fields {
    f.(primary := found, lastRefresh := now, refreshing := false, done := true)
  }

  class UpstreamRouter {
    var primary: Option<Addr>
    var degraded: bool
    var lastRefresh: real
    var refreshing: bool
    var refreshDone: bool

    function Snapshot(): Fields
      reads this
    {
      Fields(primary, degraded, lastRefresh, refreshing, refreshDone)
    }

    constructor ()
      ensures Snapshot() == FRESH
    {
      primary := None;
      degraded := false;
      lastRefresh := 0.0;
      refreshing := false;
      refreshDone := false;
    }

    method MarkDegraded()
      modifies this
      ensures Snapshot() == old(Snapshot()).(degraded := true)
    {
      degraded := true;
    }

    /** Whether the recovery callback is due; it is called outside the lock. */
    method MarkHealthy() returns (recovered: bool)
      modifies this
      ensures Snapshot() == old(Snapshot()).(degraded := false) && recovered == old(degraded)
    {
      recovered := false;
      if degraded {
        degraded := false;
        recovered := true;
      }
    }

    method ReadPrimary() returns (address: Option<Addr>)
      ensures address == primary
    {
      address := primary;
    }

    method ClearPrimary()
      modifies this
      ensures Snapshot() == old(Snapshot()).(primary := None)
    {
      primary := None;
    }

    /** Whether a discovery thread is to be started, outside the lock. */
    method ScheduleRefresh(now: real) returns (start: bool)
      modifies this
      ensures Snapshot() == Scheduled(old(Snapshot()), now)
      ensures start == MayRefresh(old(Snapshot()), now)
    {
      if refreshing || now - lastRefresh < COOLDOWN { return false; }
      refreshing := true;
      lastRefresh := now;
      refreshDone := false;
      return true;
    }

    /** The end of a discovery. */
    method FinishDiscovery(found: Option<Addr>, now: real)
      modifies this
      ensures Snapshot() == Discovered(old(Snapshot()), found, now)
    {
      primary := found;
      lastRefresh := now;
      refreshing := false;
      refreshDone := true;
    }

    /** The discovery thread: an exception of the supplier counts as no address. */
    method Discover(answer: Option<Addr>, raised: bool, now: real)
      modifies this
      ensures Snapshot() == Discovered(old(Snapshot()), if raised then None else answer, now)
    {
      var found := answer;
      if raised { found := None; }
      FinishDiscovery(found, now);
    }

    /** One step of one thread: the lock region of its place, if there is one, and where it goes from there. */
    method TakeStep(t: Thread, input: Input) returns (next: Pc)
      modifies this
      ensures Snapshot() == NextFields(t.pc, old(Snapshot()), input)
      ensures next == NextPc(t, old(Snapshot()), input)
    {
      match t.pc
      case GetPrimary =>
        var address := ReadPrimary();
        if address.None? { return ScheduleMissing; }
        return if Usable(address) then Ask(address.value) else AfterMiss(t.kind, address);
      case ScheduleMissing =>
        var start := ScheduleRefresh(input.now);
        return if start then Start(AfterMiss(t.kind, None)) else AfterMiss(t.kind, None);
      case Ask(server) => return if input.replied then Heal else Clear(server);
      case Clear(server) =>
        ClearPrimary();
        return ScheduleAgain(Some(server));
      case ScheduleAgain(first) =>
        var start := ScheduleRefresh(input.now);
        return if start then Start(AfterSchedule(t.kind, first)) else AfterSchedule(t.kind, first);
      case Start(after) => return after;
      case Await(first) => return Reread(first);
      case Reread(first) =>
        var address := ReadPrimary();
        var untried := Usable(address) && !(Usable(first) && address == first);
        return if untried then AskAgain(address.value) else Degrade(first);
      case AskAgain(_) => return if input.replied then Heal else Degrade(None);
      case Heal =>
        var recovered := MarkHealthy();
        return if recovered then Callback else Over;
      case Degrade(first) =>
        MarkDegraded();
        return if t.kind.Request? then Fallback(first) else Over;
      case _ => return Over;
    }
  }

  // --- a thread's place in its work ----------------------------------------

  // A DNS request in the worker pool, or a connection of the API relay.
  datatype Kind = Request | Connection

  // Where a thread stands; each place is one lock region, one call to the outside, or a thread start.
  datatype Pc =
    | GetPrimary
    | ScheduleMissing                         // no address was known
    | Ask(server: Addr)
    | Clear(server: Addr)                     // the address did not answer
    | ScheduleAgain(first: Option<Addr>)
    | Start(next: Pc)                         // a discovery is due; its thread is not yet started
    | Await(first: Option<Addr>)              // connections wait for the discovery, up to their timeout
    | Reread(first: Option<Addr>)
    | AskAgain(server: Addr)
    | Heal
    | Callback
    | Degrade(first: Option<Addr>)
    | Fallback(first: Option<Addr>)
    | Over

  datatype Thread = Thread(kind: Kind, pc: Pc)

  // What the outside answers a thread at its place: whether a server replied, and the clock.
  datatype Input = Input(replied: bool, now: real)

  // After an unusable first address: requests give up on it, connections schedule once more and wait.
  function AfterMiss(kind: Kind, first: Option<Addr>): Pc {
    if kind.Request? then Degrade(first) else ScheduleAgain(first)
  }

  function AfterSchedule(kind: Kind, first: Option<Addr>): Pc {
    if kind.Request? then Degrade(first) else Await(first)
  }

  // Where a thread goes from here, given the fields it finds.
  function NextPc(t: Thread, f: Fields, input: Input): Pc {
    match t.pc
    case GetPrimary =>
      if f.primary.None? then ScheduleMissing
      else if Usable(f.primary) then Ask(f.primary.value)
      else AfterMiss(t.kind, f.primary)
    case ScheduleMissing =>
      if MayRefresh(f, input.now) then Start(AfterMiss(t.kind, None)) else AfterMiss(t.kind, None)
    case Ask(server) => if input.replied then Heal else Clear(server)
    case Clear(server) => ScheduleAgain(Some(server))
    case ScheduleAgain(first) =>
      if MayRefresh(f, input.now) then Start(AfterSchedule(t.kind, first)) else AfterSchedule(t.kind, first)
    case Start(next) => next
    case Await(first) => Reread(first)
    case Reread(first) =>
      if Usable(f.primary) && !(Usable(first) && f.primary == first) then AskAgain(f.primary.value) else Degrade(first)
    case AskAgain(_) => if input.replied then Heal else Degrade(None)
    case Heal => if f.degraded then Callback else Over
    case Callback => Over
    case Degrade(first) => if t.kind.Request? then Fallback(first) else Over
    case Fallback(_) => Over
    case Over => Over
  }

  // What a thread does to the fields at its place.
  function NextFields(pc: Pc, f: Fields, input: Input): Fields {
    match pc
    case ScheduleMissing => Scheduled(f, input.now)
    case ScheduleAgain(_) => Scheduled(f, input.now)
    case Clear(_) => f.(primary := None)
    case Heal => f.(degraded := false)
    case Degrade(_) => f.(degraded := true)
    case _ => f
  }

  // --- the process ---------------------------------------------------------

  // `running` discoveries are looking for the address; a discovery is lost when its thread could not start.
  datatype World = World(
    fields: Fields, threads: map<Tid, Thread>, running: nat, lost: nat,
    free: nat, rejected: nat, flips: nat, called: nat, begun: seq<real>)

  function Initial(slots: nat): World {
    World(FRESH, map[], 0, 0, slots, 0, 0, 0, [])
  }

  datatype Event =
    | Submit(t: Tid)                              // a packet arrives
    | Connect(t: Tid)                             // an API connection arrives
    | Advance(t: Tid, input: Input)               // one thread takes its next step
    | StartFails(t: Tid)                          // the operating system refuses the discovery thread
    | Finish(t: Tid)                              // a finished thread leaves; a request gives its slot back
    | DiscoveryEnds(found: Option<Addr>, now: real) // the discovery thread stores what it found and ends

  predicate At(w: World, t: Tid, pc: Pc) { t in w.threads && w.threads[t].pc == pc }
  predicate Starting(w: World, t: Tid) { t in w.threads && w.threads[t].pc.Start? }

  function Moved(w: World, t: Tid, pc: Pc): map<Tid, Thread>
    requires t in w.threads
  {
    w.threads[t := w.threads[t].(pc := pc)]
  }

  function Advanced(w: World, t: Tid, input: Input): World
    requires t in w.threads
  {
    var thread := w.threads[t];
    var begins := (thread.pc.ScheduleMissing? || thread.pc.ScheduleAgain?) && MayRefresh(w.fields, input.now);
    w.(
      fields := NextFields(thread.pc, w.fields, input),
      threads := Moved(w, t, NextPc(thread, w.fields, input)),
      running := w.running + (if thread.pc.Start? then 1 else 0),
      called := w.called + (if thread.pc.Callback? then 1 else 0),
      begun := w.begun + (if begins then [input.now] else []))
  }

  function Happens(w: World, e: Event): World {
    match e
    case Submit(t) =>
      if t in w.threads then w
      else if w.free == 0 then w.(rejected := w.rejected + 1)
      else w.(free := w.free - 1, threads := w.threads[t := Thread(Request, GetPrimary)])
    case Connect(t) =>
      if t in w.threads then w else w.(threads := w.threads[t := Thread(Connection, GetPrimary)])
    case Advance(t, input) => if t in w.threads then Advanced(w, t, input) else w
    case StartFails(t) =>
      if Starting(w, t) then w.(threads := Moved(w, t, Over), lost := w.lost + 1) else w
    case Finish(t) =>
      if At(w, t, Over) then
        w.(threads := w.threads - {t}, free := w.free + (if w.threads[t].kind.Request? then 1 else 0))
      else w
    case DiscoveryEnds(found, now) =>
      if w.running > 0 then w.(fields := Discovered(w.fields, found, now), running := w.running - 1) else w
  }

  // One event, with the recoveries it brings counted from the flag itself.
  function Step(w: World, e: Event): World {
    var after := Happens(w, e);
    after.(flips := w.flips + (if w.fields.degraded && !after.fields.degraded then 1 else 0))
  }

  function Run(w: World, events: seq<Event>): World
    decreases |events|
  {
    if events == [] then w else Run(Step(w, events[0]), events[1..])
  }
}
