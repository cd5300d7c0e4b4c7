/** The shared world and every controller that acts on it.

    Four programs act on one flat AdGuard list of blocked services: the watcher's tick, the
    control verbs, the parental toggle and the nightly reset. A local marker records who
    claims the budget's entry and since when. Each command is one atomic step; each HTTP
    request inside a command may fail on its own. The world may also change by itself: a new
    date, an edit in the AdGuard dashboard, a lost state file, credentials put in place or
    taken away. */
module Enforcement {
  import opened Wrappers
  import opened Budget

  type Service = string
  datatype Owner = BudgetOwner | ManualOwner

  // What AdGuard stores: the blocked ids, and a schedule nobody here looks into.
  datatype Resolver = Resolver(ids: seq<Service>, schedule: string)

  datatype Reply =
    | Blocked | Already | Unblocked | Nothing | Unreachable | Refused
    | NotArmed | ManualHold | NoService | BudgetOwned

  datatype World = World(
    resolver: Resolver,
    known: set<Service>,        // every service id this AdGuard build understands
    service: Service,           // the one the budget drives
    armed: bool,                // usable credentials are in place
    owners: map<Owner, Date>,
    saved: Option<State>,       // None: no state file, or an unreadable one
    cfg: Config,
    today: Date,
    firewall: set<Ip>)
  {
    predicate Entry() { service in resolver.ids }
    predicate Held() { ManualOwner in owners }
    function Current(): State { if saved.Some? then saved.value else FreshDay(today) }
  }

  // Which requests of one command were answered: the first probe, the status look, the read of a
  // read-modify-write; and what became of its write.
  datatype Net = Net(probe: bool, look: bool, read: bool, write: Write) {
    // The list is changed; and the caller knows it.
    predicate Lands() { read && !write.Failed? }
    predicate Known() { read && write.Confirmed? }
    // A change the caller takes for a failure.
    predicate Silent() { read && write.Unheard? }
  }

  const ALL_ANSWERED := Net(true, true, true, Confirmed)

  // --- AdGuard ids ---------------------------------------------------------

  function Without(ids: seq<Service>, x: Service): (r: seq<Service>)
    ensures x !in r
    ensures forall y :: y != x ==> (y in r <==> y in ids)
  {
    if ids == [] then []
    else if ids[0] == x then Without(ids[1..], x)
    else [ids[0]] + Without(ids[1..], x)
  }

  function SetBlocked(r: Resolver, x: Service, blocked: bool, net: Net): (Resolver, Reply) {
    if !net.read then (r, Unreachable)
    else if blocked && x in r.ids then (r, Already)
    else if !blocked && x !in r.ids then (r, Nothing)
    else
      var changed := r.(ids := if blocked then r.ids + [x] else Without(r.ids, x));
      match net.write
      case Confirmed => (changed, if blocked then Blocked else Unblocked)
      case Failed => (r, Refused)
      case Unheard => (changed, Refused)
  }

  // --- the watcher's platform ----------------------------------------------

  function BlockEntry(w: World, owner: Owner, net: Net): (World, Reply) {
    if !w.armed then (w, NotArmed)
    else
      var (r, reply) := SetBlocked(w.resolver, w.service, true, net);
      var w1 := w.(resolver := r);
      (if reply.Blocked? || reply.Already? then w1.(owners := w1.owners[owner := w.today]) else w1, reply)
  }

  function UnblockEntry(w: World, net: Net): (World, Reply) {
    if !w.armed then (w, NotArmed)
    else if w.Held() then (w.(owners := w.owners - {BudgetOwner}), ManualHold)
    else
      var (r, reply) := SetBlocked(w.resolver, w.service, false, net);
      var w1 := w.(resolver := r);
      (if reply.Unblocked? || reply.Nothing? then w1.(owners := w1.owners - {BudgetOwner}) else w1, reply)
  }

  function Observe(w: World, watching: bool, pins: set<Ip>, net: Net): Observation {
    Observation(
      w.today,
      watching,
      w.armed && net.probe && w.Entry(),
      pins,
      w.firewall,
      if w.armed && net.look then Some(w.Entry()) else None,
      w.Held())
  }

  // Whose claim a block records: the budget's own reasons first.
  function BlockOwner(next: State, persistent: bool): Owner {
    if next.blockedByBudget || next.manualBlock then BudgetOwner
    else if persistent then ManualOwner
    else BudgetOwner
  }

  function ApplyAction(w: World, a: Action, next: State, persistent: bool, net: Net): World {
    match a
    case BlockHosts(_) => BlockEntry(w, BlockOwner(next, persistent), net).0
    case UnblockHosts(_) => UnblockEntry(w, net).0
    case SetFirewall(ips) => w.(firewall := ips)
    case ClearFirewall => w.(firewall := {})
    case _ => w
  }

  function ApplyAll(w: World, actions: seq<Action>, next: State, persistent: bool, net: Net): World
    decreases |actions|
  {
    if actions == [] then w
    else ApplyAll(ApplyAction(w, actions[0], next, persistent, net), actions[1..], next, persistent, net)
  }

  function TickActions(w: World, watching: bool, pins: set<Ip>, net: Net): seq<Action> {
    ActionsFor(w.Current(), w.cfg, Observe(w, watching, pins, net))
  }

  function TickStep(w: World, watching: bool, pins: set<Ip>, net: Net): World {
    var obs := Observe(w, watching, pins, net);
    var next := NextState(w.Current(), w.cfg, obs);
    ApplyAll(w, ActionsFor(w.Current(), w.cfg, obs), next, obs.persistentBlocked, net).(saved := Some(next))
  }

  // --- the control verbs ---------------------------------------------------

  datatype Verb =
    | Status
    | SetLimit(limit: int)
    | Grant(minutes: int)
    | CtlBlock
    | CtlAllow
    | CtlReset

  // A state left over from a previous day reads as a fresh one.
  function CtlState(w: World): State {
    var s := w.Current();
    if s.date != w.today then FreshDay(w.today) else s
  }

  function LiftEverything(w: World, net: Net): World { UnblockEntry(w, net).0.(firewall := {}) }

  function FreeBudget(w: World, s: State, net: Net): World {
    if s.blockedByBudget && !OverBudget(s, w.cfg)
    then LiftEverything(w, net).(saved := Some(s.(blockedByBudget := false)))
    else w.(saved := Some(s))
  }

  function Max0(n: int): nat { if n < 0 then 0 else n }

  function CtlStep(w: World, verb: Verb, pins: set<Ip>, net: Net): World {
    var s := CtlState(w);
    match verb
    case Status => w
    case SetLimit(limit) => if limit < 0 then w else FreeBudget(w.(cfg := w.cfg.(limitMin := limit)), s, net)
    case Grant(minutes) => FreeBudget(w, s.(bonus := Max0(s.bonus + minutes * 60)), net)
    case CtlBlock => BlockEntry(w, BudgetOwner, net).0.(firewall := pins, saved := Some(s.(manualBlock := true)))
    case CtlAllow => LiftEverything(w, net).(saved := Some(s.(manualBlock := false, blockedByBudget := false)))
    case CtlReset => LiftEverything(w, net).(saved := Some(FreshDay(s.date)))
  }

  // --- the parental toggle -------------------------------------------------

  function ClientFor(w: World, name: Service, net: Net): Option<Reply> {
    if !w.armed then Some(NotArmed)
    else if !net.probe then Some(Unreachable)
    else if name !in w.known then Some(NoService)
    else None
  }

  function ToggleBlockStep(w: World, name: Service, net: Net): (World, Reply) {
    var why := ClientFor(w, name, net);
    if why.Some? then (w, why.value)
    else
      var (r, reply) := SetBlocked(w.resolver, name, true, net);
      var w1 := w.(resolver := r);
      (if (reply.Blocked? || reply.Already?) && name == w.service
       then w1.(owners := w1.owners[ManualOwner := w.today]) else w1, reply)
  }

  function ToggleAllowStep(w: World, name: Service, net: Net): (World, Reply) {
    var why := ClientFor(w, name, net);
    if why.Some? then (w, why.value)
    else if name == w.service && BudgetOwner in w.owners && net.look && name in w.resolver.ids then
      (w.(owners := w.owners - {ManualOwner}), BudgetOwned)
    else
      var (r, reply) := SetBlocked(w.resolver, name, false, net);
      var w1 := w.(resolver := r);
      (if (reply.Unblocked? || reply.Nothing?) && name == w.service
       then w1.(owners := w1.owners - {ManualOwner}) else w1, reply)
  }

  // --- the nightly reset ---------------------------------------------------

  function BlockedOn(w: World): Option<Date> {
    if BudgetOwner in w.owners then Some(w.owners[BudgetOwner]) else None
  }

  function NightlyStep(w: World, force: bool, dryRun: bool, net: Net): World {
    if !w.armed || !net.look then w
    else if !w.Entry() then w.(owners := map[])
    else if !force && w.Held() then
      if BlockedOn(w).Some? && BlockedOn(w).value != w.today
      then w.(owners := w.owners - {BudgetOwner}) else w
    else if !force && BlockedOn(w) == Some(w.today) then w
    else if dryRun then w
    else
      var (r, reply) := SetBlocked(w.resolver, w.service, false, net);
      var w1 := w.(resolver := r);
      if reply.Unblocked? || reply.Nothing? then w1.(owners := map[]) else w1
  }

  // --- any step ------------------------------------------------------------

  datatype Step =
    | Tick(watching: bool, pins: set<Ip>, net: Net)
    | Ctl(verb: Verb, pins: set<Ip>, net: Net)
    | ToggleBlock(name: Service, net: Net)
    | ToggleAllow(name: Service, net: Net)
    | Nightly(force: bool, dryRun: bool, net: Net)
    | NewDate(date: Date)
    | DashboardEdit(edited: Resolver)
    | StateLost
    | Rearm(usable: bool)

  function Apply(w: World, step: Step): World {
    match step
    case Tick(watching, pins, net) => TickStep(w, watching, pins, net)
    case Ctl(verb, pins, net) => CtlStep(w, verb, pins, net)
    case ToggleBlock(name, net) => ToggleBlockStep(w, name, net).0
    case ToggleAllow(name, net) => ToggleAllowStep(w, name, net).0
    case Nightly(force, dryRun, net) => NightlyStep(w, force, dryRun, net)
    case NewDate(date) => w.(today := date)
    case DashboardEdit(edited) => w.(resolver := edited)
    case StateLost => w.(saved := None)
    case Rearm(usable) => w.(armed := usable)
  }

  function Run(w: World, steps: seq<Step>): World
    decreases |steps|
  {
    if steps == [] then w else Run(Apply(w, steps[0]), steps[1..])
  }
}
