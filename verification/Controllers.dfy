/** The controllers as the programs they are: each reads, changes and writes back one shared
    world. Every method is tied to the step function of module Enforcement. */
module Controllers {
  import opened Wrappers
  import opened Budget
  import opened Enforcement

  class Machine {
    var ids: seq<Service>
    var schedule: string
    const known: set<Service>
    const service: Service
    var armed: bool
    var owners: map<Owner, Date>
    var saved: Option<State>
    var cfg: Config
    var today: Date
    var firewall: set<Ip>

    constructor (w: World)
      ensures Snapshot() == w
    {
      ids, schedule, known, service := w.resolver.ids, w.resolver.schedule, w.known, w.service;
      armed, owners, saved, cfg := w.armed, w.owners, w.saved, w.cfg;
      today, firewall := w.today, w.firewall;
    }

    function Snapshot(): World
      reads this
    {
      World(Resolver(ids, schedule), known, service, armed, owners, saved, cfg, today, firewall)
    }

    // --- AdGuard client --------------------------------------------------

    method SetServiceBlocked(x: Service, blocked: bool, net: Net) returns (reply: Reply)
      modifies this`ids
      ensures (Resolver(ids, schedule), reply) == SetBlocked(Resolver(old(ids), schedule), x, blocked, net)
    {
      if !net.read {
        return Unreachable;
      }
      var current := ids;
      var already := x in current;
      if blocked && already {
        return Already;
      }
      if !blocked && !already {
        return Nothing;
      }
      if blocked {
        current := current + [x];
      } else {
        current := Keep(current, x);
      }
      if !net.write.Failed? {
        ids := current;
      }
      if !net.write.Confirmed? {
        return Refused;
      }
      reply := if blocked then Blocked else Unblocked;
    }

    static method Keep(ids: seq<Service>, x: Service) returns (kept: seq<Service>)
      ensures kept == Without(ids, x)
    {
      kept := [];
      for i := 0 to |ids|
        invariant kept + Without(ids[i..], x) == Without(ids, x)
      {
        assert ids[i..][1..] == ids[i + 1..];
        if ids[i] != x {
          assert kept + ([ids[i]] + Without(ids[i + 1..], x)) == kept + [ids[i]] + Without(ids[i + 1..], x);
          kept := kept + [ids[i]];
        }
      }
    }

    method AddBlockOwner(owner: Owner)
      modifies this`owners
      ensures owners == old(owners)[owner := today]
    {
      owners := owners[owner := today];
    }

    method RemoveBlockOwner(owner: Owner)
      modifies this`owners
      ensures owners == old(owners) - {owner}
    {
      owners := owners - {owner};
    }

    // --- the watcher's platform ------------------------------------------

    method BlockHostsEntry(owner: Owner, net: Net) returns (reply: Reply)
      modifies this`ids, this`owners
      ensures (Snapshot(), reply) == BlockEntry(old(Snapshot()), owner, net)
    {
      if !armed {
        return NotArmed;
      }
      reply := SetServiceBlocked(service, true, net);
      if reply.Blocked? || reply.Already? {
        AddBlockOwner(owner);
      }
    }

    method UnblockHostsEntry(net: Net) returns (reply: Reply)
      modifies this`ids, this`owners
      ensures (Snapshot(), reply) == UnblockEntry(old(Snapshot()), net)
    {
      if !armed {
        return NotArmed;
      }
      if ManualOwner in owners {
        RemoveBlockOwner(BudgetOwner);
        return ManualHold;
      }
      reply := SetServiceBlocked(service, false, net);
      if reply.Unblocked? || reply.Nothing? {
        RemoveBlockOwner(BudgetOwner);
      }
    }

    method ApplyOne(a: Action, next: State, persistent: bool, net: Net)
      modifies this`ids, this`owners, this`firewall
      ensures Snapshot() == ApplyAction(old(Snapshot()), a, next, persistent, net)
    {
      match a
      case BlockHosts(_) =>
        var owner := if next.blockedByBudget || next.manualBlock then BudgetOwner
                     else if persistent then ManualOwner else BudgetOwner;
        var _ := BlockHostsEntry(owner, net);
      case UnblockHosts(_) =>
        var _ := UnblockHostsEntry(net);
      case SetFirewall(ips) =>
        firewall := ips;
      case ClearFirewall =>
        firewall := {};
      case ResetDay(_, _) =>
      case CreditTime(_) =>
      case FlushDns =>
    }

    method ApplyActions(actions: seq<Action>, next: State, persistent: bool, net: Net)
      modifies this`ids, this`owners, this`firewall
      ensures Snapshot() == ApplyAll(old(Snapshot()), actions, next, persistent, net)
    {
      for i := 0 to |actions|
        invariant ApplyAll(Snapshot(), actions[i..], next, persistent, net)
               == ApplyAll(old(Snapshot()), actions, next, persistent, net)
      {
        assert actions[i..][1..] == actions[i + 1..];
        ApplyOne(actions[i], next, persistent, net);
      }
    }

    // Load the state and observe the world.
    method LookAround(watching: bool, pins: set<Ip>, net: Net) returns (state: State, obs: Observation)
      ensures state == Snapshot().Current() && obs == Observe(Snapshot(), watching, pins, net)
    {
      state := if saved.Some? then saved.value else FreshDay(today);
      var hostsBlocked := armed && net.probe && service in ids;
      var resolverBlocked := if armed && net.look then Some(service in ids) else None;
      obs := Observation(today, watching, hostsBlocked, pins, firewall, resolverBlocked, ManualOwner in owners);
    }

    /** One tick: load, observe everything, decide, apply everything, save. */
    method TickOnce(watching: bool, pins: set<Ip>, net: Net) returns (actions: seq<Action>)
      modifies this
      ensures Snapshot() == TickStep(old(Snapshot()), watching, pins, net)
      ensures actions == TickActions(old(Snapshot()), watching, pins, net)
    {
      var state, obs := LookAround(watching, pins, net);
      var next;
      next, actions := Decide(state, cfg, obs);
      ApplyActions(actions, next, obs.persistentBlocked, net);
      ghost var w1 := Snapshot();
      saved := Some(next);
      assert Snapshot() == w1.(saved := Some(next));
    }

    // --- the control verbs -----------------------------------------------

    method LiftAll(net: Net)
      modifies this`ids, this`owners, this`firewall
      ensures Snapshot() == LiftEverything(old(Snapshot()), net)
    {
      var _ := UnblockHostsEntry(net);
      firewall := {};
    }

    method FreeBudgetIfPossible(st: State, net: Net) returns (after: State)
      modifies this`ids, this`owners, this`firewall
      ensures Snapshot().(saved := Some(after)) == FreeBudget(old(Snapshot()), st, net)
    {
      after := st;
      if !st.blockedByBudget {
        return;
      }
      if OverBudget(st, cfg) {
        return;
      }
      LiftAll(net);
      after := st.(blockedByBudget := false);
    }

    method RunVerb(verb: Verb, pins: set<Ip>, net: Net)
      modifies this
      ensures Snapshot() == CtlStep(old(Snapshot()), verb, pins, net)
    {
      var st := if saved.Some? then saved.value else FreshDay(today);
      if st.date != today {
        st := FreshDay(today);
      }
      match verb
      case Status =>
      case SetLimit(limit) =>
        if limit < 0 {
          return;
        }
        cfg := cfg.(limitMin := limit);
        st := FreeBudgetIfPossible(st, net);
        saved := Some(st);
      case Grant(minutes) =>
        st := st.(bonus := if st.bonus + minutes * 60 < 0 then 0 else st.bonus + minutes * 60);
        st := FreeBudgetIfPossible(st, net);
        saved := Some(st);
      case CtlBlock =>
        var _ := BlockHostsEntry(BudgetOwner, net);
        firewall := pins;
        saved := Some(st.(manualBlock := true));
      case CtlAllow =>
        LiftAll(net);
        saved := Some(st.(manualBlock := false, blockedByBudget := false));
      case CtlReset =>
        st := st.(used := 0, bonus := 0, blockedByBudget := false, manualBlock := false);
        LiftAll(net);
        saved := Some(st);
    }

    // --- the parental toggle ---------------------------------------------

    method BlockResolver(name: Service, net: Net) returns (reply: Reply)
      modifies this`ids, this`owners
      ensures (Snapshot(), reply) == ToggleBlockStep(old(Snapshot()), name, net)
    {
      var why := ClientFor(Snapshot(), name, net);
      if why.Some? {
        return why.value;
      }
      reply := SetServiceBlocked(name, true, net);
      if (reply.Blocked? || reply.Already?) && name == service {
        AddBlockOwner(ManualOwner);
      }
    }

    method AllowResolver(name: Service, net: Net) returns (reply: Reply)
      modifies this`ids, this`owners
      ensures (Snapshot(), reply) == ToggleAllowStep(old(Snapshot()), name, net)
    {
      var why := ClientFor(Snapshot(), name, net);
      if why.Some? {
        return why.value;
      }
      var claims := if name == service then owners.Keys else {};
      if BudgetOwner in claims && net.look && name in ids {
        RemoveBlockOwner(ManualOwner);
        return BudgetOwned;
      }
      reply := SetServiceBlocked(name, false, net);
      if (reply.Unblocked? || reply.Nothing?) && name == service {
        RemoveBlockOwner(ManualOwner);
      }
    }

    // --- the nightly reset -----------------------------------------------

    method NightlyReset(force: bool, dryRun: bool, net: Net)
      modifies this`ids, this`owners
      ensures Snapshot() == NightlyStep(old(Snapshot()), force, dryRun, net)
    {
      if !armed || !net.look {
        return;
      }
      if service !in ids {
        owners := map[];
        return;
      }
      var blockedOn := if BudgetOwner in owners then Some(owners[BudgetOwner]) else None;
      if !force {
        if ManualOwner in owners {
          if blockedOn.Some? && blockedOn.value != today {
            RemoveBlockOwner(BudgetOwner);
          }
          return;
        }
        if blockedOn == Some(today) {
          return;
        }
      }
      if dryRun {
        return;
      }
      var reply := SetServiceBlocked(service, false, net);
      if reply.Unblocked? || reply.Nothing? {
        owners := map[];
      }
    }
  }
}
