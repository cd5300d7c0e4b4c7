/** What one step of any controller does to the claims and to the blocked entry. */
module ProtocolSteps {
  import opened Wrappers
  import opened Budget
  import opened Enforcement

  // --- the effect of a tick in closed form ---------------------------------

  function After(w: World, watching: bool): State {
    NextState(w.Current(), w.cfg, Observe(w, watching, {}, ALL_ANSWERED))
  }

  /** The state of the world this tick steers towards: blocked or not. */
  predicate Wanted(w: World, watching: bool) {
    After(w, watching).blockedByBudget || After(w, watching).manualBlock || w.Held()
  }

  predicate DropsStaleClaim(w: World, watching: bool) {
    w.Current().date != w.today && w.Held() && !After(w, watching).blockedByBudget
  }

  predicate SeenBlocked(w: World, net: Net) { w.armed && net.probe && w.Entry() }
  predicate SeenAtAll(w: World, net: Net) { w.armed && (net.probe || net.look) && w.Entry() }
  predicate WriteLands(w: World, net: Net) { w.armed && net.Lands() }

  function IdsAfterTick(w: World, watching: bool, net: Net): seq<Service> {
    if Wanted(w, watching) then
      if !w.Entry() && WriteLands(w, net) then w.resolver.ids + [w.service] else w.resolver.ids
    else
      if SeenAtAll(w, net) && WriteLands(w, net) then Without(w.resolver.ids, w.service) else w.resolver.ids
  }

  function OwnersAfterTick(w: World, watching: bool, net: Net): map<Owner, Date> {
    var next := After(w, watching);
    if Wanted(w, watching) then
      var kept := if DropsStaleClaim(w, watching) && w.armed then w.owners - {BudgetOwner} else w.owners;
      if !SeenBlocked(w, net) && w.armed && net.read && (w.Entry() || net.Known())
      then kept[BlockOwner(next, w.Held()) := w.today]
      else kept
    else
      if SeenAtAll(w, net) && net.Known() then w.owners - {BudgetOwner} else w.owners
  }

  function FirewallAfterTick(w: World, watching: bool, pins: set<Ip>): set<Ip> {
    if !Wanted(w, watching) then {}
    else if pins != {} && pins != w.firewall then pins
    else if DropsStaleClaim(w, watching) then {}
    else w.firewall
  }

  lemma {:induction false} ApplyAllAppend(
      w: World, a: seq<Action>, b: seq<Action>, next: State, persistent: bool, net: Net)
    ensures ApplyAll(w, a + b, next, persistent, net)
         == ApplyAll(ApplyAll(w, a, next, persistent, net), b, next, persistent, net)
    decreases |a|
  {
    if a == [] {
      assert a + b == b;
    } else {
      assert (a + b)[0] == a[0] && (a + b)[1..] == a[1..] + b;
      ApplyAllAppend(ApplyAction(w, a[0], next, persistent, net), a[1..], b, next, persistent, net);
    }
  }

  lemma ApplyPair(w: World, a: Action, b: Action, next: State, persistent: bool, net: Net)
    ensures ApplyAll(w, [a, b], next, persistent, net)
         == ApplyAction(ApplyAction(w, a, next, persistent, net), b, next, persistent, net)
  {
    assert [a, b] == [a] + [b];
    ApplyAllAppend(w, [a], [b], next, persistent, net);
  }

  lemma BookkeepingIsInert(w: World, s: State, obs: Observation, next: State, persistent: bool, net: Net)
    ensures ApplyAll(w, Bookkeeping(s, w.cfg, obs), next, persistent, net) == w
  {
    ApplyAllAppend(w, if s.date != obs.today then [ResetDay(s.date, obs.today)] else [],
                   if obs.watching then [CreditTime(w.cfg.sampleSec)] else [], next, persistent, net);
  }

  lemma ReleaseEffect(w: World, s: State, obs: Observation, next: State, net: Net)
    requires obs.persistentBlocked == w.Held()
    ensures ApplyAll(w, StaleRelease(s, w.cfg, obs), next, w.Held(), net)
         == if ReleasesStaleClaim(s, w.cfg, obs)
            then w.(owners := if w.armed then w.owners - {BudgetOwner} else w.owners, firewall := {}) else w
  {
    ApplyPair(w, UnblockHosts(DayResetBudgetOwner), ClearFirewall, next, w.Held(), net);
  }

  lemma RepairEffect(w: World, s: State, obs: Observation, next: State, persistent: bool, net: Net)
    ensures ApplyAll(w, Repair(s, obs), next, persistent, net)
         == if obs.FullyBlocked() then w else BlockEntry(w, BlockOwner(next, persistent), net).0
  {
    ApplyPair(w, BlockHosts(ReasonToBlock(s, obs)), FlushDns, next, persistent, net);
  }

  lemma LiftEffect(w: World, s: State, obs: Observation, next: State, persistent: bool, net: Net)
    requires obs.firewallIps == w.firewall
    ensures ApplyAll(w, Lift(s, obs), next, persistent, net)
         == (if obs.AnyBlocked() then UnblockEntry(w, net).0 else w).(firewall := {})
  {
    var u := UnblockHosts(if s.date != obs.today then DayReset else UnderBudget);
    assert [u, ClearFirewall, FlushDns] == [u] + [ClearFirewall, FlushDns];
    ApplyAllAppend(w, [u], [ClearFirewall, FlushDns], next, persistent, net);
    ApplyPair(ApplyAction(w, u, next, persistent, net), ClearFirewall, FlushDns, next, persistent, net);
  }

  function Released(w: World, stale: bool): World {
    if stale then w.(owners := if w.armed then w.owners - {BudgetOwner} else w.owners, firewall := {}) else w
  }

  lemma WantedParts(w: World, s: State, obs: Observation, next: State, net: Net)
    requires WantBlocked(s, w.cfg, obs) && obs.persistentBlocked == w.Held()
    ensures
      var w1 := Released(w, ReleasesStaleClaim(s, w.cfg, obs));
      var w2 := if obs.FullyBlocked() then w1 else BlockEntry(w1, BlockOwner(next, w.Held()), net).0;
      ApplyAll(w, ActionsFor(s, w.cfg, obs), next, w.Held(), net)
      == if obs.pinnedIps != {} && obs.pinnedIps != obs.firewallIps then w2.(firewall := obs.pinnedIps) else w2
  {
    var held := w.Held();
    var book, a, b, c := Bookkeeping(s, w.cfg, obs), StaleRelease(s, w.cfg, obs), Repair(s, obs), RefreshFirewall(obs);
    BookkeepingIsInert(w, s, obs, next, held, net);
    ApplyAllAppend(w, book, a, next, held, net);
    ApplyAllAppend(w, book + a, b, next, held, net);
    ApplyAllAppend(w, book + a + b, c, next, held, net);
    ReleaseEffect(w, s, obs, next, net);
    RepairEffect(Released(w, ReleasesStaleClaim(s, w.cfg, obs)), s, obs, next, held, net);
  }

  lemma UnwantedParts(w: World, s: State, obs: Observation, next: State, net: Net)
    requires !WantBlocked(s, w.cfg, obs) && obs.firewallIps == w.firewall
    ensures ApplyAll(w, ActionsFor(s, w.cfg, obs), next, obs.persistentBlocked, net)
         == (if obs.AnyBlocked() then UnblockEntry(w, net).0 else w).(firewall := {})
  {
    var book := Bookkeeping(s, w.cfg, obs);
    BookkeepingIsInert(w, s, obs, next, obs.persistentBlocked, net);
    ApplyAllAppend(w, book, Lift(s, obs), next, obs.persistentBlocked, net);
    LiftEffect(w, s, obs, next, obs.persistentBlocked, net);
  }

  // The platform calls of one tick, in the order they are made.
  function CallsOfTick(w: World, watching: bool, pins: set<Ip>, net: Net): World {
    if Wanted(w, watching) then
      var w1 := Released(w, DropsStaleClaim(w, watching));
      var w2 := if SeenBlocked(w, net) then w1 else BlockEntry(w1, BlockOwner(After(w, watching), w.Held()), net).0;
      if pins != {} && pins != w.firewall then w2.(firewall := pins) else w2
    else
      (if SeenAtAll(w, net) then UnblockEntry(w, net).0 else w).(firewall := {})
  }

  function Summary(w: World, watching: bool, pins: set<Ip>, net: Net): World {
    w.(resolver := w.resolver.(ids := IdsAfterTick(w, watching, net)),
       owners := OwnersAfterTick(w, watching, net),
       firewall := FirewallAfterTick(w, watching, pins))
  }

  lemma TickMakesCalls(w: World, watching: bool, pins: set<Ip>, net: Net)
    ensures TickStep(w, watching, pins, net)
         == CallsOfTick(w, watching, pins, net).(saved := Some(After(w, watching)))
  {
    if Wanted(w, watching) {
      WantedCalls(w, watching, pins, net);
    } else {
      UnwantedParts(w, w.Current(), Observe(w, watching, pins, net), After(w, watching), net);
    }
  }

  lemma WantedCalls(w: World, watching: bool, pins: set<Ip>, net: Net)
    requires Wanted(w, watching)
    ensures TickStep(w, watching, pins, net)
         == CallsOfTick(w, watching, pins, net).(saved := Some(After(w, watching)))
  {
    WantedParts(w, w.Current(), Observe(w, watching, pins, net), After(w, watching), net);
    ObservedAs(w, watching, pins, net);
  }

  // What the decision reads off the observation, in terms of the world.
  lemma ObservedAs(w: World, watching: bool, pins: set<Ip>, net: Net)
    ensures var obs := Observe(w, watching, pins, net);
            && NextState(w.Current(), w.cfg, obs) == After(w, watching)
            && (WantBlocked(w.Current(), w.cfg, obs) <==> Wanted(w, watching))
            && (ReleasesStaleClaim(w.Current(), w.cfg, obs) <==> DropsStaleClaim(w, watching))
            && (obs.FullyBlocked() <==> SeenBlocked(w, net)) && (obs.AnyBlocked() <==> SeenAtAll(w, net))
            && obs.persistentBlocked == w.Held() && obs.pinnedIps == pins && obs.firewallIps == w.firewall
  {
  }

  lemma BlockEntryEffect(w: World, owner: Owner, net: Net)
    ensures BlockEntry(w, owner, net).0
         == w.(resolver := w.resolver.(ids :=
                 if !w.Entry() && WriteLands(w, net) then w.resolver.ids + [w.service] else w.resolver.ids),
               owners :=
                 if w.armed && net.read && (w.Entry() || net.Known()) then w.owners[owner := w.today] else w.owners)
  {
  }

  lemma UnblockEntryEffect(w: World, net: Net)
    requires !w.Held() && w.armed && w.Entry()
    ensures UnblockEntry(w, net).0
         == if WriteLands(w, net)
            then w.(resolver := w.resolver.(ids := Without(w.resolver.ids, w.service)),
                    owners := if net.Known() then w.owners - {BudgetOwner} else w.owners)
            else w
  {
  }

  lemma CallsSummarised(w: World, watching: bool, pins: set<Ip>, net: Net)
    ensures CallsOfTick(w, watching, pins, net) == Summary(w, watching, pins, net)
  {
    if Wanted(w, watching) {
      BlockEntryEffect(Released(w, DropsStaleClaim(w, watching)), BlockOwner(After(w, watching), w.Held()), net);
    } else if SeenAtAll(w, net) {
      UnblockEntryEffect(w, net);
    }
  }

  /** Observing, deciding and applying, taken together, do this and nothing else. */
  lemma TickEffect(w: World, watching: bool, pins: set<Ip>, net: Net)
    ensures TickStep(w, watching, pins, net)
         == Summary(w, watching, pins, net).(saved := Some(After(w, watching)))
  {
    TickMakesCalls(w, watching, pins, net);
    CallsSummarised(w, watching, pins, net);
  }
}
