/** The daily watch-time budget: `decide` compares the state and one observation of the
    world and returns the next state and the actions that close the difference. */
module Budget {
  import opened Wrappers

  // A local calendar date. The program only ever tests dates for equality.
  type Date = int
  type Ip = string

  datatype State = State(
    date: Date,
    used: nat,
    bonus: nat,
    blockedByBudget: bool,
    manualBlock: bool)

  datatype Config = Config(limitMin: nat, sampleSec: nat)

  function LimitSec(cfg: Config): nat { cfg.limitMin * 60 }

  // The state a missing, unreadable or previous-day file stands for.
  function FreshDay(today: Date): State { State(today, 0, 0, false, false) }

  predicate OverBudget(s: State, cfg: Config) { s.used >= LimitSec(cfg) + s.bonus }

  datatype Observation = Observation(
    today: Date,
    watching: bool,
    hostsBlocked: bool,
    pinnedIps: set<Ip>,
    firewallIps: set<Ip>,
    resolverBlocked: Option<bool>,
    persistentBlocked: bool)
  {
    predicate FullyBlocked() { hostsBlocked && (resolverBlocked.Some? ==> resolverBlocked.value) }
    predicate AnyBlocked() { hostsBlocked || (resolverBlocked.Some? && resolverBlocked.value) }
  }

  datatype BlockReason = Enforce | Reblock
  datatype UnblockReason = DayResetBudgetOwner | DayReset | UnderBudget

  datatype Action =
    | ResetDay(previous: Date, today: Date)
    | CreditTime(seconds: nat)
    | BlockHosts(blockReason: BlockReason)
    | UnblockHosts(unblockReason: UnblockReason)
    | SetFirewall(ips: set<Ip>)
    | ClearFirewall
    | FlushDns

  // --- specification -------------------------------------------------------

  /** The state after a tick: yesterday counts for nothing, a watched sample is credited
      whole, and the budget flag says exactly whether the day is over budget. */
  function NextState(s: State, cfg: Config, obs: Observation): State {
    var day := if s.date == obs.today then s else FreshDay(obs.today);
    var used := day.used + if obs.watching then cfg.sampleSec else 0;
    day.(used := used, blockedByBudget := used >= LimitSec(cfg) + day.bonus)
  }

  /** The service ought to be blocked after this tick. */
  predicate WantBlocked(s: State, cfg: Config, obs: Observation) {
    var next := NextState(s, cfg, obs);
    next.blockedByBudget || next.manualBlock || obs.persistentBlocked
  }

  /** A day reset under a parental hold gives up yesterday's budget claim. */
  predicate ReleasesStaleClaim(s: State, cfg: Config, obs: Observation) {
    s.date != obs.today && obs.persistentBlocked && !NextState(s, cfg, obs).blockedByBudget
  }

  function Bookkeeping(s: State, cfg: Config, obs: Observation): seq<Action> {
    (if s.date != obs.today then [ResetDay(s.date, obs.today)] else [])
    + (if obs.watching then [CreditTime(cfg.sampleSec)] else [])
  }

  function ReasonToBlock(s: State, obs: Observation): BlockReason {
    if s.date == obs.today && (s.blockedByBudget || s.manualBlock || obs.persistentBlocked)
    then Reblock else Enforce
  }

  function StaleRelease(s: State, cfg: Config, obs: Observation): seq<Action> {
    if ReleasesStaleClaim(s, cfg, obs) then [UnblockHosts(DayResetBudgetOwner), ClearFirewall] else []
  }

  function Repair(s: State, obs: Observation): seq<Action> {
    if obs.FullyBlocked() then [] else [BlockHosts(ReasonToBlock(s, obs)), FlushDns]
  }

  function RefreshFirewall(obs: Observation): seq<Action> {
    if obs.pinnedIps != {} && obs.pinnedIps != obs.firewallIps then [SetFirewall(obs.pinnedIps)] else []
  }

  function Lift(s: State, obs: Observation): seq<Action> {
    if obs.AnyBlocked() then
      [UnblockHosts(if s.date != obs.today then DayReset else UnderBudget), ClearFirewall, FlushDns]
    else if obs.firewallIps != {} then [ClearFirewall]
    else []
  }

  function ActionsFor(s: State, cfg: Config, obs: Observation): seq<Action> {
    if WantBlocked(s, cfg, obs)
    then Bookkeeping(s, cfg, obs) + StaleRelease(s, cfg, obs) + Repair(s, obs) + RefreshFirewall(obs)
    else Bookkeeping(s, cfg, obs) + Lift(s, obs)
  }

  // --- the program ---------------------------------------------------------

  // Every visible layer, and any visible layer.
  method ReadLayers(obs: Observation) returns (fullyBlocked: bool, anyBlocked: bool)
    ensures fullyBlocked == obs.FullyBlocked() && anyBlocked == obs.AnyBlocked()
  {
    var layers := [obs.hostsBlocked];
    if obs.resolverBlocked.Some? {
      layers := layers + [obs.resolverBlocked.value];
      assert layers[1] == obs.resolverBlocked.value;
    }
    assert layers[0] == obs.hostsBlocked;
    fullyBlocked, anyBlocked := false !in layers, true in layers;
  }

  method Decide(state: State, cfg: Config, obs: Observation) returns (next: State, actions: seq<Action>)
    ensures next == NextState(state, cfg, obs)
    ensures actions == ActionsFor(state, cfg, obs)
  {
    actions := [];
    next := state;
    var didReset := next.date != obs.today;
    if didReset {
      actions := actions + [ResetDay(next.date, obs.today)];
      next := next.(date := obs.today, used := 0, bonus := 0, blockedByBudget := false, manualBlock := false);
    }
    if obs.watching {
      next := next.(used := next.used + cfg.sampleSec);
      actions := actions + [CreditTime(cfg.sampleSec)];
    }
    assert actions == Bookkeeping(state, cfg, obs);
    var overBudget := next.used >= LimitSec(cfg) + next.bonus;
    var wantBlocked := overBudget || next.manualBlock || obs.persistentBlocked;
    var fullyBlocked, anyBlocked := ReadLayers(obs);
    if wantBlocked {
      if didReset && obs.persistentBlocked && !overBudget && !next.manualBlock {
        actions := actions + [UnblockHosts(DayResetBudgetOwner), ClearFirewall];
      }
      assert actions == Bookkeeping(state, cfg, obs) + StaleRelease(state, cfg, obs);
      if !fullyBlocked {
        var expectedBlock := state.blockedByBudget || state.manualBlock || obs.persistentBlocked;
        var reason := if expectedBlock && !didReset then Reblock else Enforce;
        actions := actions + [BlockHosts(reason), FlushDns];
      }
      assert actions == Bookkeeping(state, cfg, obs) + StaleRelease(state, cfg, obs) + Repair(state, obs);
      next := next.(blockedByBudget := overBudget);
      if obs.pinnedIps != {} && obs.pinnedIps != obs.firewallIps {
        actions := actions + [SetFirewall(obs.pinnedIps)];
      }
    } else {
      if anyBlocked {
        actions := actions + [UnblockHosts(if didReset then DayReset else UnderBudget), ClearFirewall, FlushDns];
      } else if obs.firewallIps != {} {
        actions := actions + [ClearFirewall];
      }
      next := next.(blockedByBudget := false);
    }
  }

  // --- what the actions of one tick can be ---------------------------------

  predicate TouchesResolver(a: Action) { a.BlockHosts? || a.UnblockHosts? }

  predicate Resets(a: Action) { a.ResetDay? }

  function Count(p: Action -> bool, actions: seq<Action>): (n: nat) {
    if actions == [] then 0 else (if p(actions[0]) then 1 else 0) + Count(p, actions[1..])
  }

  lemma {:induction false} CountAppend(p: Action -> bool, a: seq<Action>, b: seq<Action>)
    ensures Count(p, a + b) == Count(p, a) + Count(p, b)
  {
    if a == [] {
      assert a + b == b;
    } else {
      assert (a + b)[0] == a[0] && (a + b)[1..] == a[1..] + b;
      CountAppend(p, a[1..], b);
    }
  }

  lemma CountPair(p: Action -> bool, a: Action, b: Action)
    ensures Count(p, [a, b]) == Count(p, [a]) + Count(p, [b])
  {
    assert [a] + [b] == [a, b];
    CountAppend(p, [a], [b]);
  }

  lemma CountOne(p: Action -> bool, a: Action)
    ensures Count(p, [a]) == if p(a) then 1 else 0
  {
    assert Count(p, []) == 0 && [a][1..] == [];
  }

  // How many actions of each part of a tick satisfy `p`.
  lemma {:induction false} CountParts(p: Action -> bool, s: State, cfg: Config, obs: Observation)
    ensures Count(p, ActionsFor(s, cfg, obs))
         == Count(p, if s.date != obs.today then [ResetDay(s.date, obs.today)] else [])
          + Count(p, if obs.watching then [CreditTime(cfg.sampleSec)] else [])
          + if WantBlocked(s, cfg, obs)
            then Count(p, StaleRelease(s, cfg, obs)) + Count(p, Repair(s, obs)) + Count(p, RefreshFirewall(obs))
            else Count(p, Lift(s, obs))
  {
    var book, x, y, z := Bookkeeping(s, cfg, obs), StaleRelease(s, cfg, obs), Repair(s, obs), RefreshFirewall(obs);
    CountAppend(p, if s.date != obs.today then [ResetDay(s.date, obs.today)] else [],
                   if obs.watching then [CreditTime(cfg.sampleSec)] else []);
    CountAppend(p, book, x);
    CountAppend(p, book + x, y);
    CountAppend(p, book + x + y, z);
    CountAppend(p, book, Lift(s, obs));
  }

  lemma CountRepairs(p: Action -> bool, s: State, cfg: Config, obs: Observation)
    ensures Count(p, StaleRelease(s, cfg, obs)) == if ReleasesStaleClaim(s, cfg, obs)
              then Count(p, [UnblockHosts(DayResetBudgetOwner)]) + Count(p, [ClearFirewall]) else 0
    ensures Count(p, Repair(s, obs)) == if obs.FullyBlocked() then 0
              else Count(p, [BlockHosts(ReasonToBlock(s, obs))]) + Count(p, [FlushDns])
    ensures Count(p, Lift(s, obs)) == if obs.AnyBlocked()
              then Count(p, [UnblockHosts(if s.date != obs.today then DayReset else UnderBudget)])
                 + Count(p, [ClearFirewall]) + Count(p, [FlushDns])
              else if obs.firewallIps != {} then Count(p, [ClearFirewall]) else 0
  {
    var u := UnblockHosts(if s.date != obs.today then DayReset else UnderBudget);
    CountPair(p, UnblockHosts(DayResetBudgetOwner), ClearFirewall);
    CountPair(p, BlockHosts(ReasonToBlock(s, obs)), FlushDns);
    CountPair(p, ClearFirewall, FlushDns);
    assert [u, ClearFirewall, FlushDns] == [u] + [ClearFirewall, FlushDns];
    CountAppend(p, [u], [ClearFirewall, FlushDns]);
  }

  /** The module promises exactly one hosts action per tick at most. The code keeps that
      promise except on one path: a day reset under a parental hold that also finds the
      resolver open releases the stale claim and blocks again. */
  lemma AtMostOneResolverAction(s: State, cfg: Config, obs: Observation)
    ensures Count(TouchesResolver, ActionsFor(s, cfg, obs)) <= 2
    ensures Count(TouchesResolver, ActionsFor(s, cfg, obs)) == 2
       <==> ReleasesStaleClaim(s, cfg, obs) && !obs.FullyBlocked()
  {
    CountParts(TouchesResolver, s, cfg, obs);
    CountRepairs(TouchesResolver, s, cfg, obs);
    CountOne(TouchesResolver, ResetDay(s.date, obs.today));
    CountOne(TouchesResolver, CreditTime(cfg.sampleSec));
    CountOne(TouchesResolver, UnblockHosts(DayResetBudgetOwner));
    CountOne(TouchesResolver, UnblockHosts(if s.date != obs.today then DayReset else UnderBudget));
    CountOne(TouchesResolver, BlockHosts(ReasonToBlock(s, obs)));
    CountOne(TouchesResolver, ClearFirewall);
    CountOne(TouchesResolver, FlushDns);
    CountOne(TouchesResolver, SetFirewall(obs.pinnedIps));
  }

  /** A tick announces a new day exactly when the stored date is not today's, and once. */
  lemma ResetsWhenDateDiffers(s: State, cfg: Config, obs: Observation)
    ensures Count(Resets, ActionsFor(s, cfg, obs)) == if s.date != obs.today then 1 else 0
  {
    CountParts(Resets, s, cfg, obs);
    CountRepairs(Resets, s, cfg, obs);
  }

  /** Such a tick: the first of day 2 under a hold, with the entry gone, releases the claim and blocks again. */
  lemma TwoResolverActionsExample()
    ensures var s, cfg := State(1, 3600, 0, true, false), Config(60, 20);
            var obs := Observation(2, false, false, {}, {}, Some(false), true);
            Count(TouchesResolver, ActionsFor(s, cfg, obs)) == 2
  {
    AtMostOneResolverAction(
      State(1, 3600, 0, true, false), Config(60, 20), Observation(2, false, false, {}, {}, Some(false), true));
  }

  // --- order and reasons ---------------------------------------------------

  /** Every block and every lift is followed by a flush of the DNS cache, a lift by the opening of the firewall
      first, and nothing else is flushed; only the release of a stale claim, which opens nothing, goes without. */
  predicate Flushed(actions: seq<Action>) {
    actions == []
    || match actions[0]
       case BlockHosts(_) => |actions| > 1 && actions[1].FlushDns? && Flushed(actions[2..])
       case UnblockHosts(DayResetBudgetOwner) => |actions| > 1 && actions[1].ClearFirewall? && Flushed(actions[2..])
       case UnblockHosts(_) =>
         |actions| > 2 && actions[1].ClearFirewall? && actions[2].FlushDns? && Flushed(actions[3..])
       case FlushDns => false
       case _ => Flushed(actions[1..])
  }

  lemma {:induction false} FlushedAppend(a: seq<Action>, b: seq<Action>)
    requires Flushed(a) && Flushed(b)
    ensures Flushed(a + b)
    decreases |a|
  {
    if a == [] {
      assert a + b == b;
    } else {
      var n := match a[0]
        case BlockHosts(_) => 2
        case UnblockHosts(DayResetBudgetOwner) => 2
        case UnblockHosts(_) => 3
        case _ => 1;
      assert (a + b)[n..] == a[n..] + b;
      FlushedAppend(a[n..], b);
    }
  }

  lemma EveryChangeIsFlushed(s: State, cfg: Config, obs: Observation)
    ensures Flushed(ActionsFor(s, cfg, obs))
  {
    var book := Bookkeeping(s, cfg, obs);
    FlushedAppend(if s.date != obs.today then [ResetDay(s.date, obs.today)] else [],
                  if obs.watching then [CreditTime(cfg.sampleSec)] else []);
    if WantBlocked(s, cfg, obs) {
      FlushedAppend(book, StaleRelease(s, cfg, obs));
      FlushedAppend(book + StaleRelease(s, cfg, obs), Repair(s, obs));
      FlushedAppend(book + StaleRelease(s, cfg, obs) + Repair(s, obs), RefreshFirewall(obs));
    } else {
      FlushedAppend(book, Lift(s, obs));
    }
  }

  /** A block is called a repair exactly if it was called for before this tick: on the same day, with nothing
      credited, and the saved flag up to date as every tick leaves it. A lift is called a day reset exactly on
      a new date, and the release of a stale claim happens on one only. */
  lemma ReasonsAreTrue(s: State, cfg: Config, obs: Observation, a: Action)
    requires s.blockedByBudget <==> OverBudget(s, cfg)
    requires a in ActionsFor(s, cfg, obs)
    ensures a.BlockHosts? ==> (a.blockReason.Reblock? <==>
              s.date == obs.today && WantBlocked(s, cfg, obs.(watching := false)))
    ensures a.UnblockHosts? ==> (a.unblockReason.UnderBudget? <==> s.date == obs.today)
    ensures a.UnblockHosts? ==> (a.unblockReason.DayResetBudgetOwner? <==> WantBlocked(s, cfg, obs))
  {
  }

  /** A tick blocks exactly if it wants the service blocked and a layer it can see is open, and lifts, stale
      claims aside, exactly if it wants it open and a layer it can see is blocked: hosts and resolver alike. */
  lemma LayersDecide(s: State, cfg: Config, obs: Observation)
    ensures (exists a :: a in ActionsFor(s, cfg, obs) && a.BlockHosts?)
       <==> WantBlocked(s, cfg, obs) && (!obs.hostsBlocked || obs.resolverBlocked == Some(false))
    ensures (exists a :: a in ActionsFor(s, cfg, obs) && a.UnblockHosts? && !a.unblockReason.DayResetBudgetOwner?)
       <==> !WantBlocked(s, cfg, obs) && (obs.hostsBlocked || obs.resolverBlocked == Some(true))
  {
    var actions := ActionsFor(s, cfg, obs);
    var repair := BlockHosts(ReasonToBlock(s, obs));
    var lift := UnblockHosts(if s.date != obs.today then DayReset else UnderBudget);
    if WantBlocked(s, cfg, obs) && !obs.FullyBlocked() { assert repair in Repair(s, obs) && repair in actions; }
    if !WantBlocked(s, cfg, obs) && obs.AnyBlocked() { assert lift in Lift(s, obs) && lift in actions; }
  }
}
