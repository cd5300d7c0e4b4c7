# SafeHouse: a verified model of its enforcement core

SafeHouse gives a child a daily YouTube budget on a Windows machine. Several independent programs enforce it
through one flat list of blocked services in AdGuard Home: a watcher that ticks every few seconds, control verbs
for the parent, a parental toggle and a nightly reset. They share nothing but that list and a small local file
that records who claims the block and since when. Around that core stand a byte meter over pinned addresses, a
weekly schedule with manual holds, a tail of the Roblox client log, a byte-preserving splice of the hosts file,
a DNS relay with a self-refreshing upstream, two DNS readers, a login throttle and a log comparison tool.

This project models those parts and proves what they promise. `dafny verify dfyconfig.toml` verifies all of it.

## How it is laid out

| module | what it models |
|---|---|
| `Budget` | the decision of one watcher tick: day reset, credit, reconcile |
| `Enforcement` | the shared world and every controller as one step, with each HTTP request able to fail on its own, a write also after it was carried out |
| `Controllers` | the same controllers as the imperative programs they are, tied to the steps of `Enforcement` |
| `ProtocolSteps` | one tick in closed form, from the actions it emits in order |
| `ProtocolSafety` | who can drop a claim, and what survives every interleaving |
| `ProtocolClaims` | who gains and gives up a claim, what the toggle answers |
| `ProtocolConvergence` | where answered ticks settle, day changes, accounting |
| `ControlVerbs` | the time remaining and the flags each verb leaves, and what the next tick makes of them |
| `Schedule` | week-minute arithmetic, the next transition, the expiry of a hold |
| `RuleList`, `SchedulePanel`, `PanelMachine` | AdGuard's user rules, the panel's YouTube lane, its handlers and its reconciler |
| `Meter`, `Pins`, `PinRanking`, `Ticker` | the meter, the pinned addresses, and the observation half of a tick |
| `LogTail`, `TailAgreement` | reading a log that grows, against one reading of the whole of it |
| `HostsScan`, `HostsSplice`, `HostsRuns`, `HostsFile` | the marker patterns as scans, the section's bytes, the two writers, and every run of them |
| `HostsLines`, `HostsEdited` | the section and the block list line by line, and sections in files others have edited |
| `DnsWire`, `DnsMessages`, `DnsDivergence` | the two walks over a packet, the messages of sections 4.1.1 to 4.1.4 of RFC 1035, and all other bytes |
| `Relay`, `RelaySafety`, `RelayProgress`, `RelayAddress` | the router's locked fields, the threads around them, and every interleaving |
| `LoginThrottle` | failures, stalls and lockouts by source |
| `Pairing` | the nearest-neighbour pairing of two logs |
| `Wrappers` | an optional value, and the three ways a write can go |

Where the original changes state in place, the model does too: a class with the same fields, whose methods say
which function of the old state the new one is. The theorems are about those functions and their runs.

## What is taken from outside

The clock, the counter reading, DNS answers, file contents, replies of AdGuard and of name servers, what a log
line says, the canonical form of an address and whether a password is right are inputs of the model. Times and
rates are real numbers where the original uses floating point. Local time is a plain count of microseconds.

## Where the code does not do what its own words say

The model follows the code in each case, and the exact condition is proved.

- `decide.py:130` promises one hosts action per tick. A day reset under a parental hold that also finds the
  resolver open emits two, and no other tick does (`Budget.AtMostOneResolverAction`,
  `Budget.TwoResolverActionsExample`).
- `toggle.py:193-200` promises never to lift a block the budget holds. It does lift it exactly when its own status
  read fails between requests that reach AdGuard, and the budget's claim then stands without an entry
  (`ProtocolSafety.AllowLiftsBudgetBlockOnlyBlind`, `ProtocolSafety.BlindAllowExample`).
- `adguard.py:140-167` takes a write whose answer is lost for one that did nothing. Whoever lifts the block that way
  keeps a claim without an entry; every step that leaves one is named (`ProtocolSafety.ClaimsStayBacked`,
  `ProtocolSafety.UnheardLiftExample`).
- `decide.py:156-159` releases yesterday's budget claim at the day reset. A grant, a new limit or a block made
  before the first tick of the day saves the new date with the old claim, so no tick of that day releases it;
  `allow` and `reset` release it themselves, and `status` saves nothing
  (`ProtocolConvergence.VerbBeforeFirstTickHidesNewDay`, `ProtocolConvergence.GrantBeforeFirstTickExample`).
- `adguard_daily_reset.py --dry-run` writes the marker on two branches that come before line 127: with the service
  already unblocked it clears every claim (96-99), and under a parental hold it drops a budget claim of another
  day (103-110). On all other inputs it changes nothing (`ProtocolSafety.DryRunWritesExactlyWhen`,
  `ProtocolSafety.DryRunExamples`).
- `roblox_games.py:675-691` forgets its place whenever no log is live or another one is newer. A log that comes back
  is read from its start, so every game that had got into the ledger before gets in again, and a game still open
  when a quiet tick comes is lost if its log does not. What every chain of visits to logs leaves is stated game by
  game (`TailAgreement.VisitsLedger`). Each game is there once exactly if no visit doubles one and none loses one
  (`TailAgreement.EveryGameOnce`), and which visits do is `TailAgreement.ShareIsDueExactly`: a log read again later
  had ended a game, or had one open when another log followed directly; a log not read again had one open when a
  quiet tick came (`TailAgreement.QuietLosesTheOpenGame`, `TailAgreement.OpenGameLostExample`,
  `TailAgreement.RecordedTwiceExamples`).
- `tick.py:146-159` drops the baseline when this program restarts the counter, so that no rate spans two sessions.
  Nothing tells it when the other watcher recreates the one counter there is, as happens in shadow mode: a credit
  is of one session exactly if nobody did since its baseline. Even then no byte is credited that the new session
  has not counted (`Ticker.CreditNeedsOneSession`, `Ticker.TwoSessionsExample`).
- `dns_proxy.py:113-138` sets the refreshing flag before the discovery thread is started. When the system
  refuses the thread, the flag stays set and no address is ever looked for again; the flag tells whether a discovery
  is under way exactly as long as no thread was refused (`RelaySafety.FailedStartEndsRefreshing`,
  `RelaySafety.FlagFollowsDiscovery`, `RelaySafety.RefusedThreadExample`).
- `hosts.py:80-90`: ending a last line that stops at a bare carriage return makes one CRLF more, which can
  change the line end of the section that follows (`HostsFile.LineEndKept`, `HostsFile.LineEndTipped`).
- `dns.py:257-301` and `dnsprobe.py:93-130` are two readers of one format. They agree on every packet that holds
  all it announces; on other bytes it is decided by the first name or record the strict walk cannot read
  (`DnsDivergence.AgreeExactly`), together with whether a record before it is a zero address. Behind a reserved label
  type, which the panel takes for a length, it depends on the records the following bytes happen to form. Replies
  the installer would accept show both ways a cut-off answer is read apart
  (`DnsDivergence.CutResponsesAreReadApart`).
- `auth.py:309-310` lets one typo cost half a second. The first failure stalls a whole one
  (`LoginThrottle.LimitsInForce`).
- `dns_proxy.py:106-111`: `_refresh_primary` always returns None, so the second attempt at lines 147-152 and
  166-171 is never made; the model has no step for it.

## Model

| member | source | states |
|---|---|---|
| `Budget.Decide` | python/safehouse_ytbudget/decide.py:101-198 | the next state and the actions, in order, are those of the specification: reset, credit, then the differences between the wanted and the seen world |
| `Budget.AtMostOneResolverAction` | python/safehouse_ytbudget/decide.py:129-198 | never more than two block or unblock actions in a tick, and two exactly when a day reset under a hold finds a layer open |
| `Budget.TwoResolverActionsExample` | python/safehouse_ytbudget/decide.py:154-174 | such a tick |
| `Budget.ResetsWhenDateDiffers` | python/safehouse_ytbudget/decide.py:106-121 | one day reset exactly when the stored date is not today's, else none |
| `Budget.LayersDecide` | python/safehouse_ytbudget/decide.py:135-152 | a tick blocks exactly if it wants the block and some layer it can see is open, and lifts exactly if it wants none and some layer it can see is blocked |
| `Budget.EveryChangeIsFlushed` | python/safehouse_ytbudget/decide.py:154-195 | every block is followed by a flush, every lift by the clearing of the firewall and a flush, and nothing else is flushed |
| `Budget.ReasonsAreTrue` | python/safehouse_ytbudget/decide.py:163-188 | a block is called a repair exactly if it was called for before this tick; a lift is called a day reset exactly on a new date |
| `Controllers.Machine.SetServiceBlocked` | python/safehouse_ytbudget/platform/adguard.py:140-167 | read, change, write back: the ids and the reply for every combination of requests that fail and of a write that is carried out unheard, the schedule and the marker untouched |
| `Controllers.Machine.BlockHostsEntry` | python/safehouse_ytbudget/platform/windows.py:246-253 | a claim is recorded exactly when the service was or is now blocked |
| `Controllers.Machine.UnblockHostsEntry` | python/safehouse_ytbudget/platform/windows.py:255-268 | under a parental claim only the budget's claim goes; else the entry goes and the claim with it |
| `Controllers.Machine.ApplyActions` | python/safehouse_ytbudget/tick.py:176-217 | the actions are applied in order, each block under the owner the new state calls for |
| `Controllers.Machine.TickOnce` | python/safehouse_ytbudget/tick.py:221-237 | one whole tick of the watcher is one step of the protocol and reports the actions decided |
| `Controllers.Machine.FreeBudgetIfPossible` | python/safehouse_ytbudget/cli.py:37-51 | a budget block goes exactly when the day is no longer over budget |
| `Controllers.Machine.RunVerb` | python/safehouse_ytbudget/cli.py:54-165 | every control verb is one step of the protocol, a stale day read as a fresh one |
| `Controllers.Machine.BlockResolver` | python/safehouse_setup/toggle.py:174-190 | the parental block and its answer, the claim recorded only for the budget's own service |
| `Controllers.Machine.AllowResolver` | python/safehouse_setup/toggle.py:193-216 | the parental allow and its answer in every case, a budget block included |
| `Controllers.Machine.NightlyReset` | python/adguard_daily_reset.py:69-137 | the nightly reset with its holds, its force and its dry run |
| `ProtocolSteps.TickEffect` | python/safehouse_ytbudget/tick.py:176-237 | one tick of observing, deciding and applying, as one update of ids, claims, firewall and state for every pattern of failing requests and unheard writes |
| `ProtocolSafety.ManualClaimReleasedOnlyBy` | python/safehouse_setup/toggle.py:193-216 | a recorded parental claim is dropped by a step if and only if the step is an answered allow or a nightly reset that found the service unblocked or was forced |
| `ProtocolSafety.HeldEntryKept` | python/safehouse_ytbudget/platform/windows.py:255-268 | while the parent's claim is recorded no tick and no verb takes the service out of AdGuard |
| `ProtocolClaims.ManualClaimTakenOnlyBy` | python/safehouse_setup/toggle.py:174-190 | an unrecorded parental claim is recorded by a step if and only if the step is a toggle block of the budget's own service that was answered, or found it listed |
| `ProtocolClaims.AnsweredBlock` | python/safehouse_setup/toggle.py:174-190 | an answered block lists the service; of the budget's own it records the parent's claim as of today and leaves the budget's as it was, of any other it records nothing |
| `ProtocolClaims.ToggleLeavesOtherClaims` | python/safehouse_setup/toggle.py:180-216 | block and allow never take or drop the budget's claim, and of another service they touch no claim |
| `ProtocolClaims.BlockStandsInEveryRun` | python/safehouse_setup/toggle.py:174-190 | from any armed world an answered block stands through every run without a release, with the service blocked unless a step took the entry from under the claim |
| `ProtocolClaims.BlockSurvivesTicksAndVerbs` | python/safehouse_ytbudget/platform/windows.py:255-268 | from any armed world an answered block leaves the service blocked through every run of ticks and verbs, whatever requests fail |
| `ProtocolClaims.BudgetClaimTakenOnlyBy` | python/safehouse_ytbudget/platform/windows.py:246-253 | an unrecorded budget claim is recorded if and only if an answered tick blocks for a reason of the budget's own without having seen the entry, or the control block is answered |
| `ProtocolClaims.BudgetClaimReleasedOnlyBy` | python/safehouse_ytbudget/platform/windows.py:255-268 | a recorded budget claim is dropped if and only if the step is one of the named lifts of a tick, a verb or the nightly reset, with the requests it needs answered |
| `ProtocolClaims.ClaimsAreDated` | python/safehouse_ytbudget/platform/adguard.py:322-398 | a claim carries the date of the step that last took it |
| `ProtocolClaims.AnswersAreTrue` | python/safehouse_setup/toggle.py:174-216 | what the toggle answers has happened to AdGuard's list, and a failure leaves the list as it was unless a write was carried out unheard |
| `ProtocolClaims.FailuresAreNamed` | python/safehouse_setup/toggle.py:174-216 | the answer names the first request that failed |
| `ProtocolClaims.BudgetIsNamed` | python/safehouse_setup/toggle.py:207-212 | allow answers that the budget holds the block if and only if it saw the claim and the entry |
| `ProtocolSafety.ClaimsStayBacked` | python/safehouse_ytbudget/platform/adguard.py:322-398 | whoever claims the block, the service is listed; a step breaks that if and only if it is an edit that drops the service, a blind allow, or a lift that AdGuard carries out while its answer is lost |
| `ProtocolSafety.OthersSurviveEveryRun` | python/safehouse_ytbudget/platform/adguard.py:140-167 | over every run the schedule and the ids of all services no command named survive, in their order |
| `ProtocolSafety.ParentalHoldSurvivesEveryRun` | python/safehouse_setup/toggle.py:174-190 | over every interleaving without a release the parent's claim stands, and the service is blocked unless some step left a claim without its entry |
| `ProtocolSafety.ClaimsBackedInEveryRun` | python/safehouse_ytbudget/platform/adguard.py:322-398 | over every run without those steps each claim has its entry |
| `ProtocolSafety.AllowLiftsBudgetBlockOnlyBlind` | python/safehouse_setup/toggle.py:193-216 | allow lifts a block the budget claims if and only if its status read goes unanswered while its other requests reach AdGuard |
| `ProtocolSafety.BlindAllowExample` | python/safehouse_setup/toggle.py:207-216 | a world and a pattern of failures in which it does |
| `ProtocolSafety.UnheardLiftExample` | python/safehouse_ytbudget/platform/adguard.py:140-167 | a tick that lifts yesterday's block unheard leaves the budget's claim without an entry |
| `ProtocolSafety.DryRunWritesExactlyWhen` | python/adguard_daily_reset.py:96-129 | a dry run changes the marker if and only if the service is found unblocked under a claim, or a hold stands beside a budget claim of another day, and changes nothing else ever |
| `ProtocolSafety.DryRunExamples` | python/adguard_daily_reset.py:96-129 | one world for each of the two |
| `ProtocolConvergence.AnsweredTickConverges` | python/safehouse_ytbudget/decide.py:129-198 | after any answered tick the service is blocked exactly when the budget is spent, a control block is set or the parent holds |
| `ProtocolConvergence.TickNeverMovesAway` | python/safehouse_ytbudget/decide.py:129-147 | whatever requests fail, a tick that changes the entry changes it to what the reasons ask for |
| `ProtocolConvergence.TicksSettle` | python/safehouse_ytbudget/decide.py:11-15 | after one answered tick the next emits at most a firewall refresh, and from the third on nothing is emitted and nothing changes |
| `ProtocolConvergence.BudgetClaimGivenUpOnlyOnNewDay` | python/safehouse_ytbudget/decide.py:154-161 | under a hold a tick gives up the budget's claim if and only if it sees a new date and leaves the day under budget |
| `ProtocolConvergence.SameDayUsage` | python/safehouse_ytbudget/decide.py:123-127 | over a same-day run of ticks the time used grows by one sample per credited tick and nothing else moves |
| `ProtocolConvergence.FirstOverrunBelowOneSample` | python/safehouse_ytbudget/decide.py:123-132 | the tick that first goes over budget is a credited one and overshoots by less than one sample |
| `ProtocolConvergence.NewDayFreesTheHold` | python/safehouse_ytbudget/decide.py:154-161 | the first tick of a new day under a hold, and any later ones that stay under budget, free the budget's claim and keep the parent's and the block; allow then really unblocks |
| `ProtocolConvergence.VerbBeforeFirstTickHidesNewDay` | python/safehouse_ytbudget/cli.py:63-163 | a verb before the first tick of the day saves the date with yesterday's claim if and only if it is a grant, a limit or a block; the claim then stays through every tick of the day and allow is refused, and after any other verb the next tick under budget leaves no claim |
| `ProtocolConvergence.GrantBeforeFirstTickExample` | python/safehouse_ytbudget/cli.py:109-119 | such a morning, with the grant and without |
| `ProtocolConvergence.AllowThenTickUnblocks` | python/safehouse_setup/toggle.py:193-216 | with no reason left, allow and one tick leave the service unblocked whatever claims were recorded |
| `ProtocolConvergence.OneResetPerDateChange` | python/safehouse_ytbudget/decide.py:106-113 | over any run of ticks and date moves there are exactly as many resets as consecutive ticks that see different dates |
| `ControlVerbs.TickWantsBlock` | python/safehouse_ytbudget/decide.py:123-133 | a tick steers towards a block if and only if the parent holds, a control block of today is set, or the sample it credits uses up the time remaining |
| `ControlVerbs.VerbsAndTime` | python/safehouse_ytbudget/cli.py:93-163 | what each verb does to the time remaining: a grant adds its minutes, taking back no more than was granted, a limit moves it by the difference, a reset restores the day |
| `ControlVerbs.VerbsAndFlags` | python/safehouse_ytbudget/cli.py:37-163 | what each verb leaves of the two flags, the saved date and the firewall |
| `ControlVerbs.NextTickAfterVerb` | python/safehouse_ytbudget/cli.py:54-165 | after any verb, whatever of it failed, the next answered tick has the service blocked if and only if the parent holds, a control block is set or no time remains |
| `ControlVerbs.VerbsInForce` | python/safehouse_ytbudget/cli.py:121-163 | a control block is in force at the next answered tick; an allow is undone by it exactly if no time remains or the parent holds; a reset and a large enough grant are not |
| `ControlVerbs.ControlBlockStands` | python/safehouse_ytbudget/cli.py:121-134 | a control block outlasts every run of ticks on its day |
| `ControlVerbs.LostStateIsAFreshDay` | python/safehouse_ytbudget/state.py:104-110 | a lost state file leaves the whole limit and no block, and announces no reset |
| `Schedule.WindowMinutes` | python/safehouse_panel/schedule.py:151-162 | the minutes yielded are exactly those less than the span after an opening, modulo the week |
| `Schedule.CollectAllowedMinutes` | python/safehouse_panel/schedule.py:165-174 | the collected minutes are the closed form, midnight and the wrap from Sunday to Monday included |
| `Schedule.WeekMinuteOfCalendar` | python/safehouse_panel/schedule.py:147-148 | the week-minute of a moment is the one its weekday, hour and minute give |
| `Schedule.WeakensMeansSomeMomentOpens` | python/safehouse_panel/schedule.py:186-193 | a change counts as weakening exactly when at some moment it allows what was blocked |
| `Schedule.NotWeakeningComposes` | python/safehouse_panel/schedule.py:186-193 | changes that each do not weaken do not weaken together |
| `Schedule.FindNextChange` | python/safehouse_panel/schedule.py:196-213 | the search loop finds what the specified scan of one week finds |
| `Schedule.NextChangeIsFirst` | python/safehouse_panel/schedule.py:196-213 | the reported moment is the first with another verdict, seconds included, within a week; none is reported exactly when the verdict never changes |
| `Schedule.HoldEndsAtNextBoundary` | python/safehouse_panel/schedule.py:261-269 | a hold ends strictly later, by midnight, on a whole second, with the schedule's verdict constant until then, and before midnight only where it changes |
| `Schedule.HoldDecidesUntilItsEnd` | python/safehouse_panel/schedule.py:248-277 | a hold decides until the exact moment it ends, in spite of the whole-second comparison, and the schedule from then on |
| `Schedule.AllowedByTheCalendar` | python/safehouse_panel/schedule.py:151-174 | a moment is allowed if and only if the mode says so or its weekday and time of day lie in a window, the morning after a window across midnight and the turn of the week included |
| `RuleList.YoutubeIsWellChosen` | python/safehouse_panel/controls.py:370-389 | SafeHouse's own lines are non-empty, stripped and never allow rules |
| `RuleList.StateMeaning` | python/safehouse_panel/controls.py:392-400 | blocked means every rule is present, allowed means none is, partial anything between |
| `RuleList.AddBlocks` | python/safehouse_panel/controls.py:403-410 | after adding, the list reads as blocked |
| `RuleList.AddKeepsForeign` | python/safehouse_panel/controls.py:403-410 | adding keeps every line of somebody else in order, up to trailing blanks |
| `RuleList.RemoveYoutubeRules` | python/safehouse_panel/controls.py:413-443 | the removal loop keeps exactly the lines that are not ours, allow rules included, less trailing blanks |
| `RuleList.RemoveAllows` | python/safehouse_panel/controls.py:413-443 | after removing, the list reads as allowed |
| `RuleList.RemoveKeepsForeign` | python/safehouse_panel/controls.py:413-443 | removing keeps every line of somebody else in order, up to trailing blanks |
| `RuleList.StripMeaning` | python/safehouse_panel/controls.py:389-443 | stripping takes spaces off both ends and nothing else |
| `RuleList.AddOnlyAppends` | python/safehouse_panel/controls.py:403-410 | adding appends the missing lines of ours, comments included, after one empty line if the last is not blank, and changes nothing else |
| `RuleList.OnlyTrailingBlanksGo` | python/safehouse_panel/controls.py:431-443 | what removing takes besides our lines are blank lines at the end |
| `SchedulePanel.DriveReaches` | python/safehouse_panel/controls.py:446-473 | driving the lane succeeds if and only if the read is answered and there is nothing to write or the write is answered; the rules are then as asked, a failure writes nothing unless only the answer to the write was lost, and other people's lines stay |
| `SchedulePanel.TickWritesExactlyWhen` | python/safehouse_panel/collect.py:495-540 | the reconciler writes if and only if a schedule is in force, no hold stands, the rules disagree, the reads are answered and the write arrives |
| `SchedulePanel.AnsweredTickEnforces` | python/safehouse_panel/collect.py:517-536 | an answered tick under a schedule leaves the rules at its verdict |
| `SchedulePanel.OthersKeptInEveryRun` | python/safehouse_panel/controls.py:413-430 | through any run of ticks, modes and holds every line of somebody else survives in its place |
| `SchedulePanel.ManualModeStandsDown` | python/safehouse_panel/collect.py:505-510 | under a manual mode no tick writes, through any outages and edits |
| `SchedulePanel.HoldThenResume` | python/safehouse_panel/collect.py:511-540 | a hold takes effect at once, no tick writes until it ends, and the first answered tick afterwards restores the schedule's verdict |
| `SchedulePanel.SettingAMode` | python/safehouse_panel/controls.py:491-535 | a manual mode is stored only if AdGuard says it took it, and without that the rules change only where the answer was lost; a schedule is stored either way and enforced by the first answered tick |
| `SchedulePanel.ClearingAHold` | python/safehouse_panel/controls.py:538-568 | back to the schedule: whatever requests fail the stored hold is gone at once with mode and windows kept, there is something to enforce at any later time, and the first answered tick enforces it; success means the rules read so already |
| `SchedulePanel.PlacingAHold` | python/safehouse_panel/controls.py:570-580 | a hold is stored only if the rules read as asked; else the stored policy stays, and the rules but for a write carried out unheard |
| `SchedulePanel.HoldNeedsASchedule` | python/safehouse_panel/controls.py:552-554 | without a stored schedule nothing changes |
| `SchedulePanel.OneLinePerOutage` | python/safehouse_panel/collect.py:519-526 | an outage of any length is logged once |
| `SchedulePanel.OneLinePerDefect` | python/safehouse_panel/collect.py:497-502 | a defect of the file is logged once |
| `SchedulePanel.OneLinePerFailure` | python/safehouse_panel/collect.py:531-540 | a verdict that cannot be enforced is logged once |
| `SchedulePanel.SuccessIsSaid` | python/safehouse_panel/collect.py:526-536 | a success is logged with what was found and asked; it or an agreement ends every outage |
| `PanelMachine.Lane.SetYoutubeBlocked` | python/safehouse_panel/controls.py:446-473 | the handler is the specified drive of the rules |
| `PanelMachine.Lane.ReconcilerTick` | python/safehouse_panel/collect.py:495-540 | the reconciler's pass, its three flags and its log are the specified tick |
| `PanelMachine.Lane.SetYoutubeSchedule` | python/safehouse_panel/controls.py:491-535 | the mode handler stores and drives in the order its mode calls for |
| `PanelMachine.Lane.OverrideUntil` | python/safehouse_panel/schedule.py:261-269 | the end of a hold is the next change or midnight, whichever comes first |
| `PanelMachine.Lane.SetYoutubeOverride` | python/safehouse_panel/controls.py:538-580 | the hold handler stores a hold only if AdGuard took it, and hands back to the schedule in any case |
| `Meter.Counter.Observe` | python/safehouse_ytbudget/meter.py:48-86 | a usable rate, the window and the high-water clock, or none of them, from a reading that may be missing, late or run backwards |
| `Meter.StateFromHistory` | python/safehouse_ytbudget/meter.py:36-86 | after any history the window holds the last usable rates and the clock the usable time since the last high one |
| `Meter.WatchingMeaning` | python/safehouse_ytbudget/meter.py:95-111 | watching if and only if the usable time since the last sample at the threshold is below the window |
| `Meter.HighWaterDominatesAverage` | python/safehouse_ytbudget/meter.py:95-111 | with samples no longer than the interval, a mean at the threshold is always watched |
| `Meter.RateIsInKilobits` | python/safehouse_ytbudget/meter.py:75 | the rate is in kilobits a second |
| `Meter.UsableExactly` | python/safehouse_ytbudget/meter.py:48-75 | a reading is unusable exactly if it is missing, of no time, the first or run backwards; one that did not move is a rate of zero |
| `Pins.Update` | python/safehouse_ytbudget/pins.py:61-136 | the kept, the new and the evicted pins are those of the specification |
| `Pins.SortedIsUnique` | python/safehouse_ytbudget/pins.py:128-134 | a sorted list of pins with different addresses is determined by which pins it holds |
| `Pins.RefreshedMeaning` | python/safehouse_ytbudget/pins.py:85-108 | for each address, what traffic and resolution do to its pin, the video mark staying once set |
| `PinRanking.KeptAndEvictedPartition` | python/safehouse_ytbudget/pins.py:110-134 | kept and evicted together are exactly the refreshed pins, each once |
| `PinRanking.KeptIsCappedAndSorted` | python/safehouse_ytbudget/pins.py:128-134 | at most 32 kept pins, in address order, of different addresses, none of them evicted |
| `PinRanking.CapEvictsTheLowestRanked` | python/safehouse_ytbudget/pins.py:115-131 | a pin evicted without being idle ranks behind every kept one, and the set is then full |
| `PinRanking.VideoPinsSurvive` | python/safehouse_ytbudget/pins.py:115-131 | with at most 32 live video pins all of them are kept |
| `PinRanking.FreshPinsAreLive` | python/safehouse_ytbudget/pins.py:75-113 | nothing active or resolved now is expired |
| `PinRanking.KeptIgnoresAnswerOrder` | python/safehouse_ytbudget/pins.py:92-134 | the kept pins do not depend on the order or the repetition of answers |
| `PinRanking.AddedAreTheNewlyKept` | python/safehouse_ytbudget/pins.py:96-136 | reported as new are exactly the kept addresses that were not pinned before |
| `PinRanking.AddedAsFirstAnswered` | python/safehouse_ytbudget/pins.py:97-105 | a pin reported as new bears the mark of the first answer that named it |
| `PinRanking.ExactlyTheUnusedExpire` | python/safehouse_ytbudget/pins.py:110-131 | every pin unused for the expiry time is evicted, and any other only by the cap of 32 |
| `PinRanking.CapPrefersVideoThenRecentUse` | python/safehouse_ytbudget/pins.py:115-131 | the cap evicts a video pin only for video pins, and among equals only for those used as lately |
| `PinRanking.TextLeMeaning` | python/safehouse_ytbudget/pins.py:128-134 | addresses are ordered as texts: a beginning first, else by the first difference |
| `Ticker.Watcher.Observe` | python/safehouse_ytbudget/tick.py:83-172 | baseline, pins and metered set after a tick, and whether it credits |
| `Ticker.BaselineIsOfThisSession` | python/safehouse_ytbudget/tick.py:146-159 | in every run the meter's baseline is the reading of its origin, with neither a failed reading nor a restart of this program's since |
| `Ticker.CreditNeedsOneSession` | python/safehouse_ytbudget/tick.py:110-159 | in every run a tick credits only with a non-empty metered set and on a rate that is the delta of two readings with neither a restart of its own nor a failed reading between them; both are of one counter session if and only if nobody else recreated the counter in between, and in any case the credited bytes are at most what the last session counted |
| `Ticker.TwoSessionsExample` | python/safehouse_ytbudget/platform/base.py:172-174 | in shadow mode, a credit across a counter recreated by the other watcher |
| `Ticker.MeterFollowsEvents` | python/safehouse_ytbudget/tick.py:110-159 | the meter inside the ticker is the meter of the readings and restarts it was given |
| `Ticker.CreditNeedsARecentHigh` | python/safehouse_ytbudget/tick.py:120-164 | a credited tick has a sample at the threshold within the window, since the last restart it was told of |
| `Ticker.TrafficIsUse` | python/safehouse_ytbudget/tick.py:127-139 | after a tick that measured traffic every pin was active now; after any other only the resolved ones were |
| `Ticker.MeterIsForgottenExactly` | python/safehouse_ytbudget/tick.py:154-159 | the meter is reset if and only if the metered set changed and the platform restarted the counter |
| `Ticker.SampleIsSinceLastTick` | python/safehouse_ytbudget/tick.py:83-118 | a sample is taken over the time since the tick before |
| `LogTail.FoldPresence` | python/safehouse_ytbudget/roblox_games.py:191-219 | the finished games and the one still open are the games of what the lines say, after the one known before, and one is open exactly if a join comes last |
| `LogTail.FoldFindsGames` | python/safehouse_ytbudget/roblox_games.py:191-219 | for any lines: each unbroken run of joins of one place is a game, of the first universe and stamp any of them knows; the fold finds exactly these in order and has ended all but one that no leave follows |
| `LogTail.ScanHistory` | python/safehouse_ytbudget/roblox_games.py:805-831 | one log's sessions are, by place, universe and start, the games its lines tell of: one for each unbroken run of joins of one place |
| `LogTail.Tracker.OneTick` | python/safehouse_ytbudget/roblox_games.py:674-730 | one pass of the resident loop over log, offset, presence and ledger |
| `TailAgreement.SplitAppend` | python/safehouse_ytbudget/roblox_games.py:305-309 | lines of a text and what follows its last newline are the lines of both |
| `TailAgreement.NewlineAddsNoEvent` | python/safehouse_ytbudget/roblox_games.py:305-309 | reading a piece without its last newline drops blank lines only, no event |
| `TailAgreement.TailEqualsBatch` | python/safehouse_ytbudget/roblox_games.py:283-309 | for any growth of a log and any schedule of reads, offset, presence and ledger are those of one fold over its complete lines |
| `TailAgreement.LogsHaveTheirGames` | python/safehouse_ytbudget/roblox_games.py:191-219 | the games of a log read so far are those its complete lines tell of, the last one ended only if it is not open |
| `TailAgreement.PassFindsGames` | python/safehouse_ytbudget/roblox_games.py:687-692 | one pass leaves in the ledger and open the games of what was open and the new lines |
| `TailAgreement.EndedGameIsRecordedOnce` | python/safehouse_ytbudget/roblox_games.py:726-730 | a game the guard ends is in the ledger once, and the client's own leave adds nothing |
| `TailAgreement.ShrunkLogIsReadAgain` | python/safehouse_ytbudget/roblox_games.py:290-309 | a log found shorter than it was read is read from its start |
| `TailAgreement.LineIsCut` | python/safehouse_ytbudget/roblox_games.py:308-309 | lines are cut at every line end, a carriage return and a newline together counting as one |
| `TailAgreement.NextLogClosesTheLast` | python/safehouse_ytbudget/roblox_games.py:680-691 | when another log takes over, the ledger has every game of the first, the open one included |
| `TailAgreement.VisitsLedger` | python/safehouse_ytbudget/roblox_games.py:669-691 | after any chain of visits to any logs, with quiet ticks between or none, the ledger has gained the game open at the start and, visit by visit, the games the log had ended from its start on and the open one exactly if another log followed directly |
| `TailAgreement.ShareIsDueExactly` | python/safehouse_ytbudget/roblox_games.py:675-691 | a visit whose log comes back doubles games if and only if one had ended, or one was open when another log followed directly; one whose log does not come back loses its open game if and only if a quiet tick follows |
| `TailAgreement.EveryGameOnce` | python/safehouse_ytbudget/roblox_games.py:669-691 | over every chain of visits the ledger has each log's games once if and only if no visit doubles one and none loses one, unless a lost game equals one that is there; then as many are there twice as are missing |
| `TailAgreement.QuietLosesTheOpenGame` | python/safehouse_ytbudget/roblox_games.py:675-678 | a log that goes quiet for good has all its games in the ledger if and only if none was open |
| `TailAgreement.OpenGameLostExample` | python/safehouse_ytbudget/roblox_games.py:675-678 | a log whose game is lost |
| `TailAgreement.RecordedTwiceExamples` | python/safehouse_ytbudget/roblox_games.py:675-691 | three chains that leave a game twice: after a quiet tick, and after another log with the game over or still open |
| `HostsSplice.ParseBlockList` | python/safehouse_ytbudget/hosts.py:70-77 | the loop collects the hosts of the list's lines in order |
| `HostsSplice.BlockListIsClean` | python/safehouse_ytbudget/hosts.py:70-77 | every entry is one non-empty stripped line without a comment |
| `HostsSplice.MarkersFit` | python/safehouse_setup/toggle.py:82-98 | for every name on one line ending in a word character, no marker can be taken for another |
| `HostsLines.SectionReadsBack` | python/safehouse_ytbudget/hosts.py:93-114 | what a block appends is, line by line, an empty line unless the file was empty, the marker, the zero address before each host in order, and the end marker |
| `HostsLines.HostIsRead` | python/safehouse_ytbudget/hosts.py:70-77 | a host is read from its line whatever blanks stand around it and whatever comment follows |
| `HostsLines.ListIsRead` | python/safehouse_ytbudget/hosts.py:70-77 | a list of such lines gives exactly the hosts written in it, in order |
| `HostsEdited.HandMadeSectionGone` | python/safehouse_ytbudget/hosts.py:37-58 | a section right behind a line, with anything behind its end marker and lines after it, goes and every other byte stays, the line end before it included |
| `HostsEdited.SectionGoneFromTheMiddle` | python/safehouse_ytbudget/hosts.py:37-58 | a section with an empty line before it goes with that line from anywhere in the file, and nothing else does |
| `HostsEdited.DropTailMeaning` | python/safehouse_ytbudget/hosts.py:46 | the section takes the rest of the end marker's line with its line end, and a bare carriage return ends none |
| `HostsEdited.LongerNamesAreOthers` | python/safehouse_ytbudget/hosts.py:34-35 | a section of a name that goes on with a letter, a digit or an underscore is another one's |
| `HostsRuns.InsertBlock` | python/safehouse_ytbudget/hosts.py:93-114 | an empty list is refused, an existing section of either kind left alone, else one section appended to the ended file |
| `HostsRuns.BlockHosts` | python/safehouse_setup/toggle.py:248-270 | the answer tells exactly which case it was, and only a completed block changes the file |
| `HostsRuns.AllowHosts` | python/safehouse_setup/toggle.py:287-299 | the manual sections are taken out, and the answer says whether there were any |
| `HostsRuns.TakenOut` | python/safehouse_ytbudget/hosts.py:48-58 | taking out a section that was put in gives the file back byte for byte, for either marker and for any kind |
| `HostsRuns.OtherKindStays` | python/safehouse_setup/toggle.py:287-294 | the remover of one kind leaves the other kind's section where it is |
| `HostsScan.NothingToTakeOut` | python/safehouse_ytbudget/hosts.py:117-122 | a file in which no line starts with the marker comes back unchanged |
| `HostsFile.StepFollowsMachine` | python/safehouse_ytbudget/hosts.py:93-122 | every operation on the bytes is one step of a machine with three states: untouched, last line ended, one section |
| `HostsFile.EveryRunKeepsTheFile` | python/safehouse_ytbudget/hosts.py:8-12 | any sequence of both writers leaves the base, the base with its last line ended, or that and one well-formed section, and is seen as blocked exactly in the last case |
| `HostsFile.EveryRunReturnsTheBase` | python/safehouse_ytbudget/hosts.py:8-12 | from an empty or newline-terminated file exactly the base bytes remain, with at most one section behind them |
| `HostsFile.RemoveUndoesInsert` | python/safehouse_ytbudget/hosts.py:93-122 | remove after insert returns the original bytes, plus one line end if the last line had none; the other writer's remover changes nothing |
| `HostsFile.LineEndKept` | python/safehouse_ytbudget/hosts.py:80-105 | ending the last line changes the detected line end if and only if a bare carriage return tips the count |
| `HostsFile.LineEndTipped` | python/safehouse_ytbudget/hosts.py:80-105 | such a file |
| `DnsWire.SkipDnsName` | python/safehouse_setup/dns.py:257-269 | the installer's name walk ends on every byte string, with the place behind the name or a refusal |
| `DnsWire.SkipName` | python/safehouse_panel/dnsprobe.py:123-130 | the panel's name walk ends on every byte string |
| `DnsWire.ResponseIsSinkholed` | python/safehouse_setup/dns.py:272-301 | true exactly when the strict walk reaches an all-zero A or AAAA record |
| `DnsWire.ParseResponse` | python/safehouse_panel/dnsprobe.py:93-120 | the response code and the addresses of the loose walk, none of them after an exception |
| `DnsWire.StrictNameIsLoose` | python/safehouse_setup/dns.py:257-269 | on any bytes, where the strict name walk passes, the loose one lands on the same byte |
| `DnsWire.SinkholeIsRead` | python/safehouse_panel/dnsprobe.py:93-120 | on any bytes, what the installer calls a sinkhole the panel reads as a zero address or drops with all others |
| `DnsMessages.NamesAreSkipped` | python/safehouse_panel/dnsprobe.py:123-130 | both walks end just behind a name of any labels, with or without a pointer |
| `DnsMessages.AnswerIsRead` | python/safehouse_setup/dns.py:284-298 | both readers take a well-formed record's own type and data, and the same next place |
| `DnsMessages.ReadersAgree` | python/safehouse_setup/dns.py:272-301 | on every well-formed message the panel reads exactly the data of type 1 with four bytes and of type 28 with sixteen, in order, and the installer sees a sinkhole if and only if one of them is all zero |
| `DnsMessages.SinkholesOfBothFamilies` | python/safehouse_setup/dns.py:293-298 | 0.0.0.0 and :: are sinkholes to the installer and zero addresses to the panel |
| `DnsMessages.BuildQuery` | python/safehouse_panel/dnsprobe.py:82-90 | the bytes built label by label are the encoding of a one-question message |
| `DnsMessages.QueryIsWalked` | python/safehouse_panel/dnsprobe.py:82-90 | walking a built query ends at its last byte, for either walker |
| `DnsDivergence.AgreeExactly` | python/safehouse_setup/dns.py:257-301 | on any bytes the installer's verdict is what the panel's addresses say if and only if the strict walk stops at a place that allows it: at the end, at a cut with no zero address among the records before it, at last data with one before or that are none themselves, or at a reserved label behind which the panel gets through all records announced, if there was a zero address before, and else does not get through all with a zero one among them |
| `DnsDivergence.WholeResponsesAreReadAlike` | python/safehouse_panel/dnsprobe.py:93-120 | in particular wherever all questions and records announced lie in the packet |
| `DnsDivergence.MessagesAreWhole` | python/safehouse_setup/dns.py:272-301 | as they do in every well-formed message |
| `DnsDivergence.CutAfterZero` | python/safehouse_panel/dnsprobe.py:108-119 | any message cut off behind an answer, with a sinkhole before the cut, is one to the installer and empty to the panel |
| `DnsDivergence.CutInsideZero` | python/safehouse_panel/dnsprobe.py:110-117 | any message cut off in its last answer's data, where the rest looks like a zero address, has that address to the panel only |
| `DnsDivergence.ReservedLabelIsWalkedOver` | python/safehouse_panel/dnsprobe.py:123-130 | a zero address behind a label of a reserved type is one to the panel only |
| `DnsDivergence.CutResponsesAreReadApart` | python/safehouse_setup/dns.py:239-250 | both cuts occur in replies to the installer's own probe, with its transaction and its question |
| `Relay.UpstreamRouter.ScheduleRefresh` | python/safehouse_setup/dns_proxy.py:113-121 | a discovery is due exactly if none is under way and the cooldown has passed, and only then do the fields change |
| `Relay.UpstreamRouter.Discover` | python/safehouse_setup/dns_proxy.py:123-132 | a discovery that ends stores what it found, none if the supplier raised, and clears the flag: the field update whose history `RelayAddress` follows |
| `Relay.UpstreamRouter.TakeStep` | python/safehouse_setup/dns_proxy.py:83-212 | each place of a request or connection does to the fields and goes on to what the interleaved model says |
| `RelaySafety.OneDiscoveryAtATime` | python/safehouse_setup/dns_proxy.py:113-138 | in every interleaving at most one discovery is due, running or lost, the flag is set exactly then, and the done event never |
| `RelaySafety.OneCallbackPerRecovery` | python/safehouse_setup/dns_proxy.py:83-97 | in every interleaving the callbacks made and due number the changes from degraded to healthy |
| `RelaySafety.SlotsAreConserved` | python/safehouse_setup/dns_proxy.py:257-268 | in every interleaving free slots and unfinished requests add up to the slots, so a release never exceeds them and a packet is refused only when all are taken |
| `RelaySafety.FailedStartEndsRefreshing` | python/safehouse_setup/dns_proxy.py:134-138 | after a refused discovery thread no run ever begins another discovery |
| `RelaySafety.RefusedThreadExample` | python/safehouse_setup/dns_proxy.py:113-138 | a run of three steps that gets there |
| `RelaySafety.FlagFollowsDiscovery` | python/safehouse_setup/dns_proxy.py:113-138 | the flag tells whether a discovery is due or running if and only if no start was refused |
| `RelayProgress.DiscoveriesAreSpaced` | python/safehouse_setup/dns_proxy.py:115-121 | with a clock that does not run backwards any two discoveries begin at least a second apart |
| `RelayProgress.RestAfterDiscovery` | python/safehouse_setup/dns_proxy.py:115-132 | and the next one begins at least the cooldown after the last one ended |
| `RelayProgress.WaitEndsWithDiscovery` | python/safehouse_setup/dns_proxy.py:115-132 | in every interleaving the done event is set if and only if a discovery was begun and none is under way |
| `RelayProgress.EveryThreadEnds` | python/safehouse_setup/dns_proxy.py:140-212 | a request or connection takes at most ten steps of its own, and nothing the others do sends it back |
| `RelayProgress.RequestsNeverWait` | python/safehouse_setup/dns_proxy.py:106-114 | in no interleaving does a DNS request wait for a discovery |
| `RelayAddress.AddressIsTheLastFind` | python/safehouse_setup/dns_proxy.py:99-132 | in every interleaving the relay has an address if and only if the last discovery to end found it and no thread without a reply has thrown it away since |
| `RelayAddress.OnlyFoundAddressesAreAsked` | python/safehouse_setup/dns_proxy.py:140-212 | in every interleaving any address a thread asks, throws away or avoids was found by an earlier discovery |
| `RelayAddress.NewcomersAskTheAddress` | python/safehouse_setup/dns_proxy.py:140-142 | a request or connection that arrives while there is an address asks that one, whatever happens in between |
| `RelayAddress.RequestIsDecidedByItsReply` | python/safehouse_setup/dns_proxy.py:140-157 | in every interleaving a request that got its reply heals the relay and never falls back; one that got none throws the address away, degrades the relay and falls back, not to the server that failed |
| `RelayAddress.RequestWithoutAddressFallsBack` | python/safehouse_setup/dns_proxy.py:140-157 | in every interleaving a request that finds no usable address degrades the relay and falls back |
| `RelayAddress.DegradedAfter` | python/safehouse_setup/dns_proxy.py:79-97 | a step leaves the relay degraded exactly if it marks it so, or it was and the step does not heal it |
| `RelayAddress.ConnectionLooksAgain` | python/safehouse_setup/dns_proxy.py:178-212 | in every interleaving a connection without an answer ends only after it waited and looked at the address again |
| `RelayAddress.RereadAsksAnotherAddress` | python/safehouse_setup/dns_proxy.py:200-210 | it asks again if and only if there is a usable address other than the one it asked |
| `RelayAddress.SecondAskDecides` | python/safehouse_setup/dns_proxy.py:203-211 | the second answer heals the relay, its absence degrades it |
| `RelayAddress.ConnectionsNeverAskTwice` | python/safehouse_setup/dns_proxy.py:178-212 | in every interleaving a connection never asks the server again that did not answer it, and takes no fallback |
| `LoginThrottle.Throttle.Recent` | python/safehouse_panel/auth.py:291-297 | pruning keeps exactly the failures inside the window, in order, and no empty list |
| `LoginThrottle.Throttle.LockedFor` | python/safehouse_panel/auth.py:299-304 | the whole seconds left of a lockout, counted from the last failure |
| `LoginThrottle.WaitIsTheTimeLeft` | python/safehouse_panel/auth.py:299-304 | a positive wait is the time left in whole seconds, never more than is left |
| `LoginThrottle.Throttle.RecordFailure` | python/safehouse_panel/auth.py:306-315 | a failure is noted and its stall is the doubling sequence over the window, capped |
| `LoginThrottle.Throttle.Login` | python/safehouse_panel/app.py:214-230 | the wait is looked up, then the password, then the outcome noted, as one step |
| `LoginThrottle.SourcesAreIndependent` | python/safehouse_panel/auth.py:277-289 | an attempt is answered from its own source's failures and changes no other's |
| `LoginThrottle.AnsweredFromTheHistory` | python/safehouse_panel/auth.py:291-315 | pruning never forgets a failure that counts: every answer and stall follows from all failures since the last login |
| `LoginThrottle.GuessingIsBounded` | python/safehouse_panel/auth.py:299-304 | in every run no more than `lockout_after` failures of a source fall within `lockout_sec - 1` seconds between logins, if and only if the window covers that long |
| `LoginThrottle.LimitsInForce` | python/safehouse_panel/auth.py:60-63 | the configured limits meet that condition; six failures within 900 seconds lock a source out for 900 from the last, and failures stall 1, 2, 4 and then 8 seconds |
| `Pairing.PairLogs` | python/tools/diff_watchers.py:73-92 | the nested loops pair as specified: each sample with the nearest unused one within the tolerance, the first of equals |
| `Pairing.BestMeaning` | python/tools/diff_watchers.py:82-88 | the inner loop's choice is the nearest unused sample within the tolerance, the first of equals, or there is none |
| `Pairing.PairingIsMaximal` | python/tools/diff_watchers.py:73-92 | the pairing is one-to-one on both sides, within the tolerance, and leaves no two neighbours over |
| `Pairing.AtLeastHalfTheBest` | python/tools/diff_watchers.py:73-92 | no pairing within the tolerance has more than twice as many pairs |
| `Pairing.HalfIsReached` | python/tools/diff_watchers.py:82-91 | two logs for which it has exactly twice as many |

## Left out

- RelayProgress.EveryThreadEnds: counts a thread's own steps; that locks are let go, and that waits and network calls time out, is not part of this model.
- LogTail.ScanHistory: one log, and not the end stamps of its sessions, because place, universe and start are what it shares with the fold; the sorting over several files is not modelled.
- LogTail.Tracker.OneTick: which game is to be ended and how is an input, and the ledger is the list of games put into it, before they are merged by universe.
- TailAgreement.VisitsLedger: the chains of visits have no game ended by the guard within a visit; which log is the newest at a tick is an input.
- HostsSplice.ParseBlockList: keeps bytes that are not UTF-8, which the original replaces.
- DnsMessages.BuildQuery: takes labels of 1 to 63 bytes; splitting a name and its IDNA form are library code.
- Read-modify-write races inside one AdGuard call or one marker write: each command is one atomic step.
- The shape of the marker file before owners had dates of their own, and owners other than the budget and the parent.
- AdGuard ids that are not strings, and the reading and writing of JSON anywhere.
- State fields the watcher does not know and carries along unchanged.
- A control block or toggle whose DNS flush or firewall call fails: the firewall is the set it was last given.
- The watch-time watcher loads its AdGuard credentials once at start; here they can come and go between any two steps.
- The checks `schedule.validate` makes on a stored schedule, and the texts the panel shows.
- Time zones and daylight saving: a day has 1440 minutes.
- Float rounding in the meter, the pairing and the throttle.
- Which addresses are the same address (`normalise_ip`): any function from text to an address.
- The lookback of the first DNS query of a watcher, and pktmon: the reading, the session it is of and whether a new filter restarts the counter are inputs of a tick.
- The pattern of a log line and its time stamp, decoding of bytes that are not text, and which log is the newest.
- A kill by the Roblox guard beyond its effect on the presence and the ledger; its delay, its message and its rate limits.
- Hosts file sections of names that do not end in a word character, and of other names than the one in hand.
- Reads and writes of the hosts file and of block lists that the system refuses.
- Fields of a record that neither DNS reader uses, and everything after the answers.
- Sockets, the select loop of the API relay and its own slots, which follow the same discipline as those of the DNS proxy.
- The exceptions a recovery callback may raise, which the original swallows.
- Two logins of one source that overlap between the look at the wait and the note of the failure.
- Sessions, password hashing, and the panel's answers to a login from another site or before a password is set.
- The kill guards for browsers, games, volume and microphone, the installer, and all presentation.
