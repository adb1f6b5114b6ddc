# Stateful kernels of the X server extensions, modelled and proved

This project models the parts of the X server's `Xext` directory that keep state across requests, and proves what
they keep. Each component below is one module or a few; `dafny verify dfyconfig.toml` checks all of them.

- **SYNC** (`SyncTypes`, `SyncBrackets`, `SyncModel`, `SyncRequests`, `SyncLinks`, `SyncInvariants`, `SyncInit`,
  `SyncRuns`, `SyncAlarms`, `SyncDestroy`, `SyncIdle`, `SyncMissed`, `SyncWaits`, `SyncGuards`, `SyncArrivals`,
  `SyncAwaits`, `SyncShortcut`, `SyncLapses`, `SyncOutcomes`, `SyncServer`). `SyncServer.SyncServer` holds the counters,
  alarms and awaits in fields and carries the procedures of `Xext/sync.c` with their loops; every method is proved to
  leave the state that a function of `SyncModel` or `SyncRequests` gives. The theorems are about those functions: the
  invariant of every run, what a walk over a trigger list fires, how an alarm advances, how an await unblocks, what the
  destruction of a counter sends to whom, that no client is left waiting for what has happened, and exactly when the
  bracket shortcut of the system counters misses something that checking every value would have done: in every state,
  after the requests that can bring it about, and over runs. `SyncOutcomes` says what the requests come to in terms of
  what a client gives and gets: values, test values, errors and events.
- **Xinerama** (`Bits`, `Blit`, `Stitch`, `Banding`, `Translation`). One logical image is put together, bit by bit, from
  screens that overlap; GetImage sends it in bands; PolyPoint, PolyLine and FillPoly are replayed on every screen.
- **BIGFONT** (`Bigfont`). Duplicate metrics are found with a chained hash table laid out in one array and rebuilt in
  place.
- **The hash table and its client** (`HashTable`, `XRes`). A table that doubles refines a map, and the reply of
  XResQueryResourceBytes is built on top of it.
- **Smaller machines.** Xv ports (`XvPorts`), the attribute list of the screen saver (`SaverAttributes`), generated
  authorizations (`Authorizations`), shared memory segments (`ShmSegments`). `Options`, `Powers` and `Wire` are shared.

What comes from outside is a parameter: clocks and idle times, allocation outcomes where the property speaks of failure,
what a driver leaves in a port, the pixels a screen's GetImage returns, what a request handler scribbles over its buffer,
how a region is cut into boxes, whether the resource database has room. Events are kept as a sequence.

## Where the code and its promises part

- A SYNC bracket is compared strictly with the extreme values of an INT64, so a trigger that waits for such a value can
  be missed. `SyncBrackets.BracketsSound` says for exactly which triggers (`Blind`).
- On a counter that never decreases, `SyncComputeBracketValues` passes over PositiveTransition triggers
  (Xext/sync.c:1103-1104). `BracketsSoundRising` gives the exact condition and `LonePositiveTransitionIsMissed` the run.
- The shortcut is to make no difference, and it can. `SyncMissed.MissesNothingIff` says exactly when it makes none: no
  pending trigger can fire between the counter's value and idle times inside the brackets (`Unseen`, a condition on test
  value, brackets and value). A request brings the other case about where an alarm gets another test value after the
  brackets have been computed, or where a value outside them is stored without a check.
  - CreateAlarm and ChangeAlarm let an alarm that is TRUE on arrival go off after the brackets have been computed
    (Xext/sync.c:1765-1768, 1809-1815), and nothing computes them again. `SyncLapses.AlarmMissed` is a run on which the
    next time is missed; `SyncArrivals.CreateAlarmMissesNothing` and `ChangeAlarmMissesNothing` give the exact condition
    on test value, delta, clock and brackets. The brackets can be out of date (`CreateAlarmFresh`) and yet miss nothing.
  - QueryCounter stores what it reads without a check (Xext/sync.c:1668-1672). `SyncArrivals.QueryMissesNothing` gives
    the exact condition on the value read, and `QueryJumps` says that only transition triggers can be lost that way:
    `SyncLapses.FallMissed` is a run that loses one, `RiseNotMissed` one that reads outside the brackets and loses none.
  - A stronger state, in which also no pending comparison is TRUE already (`SyncGuards.Guarded`), is one that later
    requests can keep up: `SyncShortcut.StepGuardedIff` says exactly which steps do, failing ones included (`Timely`).
- A wakeup that finds no bracket does not store the idle time either (Xext/sync.c:2739-2740), so a request that gives the
  counter's value without asking for it gives an old one: `SyncLapses.OldValueReported`.
- ChangeAlarm commits the new trigger before SyncInitTrigger can refuse it (Xext/sync.c:889-894). `SyncRuns.LateFailureInv`
  says exactly when the alarm invariant survives such a failure; the legal runs are those in which it does (`Harmless`).
  `SyncLapses.RefusedAndTrue` is a refused request that leaves an Active alarm TRUE, and after the one of
  `RefusedAndEndless` the loop at Xext/sync.c:580-584 does not end. `SyncAlarms.ReturnsIff` says exactly when it does not.
- The walk of SyncChangeCounter keeps a pointer to the next node (Xext/sync.c:724-725). `SyncLinks.SavedNextIsSafe` says
  that the node survives exactly if the two nodes are not conditions of one await, and `SyncRuns.SharesListIff` that an
  Await puts two conditions on one list exactly if it names a counter twice, which no Await of a legal run does.
  `SyncLapses.SavedNextIsGone` is the run on which the saved node is freed. The walk of FreeCounter (Xext/sync.c:1169-1172)
  fails on the same Await: it tells a trigger that went with the await of the node before (`SyncLapses.ToldWhenGone`).
- The events of an Xv port tell what it shows exactly if the driver goes on showing a drawable that it is asked to show
  again (`XvPorts.StepInv`).
- The screen saver's override-redirect value is checked and then always stored as true (Xext/saver.c:989-1001).
- Where no screen covers a pixel, GetImage sends zero for images of depth 1 and for planes, and whatever the buffer held
  otherwise; `Stitch.Shows` says no more than that.

## Model

| member | source | states |
|---|---|---|
| `SyncBrackets.NearestBrackets` | Xext/sync.c:1036-1126 | the brackets are test values that some trigger asked for, and no trigger asked for a nearer one |
| `SyncBrackets.QuietStep` | Xext/sync.c:242-304 | no step between two values inside the brackets fires a trigger of any of the four test types, unless it is blind |
| `SyncBrackets.BracketsSound` | Xext/sync.c:1036-1126 | on an unrestricted counter a trigger that is not a true comparison is never missed, by any run of values inside the brackets, if and only if it does not wait for an unguarded extreme value |
| `SyncBrackets.BracketsSoundRising` | Xext/sync.c:1060-1121 | the same if-and-only-if for a counter that never decreases, with the PositiveTransition triggers that its guard leaves out |
| `SyncBrackets.BracketsSoundFalling` | Xext/sync.c:1060-1121 | and for one that never increases, with the NegativeTransition triggers that its guard leaves out |
| `SyncBrackets.LonePositiveTransitionIsMissed` | Xext/sync.c:1103-1104 | a concrete run on which SERVERTIME passes a PositiveTransition trigger by without looking |
| `SyncMissed.QuietChange` | Xext/sync.c:2718-2727 | where no pending trigger can fire unseen, checking the triggers inside the brackets would have done nothing but store the value and recompute the brackets |
| `SyncIdle.QuiescentAfter` | Xext/sync.c:716-733 | after a walk no pending comparison trigger of the counter is true |
| `SyncIdle.FreshAfter` | Xext/sync.c:730-732 | after a walk the brackets of an unrestricted counter are those of its current value and list |
| `SyncIdle.ChangeCounterSame` | Xext/sync.c:716-733 | what a walk does, its new brackets included, does not depend on the brackets it found |
| `SyncMissed.LoudSimulates` | Xext/sync.c:2730-2760 | at a value outside the brackets the shortcut and the full check arrive at the same state |
| `SyncMissed.FastSimulatesSlow` | Xext/sync.c:2730-2760 | from related states, any sequence of readings keeps the shortcut and the full check in step |
| `SyncMissed.UnseenIff` | Xext/sync.c:242-304 | the condition on test value, brackets and value holds exactly if some step, from the counter's value or an idle time inside the brackets to another, makes the trigger TRUE |
| `SyncMissed.UnseenIsMissed` | Xext/sync.c:2718-2760 | such a trigger is missed: for one or two idle times the full check sends an event or unblocks a client, and the shortcut does neither |
| `SyncMissed.MissesNothingIff` | Xext/sync.c:2718-2760 | in any state that keeps the invariant, the shortcut gives the same events, alarms, awaits and unblocked clients as calling SyncChangeCounter at every reading, for every sequence of idle times with resets or without, if and only if no pending trigger can fire unseen |
| `SyncGuards.InitFresh` | Xext/sync.c:317-421 | a successful SyncInitTrigger leaves the brackets of the counter it joins and of the one it leaves up to date, and touches no other |
| `SyncArrivals.CreateAlarmMissesNothing` | Xext/sync.c:1765-1768 | after a CreateAlarm on an unrestricted counter the shortcut misses nothing if and only if no other pending trigger can fire unseen by the brackets just computed, and the alarm does not go off at once to a test value that can |
| `SyncArrivals.ChangeAlarmMissesNothing` | Xext/sync.c:1809-1815 | the same if-and-only-if for ChangeAlarm |
| `SyncArrivals.QueryMissesNothing` | Xext/sync.c:1668-1672 | after a QueryCounter it misses nothing if and only if no pending trigger can fire unseen from the value read |
| `SyncArrivals.QueryJumps` | Xext/sync.c:1668-1672 | where nothing was missed before, a query loses something if and only if its value has jumped a transition trigger that an idle time inside the brackets can pass back |
| `SyncArrivals.CreateAlarmFresh` | Xext/sync.c:1765-1768 | CreateAlarm leaves the brackets of an unrestricted counter up to date if and only if the alarm is FALSE on arrival, has no value to advance to, or advances to one that asks for the same brackets |
| `SyncArrivals.ChangeAlarmFresh` | Xext/sync.c:1809-1815 | the same if-and-only-if for ChangeAlarm |
| `SyncAwaits.AwaitFresh` | Xext/sync.c:1574-1648 | an Await that succeeds, blocking or not, leaves brackets that are up to date so |
| `SyncAwaits.AwaitGuardedIff` | Xext/sync.c:1574-1648 | an Await in any outcome leaves a counter guarded if and only if no pending comparison was TRUE at the value read where a condition has joined, and every trigger is heard at the value read where one has failed |
| `SyncShortcut.StepGuardedIff` | Xext/sync.c:2116-2164 | from a state with every unrestricted counter guarded, a legal step leaves every one guarded if and only if it is timely, a condition on the readings and the alarm of the request |
| `SyncShortcut.RunGuardedIff` | Xext/sync.c:2116-2164 | so over runs: guarded all along if and only if every step is timely |
| `SyncShortcut.ShortcutInRuns` | Xext/sync.c:2718-2760 | from the start of the server, after any legal run whatever, the shortcut misses nothing if and only if no pending trigger can fire unseen |
| `SyncShortcut.TimelyMissesNothing` | Xext/sync.c:2718-2760 | a run of timely steps is enough for that, at its end and all the way |
| `SyncLapses.AlarmMissed` | Xext/sync.c:1765-1768 | a run from the start, and a reading on which the shortcut sends nothing and the full check one event: the alarm was TRUE on arrival |
| `SyncLapses.FallMissed` | Xext/sync.c:1668-1672 | the same where a query was the first to read the counter outside its brackets |
| `SyncLapses.RiseNotMissed` | Xext/sync.c:1668-1672 | a run with such a query after which nothing is missed, though a pending comparison is TRUE |
| `SyncLapses.OldValueReported` | Xext/sync.c:2739-2740 | a run after which the shortcut misses nothing, and yet a DestroyAlarm after a wakeup reports another value than if the wakeup had checked |
| `SyncAlarms.AdvanceIsLeast` | Xext/sync.c:576-587 | the new test value is the old one plus k times delta for the least k >= 1 that makes the trigger FALSE; there is none exactly when the sum leaves an INT64 first |
| `SyncAlarms.NoValueFits` | Xext/sync.c:589-597 | for a delta of the right sign, giving up means that no multiple of it would have done |
| `SyncAlarms.TransitionAdvancesOnce` | Xext/sync.c:580-584 | a transition alarm advances by exactly one delta, or overflows |
| `SyncAlarms.JumpRefinesAdvance` | Xext/sync.c:578-584 | the repeated addition computes what one division does, so the "something smarter" of the comment is the same function |
| `SyncAlarms.AlarmGoesOff` | Xext/sync.c:531-607 | one AlarmNotify with the counter's value, the old test value and the new state, to the owner and to those who selected it; Inactive if and only if there is no counter, a zero delta on a comparison, or no value to advance to, and then the trigger is unchanged |
| `SyncAlarms.LoopEndsIff` | Xext/sync.c:580-584 | the advance loop ends if and only if delta is not 0 or the trigger is FALSE |
| `SyncAlarms.ReturnsIff` | Xext/sync.c:531-587 | SyncAlarmTriggerFired returns unless the alarm is Active on a counter, with delta 0, a transition test type, and a check function that is TRUE |
| `SyncAlarms.NeverSpins` | Xext/sync.c:576-587 | in a state that keeps the invariant the procedure returns for every alarm and value |
| `SyncAlarms.EventIndicesAre` | Xext/sync.c:640-691 | the conditions chosen are exactly those that want an event, in the order of the request |
| `SyncAlarms.EventsAreWanted` | Xext/sync.c:474-512 | the events of an await match its wanted conditions one by one, with counts n-1 down to 0 |
| `SyncAlarms.AwaitUnblocks` | Xext/sync.c:615-702 | unblocking, also because a counter is being destroyed, sends those events in one block, takes every condition of the await off every list but that of a dying counter, and lets the client be served again |
| `SyncAlarms.AwaitTells` | Xext/sync.c:640-691 | condition k has an event if and only if its counter is being destroyed, or value less test value fits an INT64 and has reached the event threshold, upwards for the positive tests and downwards for the negative ones; it has one, with the values and how many are to come |
| `SyncDestroy.FreeCounterTells` | Xext/sync.c:1158-1183 | destroying a counter sends exactly what each node of its list is due, in list order, as it would have been before the walk; exactly the alarms and awaits on the list are settled |
| `SyncDestroy.AlarmsOfDestroyed` | Xext/sync.c:518-525 | each alarm on the counter becomes Inactive, loses its counter and sends exactly one AlarmNotify with the counter's last value; other alarms send nothing and are unchanged |
| `SyncDestroy.ClientsOfDestroyed` | Xext/sync.c:615-702 | each client waiting on the counter is unblocked and gets the events of its await, counting down to 0, one of them marked destroyed and for this counter; clients waiting on others get nothing and stay blocked |
| `SyncDestroy.ListsAfterDestroyed` | Xext/sync.c:1190-1212 | the other counters lose exactly the conditions of the awaits that are gone |
| `SyncWaits.RunMissesNone` | Xext/sync.c:1539-1568 | no step of a legal run leaves an await with a TRUE comparison on a client's counter |
| `SyncWaits.StillWaiting` | Xext/sync.c:1539-1568 | in every run each condition of an outstanding await is on the list of a live counter, and a comparison on a client's counter is FALSE |
| `SyncLinks.UnlinkEffect` | Xext/sync.c:1190-1212 | freeing the first n conditions takes exactly them off every list and changes no alarm, await, value or event |
| `SyncLinks.FreeAwaitEffect` | Xext/sync.c:1190-1212 | freeing an await removes its conditions and nothing else, and the lists stay consistent |
| `SyncLinks.FireAwaitEffect` | Xext/sync.c:615-702 | firing an await removes it from every list and touches no alarm |
| `SyncLinks.FireAlarmEffect` | Xext/sync.c:531-607 | firing an alarm changes its state, its test value and the events only; if it stays Active its trigger is FALSE, unless the advance loop does not end |
| `SyncLinks.FireEffect` | Xext/sync.c:716-733 | firing any trigger keeps lists and triggers linked to each other, and only removes nodes of a fired await |
| `SyncLinks.SavedNextIsSafe` | Xext/sync.c:724-725 | the saved next node survives the firing of the one before if and only if they are not conditions of one await |
| `SyncRuns.SharesListIff` | Xext/sync.c:1600-1640 | an Await puts two conditions on one list if and only if it names a counter twice |
| `SyncLapses.SavedNextIsGone` | Xext/sync.c:722-727 | a run on which firing the first node of the list frees the second, which was due to fire and had been saved as the next |
| `SyncLapses.ToldWhenGone` | Xext/sync.c:1169-1172 | on the same Await the walk of FreeCounter keeps a node whose trigger went with the await that the node before has freed |
| `SyncOutcomes.ChangeTellsAlarm` | Xext/sync.c:716-733 | a new value of a counter makes an Active alarm on it send exactly one AlarmNotify, with both values and its listeners, if its test becomes TRUE in the sense of the protocol, and leaves every other alarm silent and unchanged |
| `SyncOutcomes.ChangeEndsAwait` | Xext/sync.c:716-733 | a new value ends an await if and only if the test of its condition on that counter becomes TRUE; the client is ignored exactly as long as its await is there |
| `SyncOutcomes.CounterRequests` | Xext/sync.c:1430-1487 | ChangeCounter is SetCounter to the sum if it fits an INT64 and nothing otherwise, and both leave system counters alone |
| `SyncOutcomes.ServertimeWakes` | Xext/sync.c:2562-2572 | with brackets of its value and list, the SERVERTIME wakeup checks the triggers whenever one becomes TRUE that it cannot miss, and does nothing below the bracket |
| `SyncOutcomes.FreeAlarmTells` | Xext/sync.c:1134-1151 | a destroyed alarm sends one AlarmNotify that says so, leaves its list, and nothing else changes |
| `SyncOutcomes.SelectsEvents` | Xext/sync.c:737-793 | a client hears of an alarm afterwards, and once, exactly if it has asked to; nothing changes for the others |
| `SyncOutcomes.RefusedFor` | Xext/sync.c:799-899 | the error of a request for an alarm, the first that applies, in terms of the attributes asked for and the values read |
| `SyncOutcomes.RefusedTest` | Xext/sync.c:341-371 | the test value that a refusal leaves: the old one, the absolute one, or the sum, wrapped around if it does not fit |
| `SyncOutcomes.ChangeAlarmOutcome` | Xext/sync.c:1779-1817 | ChangeAlarm leaves an alarm that is as asked, with its old attributes where the request is silent, and that goes off at once if and only if it is TRUE on arrival; a refusal sends nothing |
| `SyncOutcomes.ChangeAlarmRefused` | Xext/sync.c:799-899 | what a refused ChangeAlarm leaves: nothing, the selection of events, or all attributes but the counter and the state, by the kind of refusal |
| `SyncOutcomes.CreateAlarmOutcome` | Xext/sync.c:1696-1773 | the same for CreateAlarm, with the defaults of the protocol; an alarm without a counter is Inactive and silent, and a refused one is not there |
| `SyncOutcomes.AwaitOutcome` | Xext/sync.c:1574-1648 | an Await succeeds if and only if it has conditions and all of them can be waited for, and otherwise has the error of the first that cannot; its client waits for just what it asked if every test is FALSE at the values read, and else goes on, told of the counters beyond their thresholds |
| `SyncLinks.FiredAlarmsAreFalse` | Xext/sync.c:580-584 | after all the triggers chosen by a walk have fired, every one that is a still Active alarm is FALSE |
| `SyncModel.TrueInOrder` | Xext/sync.c:722-727 | the triggers a walk fires are the old list with those left out whose check does not hold: in list order, each once |
| `SyncInit.InitSuccessEffect` | Xext/sync.c:317-421 | a successful SyncInitTrigger installs the test it was asked for and, whenever the counter changes, takes the trigger off its old list and puts it in front of the new one |
| `SyncInit.InitTests` | Xext/sync.c:317-421 | after a success the test value is the value given if absolute, and that plus the value the counter then has if relative; a system counter has been asked for its value; no other value, and nothing that was not named, changes |
| `SyncInit.InitRefuses` | Xext/sync.c:325-396 | which of BadCounter, BadValue and BadMatch a request gets, and exactly when none: among others, a sum that does not fit an INT64 is BadValue |
| `SyncInit.InitFailureEffect` | Xext/sync.c:317-421 | a failing one changes no list |
| `SyncInvariants.ChangeCounterInv` | Xext/sync.c:716-733 | a counter change keeps the invariant, whatever fires on the way |
| `SyncInvariants.FreeAlarmInv` | Xext/sync.c:1134-1151 | destroying an alarm keeps the invariant |
| `SyncInvariants.FreeCounterInv` | Xext/sync.c:1158-1183 | destroying a counter keeps the invariant, though awaits it unblocks leave other lists during the walk |
| `SyncRuns.ChangeAttributesSuccess` | Xext/sync.c:799-899 | a successful change of attributes leaves the alarm Active, linked and with a delta of the right sign |
| `SyncRuns.LateFailureInv` | Xext/sync.c:889-894 | after a ChangeAlarm that fails late the invariant holds if and only if the request named no different test type and did not leave an Active alarm on a client's counter with a TRUE trigger |
| `SyncLapses.RefusedAndTrue` | Xext/sync.c:889-894 | a run with a refused relative value that overflows: the alarm agrees with itself, is Active, and is TRUE |
| `SyncLapses.RefusedAndEndless` | Xext/sync.c:576-587 | a run with a refused counter after which the advance loop does not end when the counter reaches the test value |
| `SyncRuns.ChangeAlarmInv` | Xext/sync.c:1779-1817 | ChangeAlarm keeps the invariant if and only if it succeeds, fails early, or fails late as above |
| `SyncRuns.CreateAlarmInv` | Xext/sync.c:1696-1773 | CreateAlarm keeps the invariant, whether it succeeds or fails |
| `SyncRuns.FailedAwait` | Xext/sync.c:1574-1648 | an Await that fails leaves every trigger list, client counter, alarm, await, ignore count and event as it was |
| `SyncRuns.BlockedInv` | Xext/sync.c:1539-1568 | a successful Await leaves its client ignored, with one outstanding await, and everything linked |
| `SyncRuns.AwaitInv` | Xext/sync.c:1574-1648 | Await keeps the invariant in every outcome |
| `SyncRuns.StepInv` | Xext/sync.c:2116-2164 | every request, wakeup, client exit and resource cleanup keeps the invariant |
| `SyncRuns.RunInv` | Xext/sync.c:2116-2164 | so does every legal run |
| `SyncRuns.ActiveAlarms` | Xext/sync.c:1696-1817 | in every run an Active alarm has a live counter, is on its list once and on no other, has a delta of the right sign, and on a client's counter is FALSE between requests |
| `SyncRuns.IgnoredIffWaiting` | Xext/sync.c:1539-1568 | in every run a live client is ignored if and only if it has an outstanding await |
| `SyncServer.SyncServer.NarrowBy` | Xext/sync.c:1060-1121 | the four branches narrow the brackets as one trigger asks for, for its kind of counter |
| `SyncServer.SyncServer.ComputeBracketValues` | Xext/sync.c:1036-1126 | the loop over the list computes the brackets of the whole list |
| `SyncServer.SyncServer.DeleteTriggerFromSyncObject` | Xext/sync.c:148-188 | the walk unlinks the trigger's node and refreshes the brackets |
| `SyncServer.SyncServer.AddTriggerToSyncObject` | Xext/sync.c:191-225 | the trigger is put in front of the list once, or left where it is |
| `SyncServer.SyncServer.AdvanceTestValue` | Xext/sync.c:576-597 | whenever it can end, the do-while loop with its overflow flag ends and computes the advance |
| `SyncServer.SyncServer.AlarmTriggerFired` | Xext/sync.c:531-607 | whenever it returns, the procedure computes what the alarm theorems are about |
| `SyncServer.SyncServer.SendCounterNotifyEvents` | Xext/sync.c:474-512 | the loop appends the events with their counts, unless the client is gone |
| `SyncServer.SyncServer.FreeAwait` | Xext/sync.c:1190-1212 | the loop frees the conditions, except on counters being destroyed |
| `SyncServer.SyncServer.AwaitTriggerFired` | Xext/sync.c:615-702 | the two passes compute what the await theorems are about |
| `SyncServer.SyncServer.FreeAlarm` | Xext/sync.c:1134-1151 | the Destroyed event is sent and the trigger leaves its list |
| `SyncServer.SyncServer.ChangeCounter` | Xext/sync.c:716-733 | the walk with a saved next pointer fires exactly the triggers of the old list whose check held, each once, in list order, though nodes disappear during the walk |
| `SyncServer.SyncServer.FreeCounter` | Xext/sync.c:1158-1183 | the walk tells every trigger on the list, and the counter is gone |
| `SyncServer.SyncServer.InitTrigger` | Xext/sync.c:317-421 | success and failure leave the states that the theorems about SyncInitTrigger speak of, with the status of `InitRefuses` |
| `SyncServer.SyncServer.ChangeAlarmAttributes` | Xext/sync.c:799-899 | status and state, with the commit before the last check |
| `SyncServer.SyncServer.ProcChangeAlarm` | Xext/sync.c:1779-1817 | status and state of the whole request, firing included; the invariant survives exactly if the request is harmless |
| `SyncServer.SyncServer.ProcCreateAlarm` | Xext/sync.c:1696-1773 | status and state of the whole request, undone if the attributes are refused; the invariant survives |
| `SyncServer.SyncServer.AwaitEpilogue` | Xext/sync.c:1539-1568 | the client is ignored, and the first true condition unblocks it |
| `SyncServer.SyncServer.ProcAwait` | Xext/sync.c:1574-1648 | the whole request, undone if a condition is refused |
| `SyncServer.SyncServer.IdleTimeWakeup` | Xext/sync.c:2718-2760 | nothing without a bracket; an idle time of 0 is tried first after a reset, with the brackets computed anew before the second; inside the brackets only the value is stored |
| `Bits.ShiftRBit` | Xext/panoramiX.c:1110-1116 | shifting right moves bit k + s to bit k |
| `Bits.ShiftLBit` | Xext/panoramiX.c:1110-1116 | shifting left moves bit k - s to bit k |
| `Blit.OrByte` | Xext/panoramiX.c:1126-1127 | or-ing a shifted byte and its spill sets exactly the bits of the byte at the new offset |
| `Blit.CopyBits` | Xext/panoramiX.c:1120-1131 | the loop ors the bits of the source in, shiftL bits to the right, and changes no other bit |
| `Blit.BlitRow` | Xext/panoramiX.c:1249-1267 | a row of whole bytes and leftover bits lands at any bit offset of a clear row, and changes no other bit |
| `Blit.CleanEdge` | Xext/panoramiX.c:1241-1247 | the bits beyond the width are cleared in every row and no bit of the image changes |
| `Blit.BlitRect` | Xext/panoramiX.c:1231-1268 | for any offset, width and height, bit (x+c, y+r) of a clear rectangle becomes bit c of scratch row r, and no bit outside the rectangle changes |
| `Blit.CopyRect` | Xext/panoramiX.c:1269-1280 | the same for whole bytes, with no need of a clear target |
| `Stitch.PastePixel` | Xext/panoramiX.c:1231-1280 | a pasted box gives its pixels the value the screen shows and leaves the other pixels of the image |
| `Stitch.GrabBox` | Xext/panoramiX.c:1205-1280 | one box of the region: read, then pasted over points not written before |
| `Stitch.GrabRegion` | Xext/panoramiX.c:1199-1281 | all boxes of the region, each point written once |
| `Stitch.GetImageData` | Xext/panoramiX.c:1139-1294 | the pixel at (c, r) is that of the logical screen at (left + c, top + r) for the root, and the window's own (left + c, top + r) for a window, from a screen that contains the point; when no screen contains the whole box, every covered pixel is written exactly once, from the lowest-numbered screen that contains it, and no bit outside the box changes |
| `Stitch.SourceContains` | Xext/panoramiX.c:1170-1197 | the source of a pixel contains it, and a pixel has no source exactly if no screen contains it |
| `Stitch.FirstOwner` | Xext/panoramiX.c:1170-1197 | the lowest-numbered screen that contains a point |
| `Stitch.Container` | Xext/panoramiX.c:1183-1197 | the lowest-numbered screen that contains the whole box |
| `Stitch.PadIsLeast` | Xext/panoramiX.c:1206-1207 | the pitch is the least multiple of four bytes that holds a row |
| `Banding.SendImage` | Xext/panoramiXprocs.c:2061-2076 | the band loop sends each row once and in order, and every pixel is what a screen that contains it shows |
| `Banding.ShowsMore` | Xext/panoramiXprocs.c:2073-2074 | a band appended to the rows already sent is the image of both |
| `Banding.BandsAreTheWhole` | Xext/panoramiXprocs.c:2061-2098 | where overlapping screens agree, the bands are, pixel for pixel, the image read in one go |
| `Banding.LinesPerBuf` | Xext/panoramiXprocs.c:2046-2054 | bands have at least one row, no more than the image, fit the buffer, and would not with one row more |
| `Banding.PlaneOrderDescends` | Xext/panoramiXprocs.c:2079-2080 | the plane loop visits each plane of the mask below the depth once, highest first |
| `Banding.PlaneCount` | Xext/panoramiXprocs.c:2038-2041 | it visits as many planes as the population count that the reply was announced with |
| `Banding.AnnouncedFits` | Xext/panoramiXprocs.c:2044 | for any size a request can name the announced length is not cut off by its 32 bits |
| `Banding.SendPlanes` | Xext/panoramiXprocs.c:2078-2098 | an image for each plane of the mask, in that order |
| `Banding.GetImage` | Xext/panoramiXprocs.c:2031-2098 | the bytes sent are 4 times the announced length; each pixel is the one asked for, of the root or of the window, in one piece or plane by plane, highest plane first |
| `Translation.Shift` | Xext/panoramiXprocs.c:1411-1425 | the loop takes the origin from the first point, or from all, as the mode wants |
| `Translation.ShiftedIsMoved` | Xext/panoramiXprocs.c:1415-1424 | shifting only the first point in Previous mode, or all in Origin mode, moves every absolute position by the origin modulo 2^16 |
| `Translation.PlusMinus` | Xext/panoramiXprocs.c:1411-1425 | sums and differences of points are those of their coordinates modulo 2^16, and each takes back what the other does |
| `Translation.Replay` | Xext/panoramiXprocs.c:1400-1433 | every screen gets the client's positions less its own origin, taken from every point in Origin mode and from the first in Previous mode, whatever the handlers before did to the buffer; the replay stops at the first refusal |
| `Bigfont.HeadLinks` | Xext/xf86bigfont.c:485-486 | the head of a chain is the last entry of its slot |
| `Bigfont.NextLinks` | Xext/xf86bigfont.c:485-486 | every link leads to the last earlier entry of the same slot, so chains strictly decrease and pass none by |
| `Bigfont.Search` | Xext/xf86bigfont.c:483-495 | the search finds the entry equal to the metric if there is one, and the sentinel if and only if there is none |
| `Bigfont.Rehash` | Xext/xf86bigfont.c:508-519 | rebuilding in place chains the same entries under the new modulus |
| `Bigfont.MakeRoom` | Xext/xf86bigfont.c:500-522 | before a new entry the table is rebuilt if it would be more than half full, unless it has all the room there is |
| `Bigfont.PlaceMetric` | Xext/xf86bigfont.c:481-529 | each round extends the compression by one metric and keeps the chains, up to 0x10000 metrics |
| `Bigfont.RemoveDuplicates` | Xext/xf86bigfont.c:453-530 | the index leads every metric to an equal unique one, and the unique ones are the first occurrences in order, within the 4n + 1 elements |
| `Bigfont.UniqueTableIsDistinct` | Xext/xf86bigfont.c:497-528 | the unique table can only be the different metrics in the order of their first occurrence |
| `Bigfont.UniqueEntriesDiffer` | Xext/xf86bigfont.c:497-528 | no two unique entries are equal |
| `Bigfont.ExpandInverts` | Xext/xf86bigfont.c:607-624 | looking the indices up in the unique table gives the metrics back |
| `Bigfont.AssembleReply` | Xext/xf86bigfont.c:607-624 | the reply holds the distinct metrics and indices that expand to all of them, in just the length reserved, which is padded to four bytes |
| `HashTable.HashTable.Find` | Xext/hashtable.c:192-205 | lookup in the map that the table stands for |
| `HashTable.HashTable.Remove` | Xext/hashtable.c:173-189 | the map without the key; buckets, count and load stay in order |
| `HashTable.HashTable.Add` | Xext/hashtable.c:127-170 | the map with the key, or, without memory, the very table there was before; elements never exceed 4 * 2^bits below the largest size |
| `HashTable.HashTable.DoubleSize` | Xext/hashtable.c:93-124 | doubling keeps the map and the number of elements and puts every entry in the bucket of its hash at the new width |
| `HashTable.MoveNode` | Xext/hashtable.c:107-114 | moving one node keeps every key in exactly one of the two tables |
| `XRes.Context.AddSubResource` | Xext/xres.c:674-721 | a visit adds a cross reference for an object not seen before, or one use to the one it has |
| `XRes.VisitedCounted` | Xext/xres.c:682-718 | every object visited has one reference, which describes it as its first visit did and counts its visits; the counts add up to all visits, and there are no other references |
| `XRes.Context.AddResource` | Xext/xres.c:739-797 | a resource not in the reply adds one value with its references and sizes, one that is adds nothing, and the reply stays in order; it fails only where an allocation does |
| `XRes.ReplyIsWellFormed` | Xext/xres.c:951-997 | the reply is values, each followed by the references it announces, and the header's count and bytes are those of the list |
| `XRes.ReplyGrows` | Xext/xres.c:739-797 | adding a resource keeps byte count, value count and distinct ids |
| `XRes.SwapResponse` | Xext/xres.c:642-657 | every fragment is swapped exactly once, found by the counts as they were before swapping |
| `XRes.SwapsWords` | Xext/xres.c:616-638 | each of the five or six words of a fragment is swapped, and they are all its bytes |
| `XRes.Bytes4` | Xext/xres.c:616-638 | swapping puts the four bytes of a word in reverse order |
| `XRes.SwaplInverse` | Xext/xres.c:616-638 | swapping a number twice gives it back |
| `XvPorts.StepInv` | Xext/xvmain.c:514-559 | after any request the events replay to the port's drawable and active video on a held port is the holder's, if and only if the driver kept the drawable it was asked for again |
| `XvPorts.RunInv` | Xext/xvmain.c:342-946 | the same over any run, with time and the event log only growing |
| `XvPorts.NotificationsTellAll` | Xext/xvmain.c:342-946 | from the start of the server, replaying Started, Stopped and Preempted gives the drawable shown |
| `XvPorts.GrabProtects` | Xext/xvmain.c:529-536 | while a client holds a port, any number of requests of others changes nothing but the events |
| `XvPorts.GoneReleases` | Xext/xvmain.c:714-759 | a client that goes away leaves the port free with its video as it is, or as it was if it did not hold it |
| `XvPorts.XvPort.PutVideo` | Xext/xvmain.c:514-559 | refusals by size and by grab; otherwise the drawable the driver leaves is shown and the events tell what has ended and what has started; they go on telling what is shown if and only if a driver asked for the drawable it shows keeps to it |
| `XvPorts.XvPort.PutStill` | Xext/xvmain.c:562-594 | a still picture leaves the video, its client and the holder alone, and the events go on telling what is shown |
| `XvPorts.XvPort.StopVideo` | Xext/xvmain.c:917-946 | the events then tell that nothing is shown if it was the drawable named and not protected by another's grab, and otherwise what was shown before; which of Stopped and Busy is sent |
| `XvPorts.XvPort.GrabPort` | Xext/xvmain.c:714-759 | result, status and holder, by the old holder and the times; once granted the grabber's own video goes on and another's is stopped and told to be; refused, nothing changes |
| `XvPorts.XvPort.UngrabPort` | Xext/xvmain.c:762-787 | only the holder, and only with a valid time, gives the port up, with its video as it is; any client may then grab it at the server's time and at no earlier one |
| `XvPorts.StopAdaptors` | Xext/xvmain.c:342-368 | no port of any adaptor shows a destroyed drawable, and the others are as they were |
| `SaverAttributes.SetAttributes` | Xext/saver.c:753-1054 | succeeds if and only if every word is acceptable; the kept mask's k-th lowest bit has the k-th value, held objects are referenced once, a failure is that of the lowest bit refused and releases everything |
| `SaverAttributes.ReadBit` | Xext/saver.c:873-1032 | one turn of the switch extends what has been read by one bit, or leaves everything as it was |
| `SaverAttributes.AcceptedWords` | Xext/saver.c:873-1032 | exactly which words are accepted, bit by bit |
| `SaverAttributes.WordsKept` | Xext/saver.c:873-1032 | which accepted words are held as objects, and which value is kept of the others |
| `SaverAttributes.WordsRefused` | Xext/saver.c:873-1032 | the error and the error value of a word that is not |
| `SaverAttributes.Kept` | Xext/saver.c:862-1032 | the mask kept is that of the request without the bits held as objects, and override-redirect, always on; each bit has the value of its own word |
| `SaverAttributes.NextWord` | Xext/saver.c:868-872 | the word for the next bit is the next one of the list, all the way to its end; an absent override-redirect bit takes none |
| `SaverAttributes.RankIncreases` | Xext/saver.c:868-872 | different bits take different words |
| `SaverAttributes.FreeAttrs` | Xext/saver.c:278-289 | the references held are given up |
| `Authorizations.ComputeTimeout` | Xext/security.c:263-279 | a delay and the seconds it leaves make up the whole timeout |
| `Authorizations.DelaysSum` | Xext/security.c:263-315 | for any 32-bit timeout the delays fit 32 bits, are positive, end, and add up to exactly 1000 times the seconds |
| `Authorizations.StepInv` | Xext/security.c:942-992 | the reference count is the number of live clients, a timer is set only while it is 0, and an unused authorization with a timeout always has its timer set |
| `Authorizations.RunInv` | Xext/security.c:942-992 | so over any run |
| `Authorizations.InUseSurvives` | Xext/security.c:942-992 | in any run an authorization stays as long as a client of it does, unless it is revoked |
| `Authorizations.ExpiresOnTime` | Xext/security.c:301-315 | an authorization expires exactly when its timer has run for its whole timeout, and then nobody uses it |
| `Authorizations.UnusedExpires` | Xext/security.c:331-337 | one that nobody uses is waiting to expire, unless its timeout is 0 |
| `Authorizations.RevokeCloses` | Xext/security.c:174-224 | revoking removes the authorization and exactly its clients that are not retained, and changes no other record |
| `Authorizations.ComesAndGoes` | Xext/security.c:942-992 | a client that connects has no authorization yet, and one that goes away is no user of any |
| `Authorizations.StepKeepsTimeout` | Xext/security.c:942-992 | no event changes a timeout |
| `Authorizations.SecurityServer.ClientIsRunning` | Xext/security.c:958-973 | the client is one more user of its authorization, of which the timer is not set, and the users and records of others are the same |
| `Authorizations.SecurityServer.ClientIsLeaving` | Xext/security.c:975-987 | the client is no user any more, the other users and records are the same, and the timer of an authorization left without users is set |
| `Authorizations.SecurityServer.AuthorizationExpired` | Xext/security.c:301-315 | while seconds remain the timer is set again and nothing else changes; when none do the authorization is gone with exactly its clients that are not retained |
| `Authorizations.SecurityServer.DeleteAuthorization` | Xext/security.c:174-224 | a client stays if and only if it is not one of the authorization or is retained; the clients kept and the other authorizations are unchanged |
| `Authorizations.SecurityServer.GenerateAuthorization` | Xext/security.c:506-535 | a new authorization has no users and the timeout asked for, and waits for the whole of it unless that is 0 |
| `ShmSegments.Shm.DetachSegment` | Xext/shm.c:433-453 | a descriptor is on the list if and only if it has references left |
| `ShmSegments.Shm.Attach` | Xext/shm.c:374-430 | a segment on the list is shared, and refused only to those who would write where the server cannot; another is mapped and put at the head of the list with its size and access, or fails as the mapping or the resource database does; a failure changes nothing |
| `ShmSegments.Shm.AttachFd` | Xext/shm.c:1148-1206 | a descriptor of its own for every file, at the head of the list with its size and access, or no change, with the error of whichever refused |
| `ShmSegments.Shm.FreeSegment` | Xext/shm.c:433-466 | one name less, and the list without the descriptor if it was the last |
| `ShmSegments.Shm.CreatePixmap` | Xext/shm.c:1108-1130 | a pixmap is one more name of its segment; one that the driver, the access hook or the resource database refuses leaves everything as it was, with the error of whichever refused |
| `ShmSegments.Shm.DestroyPixmap` | Xext/shm.c:251-270 | the pixmap's last user gives up its segment, others only their own reference |

## Left out

- Objects of SYNC are records in maps of one server object, named by their identifiers; a trigger is named by its alarm or by its await and position. Pointer identity beyond that is not modelled.
- Fences, the priority requests, and the unpacking of value lists and masks from the wire (masks are given as options).
- `checked_int64_add` and `checked_int64_subtract` are not part of this model: they are taken to wrap around and to report overflow.
- In a legal run one Await names each counter at most once, and a ChangeAlarm keeps the alarm invariant; the exact conditions behind both are proved.
- Allocation in SYNC succeeds; elsewhere it is an outcome where the property is about failure, and succeeds otherwise (the scratch memory of the image stitching, the copy of the points).
- SyncBrackets.BracketsSound: speaks of the values between two computations of the brackets; SyncMissed follows the computations over a run of readings.
- SyncShortcut.ShortcutInRuns: compares the two ways of checking over the readings after a run. Side by side through requests they need not agree (SyncLapses.OldValueReported).
- The block handlers of SYNC (Xext/sync.c:2542-2557, 2639-2715), which only choose a timeout.
- The real timer manager, clocks and the scheduler: a timer goes off at any time after it is set, and a client has an ignore count.
- The resource database and the access checks; resources are maps, and a failure to add one calls the delete function.
- Region arithmetic is on sets of points; how a region is cut into disjoint boxes is a parameter, and so are the pixels that a screen's GetImage returns. The 16-bit limits of box coordinates are not modelled.
- Stitch.GetImageData: 2 and 4 bits per pixel, which the original excludes too, and sign extension of plain `char`; bytes are unsigned and bits in little-endian order.
- The refusals at the start of GetImage (realized, on screen, inside the border).
- PolySegment, PolyRectangle, PolyArc and the other replayed requests, which shift every item as PolyPoint does in Origin mode.
- BIGFONT's shared memory path and the layout of the rest of its reply.
- `ht_add` of a key that is already in the table, which its client never does, and the hash functions themselves.
- XRes: the callbacks that find resources and subresources are the sequence of visits they make.
- Xv: selection lists and delivery of events, adaptor and encoding tables, port attributes.
- Screen saver: the checks before the value list, windows, colormaps, and the replacement of an earlier attribute record.
- Authorizations: their events and groups, and the reuse of their identifiers.
- SHM: images, mapping and permissions (an outcome), busfaults, and segments created by the server, which are attached as files are.
- Byte swapping and dispatch, except where the swapping walks a structure (XRes).
