# Cogment: verified models of the trial engine, the actor rendezvous and the trial datastore

This project models the stateful cores of Cogment in Dafny and proves what each of them is for.

- **Trial engine** (`TimeoutRunner`, `TrialEngine` and the other `Trial*` files, `TimeoutRunnerClass`, `TrialClass`, `Watchers`).
  A trial of the orchestrator runs ticks, gathers one action per actor under individual timeouts, dispatches one action set
  per tick, attaches late rewards to buffered samples, and ships samples to a log through a bounded buffer.  Each entry point
  is one atomic step of a transition system; the action thread and the runner's thread are steps of their own.
- **Actor rendezvous** (`ActorTrial`, `Rendezvous`, `RendezvousOutcomes`, `Observable`).  An orchestrator stream and any number of HTTP requests
  meet on one shared actor trial.  Every call into the shared state and every look into the manager's list is a step.
- **Trial datastore** (`MemoryStore`, `MemoryLog`, `MemoryScenes`, `BoltKeys`, `BoltStore`, `BoltEffects`, `TrialPages`, `PagingRefinement`, `ObservableList`,
  `DatalogConversion`, `DatalogServer`, `StoredSamples`, `SampleFilter`).  Two backends, their paging, the observable list, the
  conversion of logged samples and the sample filter.
- **Codecs** (`TrialFile`, `Properties`, `PropertyParts`).  The trial samples file and the property string.

Each stateful component is specified by functions on values, and its runs by lists of steps.  The classes and methods
that change state in place are tied to those functions by their contracts, so what is proved of the runs holds of them.
Histories (accepted events, observations, actions and samples, calls made, states held) are recorded in fields that no step reads;
they are the abstract side of the theorems.

Where the theorems need something of the callers it is in their `requires` or in the `Enabled` predicate of the system:
actor names are distinct; one stream calls for a trial and actor name, which is not used again once its actor trial was
removed; no deleted trial is created again in the paging theorems; trial names are not empty there, because the bolt
store refuses a bucket without a name.

## What the code does that its comments do not say

- The memory store's eviction list is described as ordered from least to most recently used, yet a new trial is put at its
  front: until it is used it is the next to be evicted once ended (`ListOrder`, `YoungerIsNext`).
- `evictLruTrials` returns what its last turn reclaimed, not the total its caller reports (`ReturnsTheTotalExactly`,
  `ReturnsLessThanTheTotal`).
- A deleted trial of the memory store stays deleted when it is created again, and adding a sample to it crashes; the bolt
  store creates it anew (`CreatedUnlessDeleted`, `RecreationPartsTheStores`).
- The next index of an empty page of the memory store is 0 (`EmptyMemoryPageRestarts`).
- The bolt store's sample count is kept right past 2^31 only if the scan that replaces it is (`CountIsKeptExactly`).
- A part of a message length written before a failure is missing from the writer's byte counter (`WritingIsExact`).
- A file cut right after the length of a message ends like a complete one for its reader (`TruncatedSamples`).
- An item appended to an ended list is not sent to an observer that has returned (`NilIsCompleteExactly`,
  `AppendAfterLastIsLost`).
- An actor that answers after its own timeout is counted twice, and one that leaves after answering stays counted; in both
  cases the actions of a tick may be sent while another actor is still awaited (`CountTestIsExact`,
  `LateAnswerPassesEarly`, `LeavingAfterAnsweringPassesEarly`).

## Model

| member | source | states |
|---|---|---|
| TimeoutRunning.CountsExactly | packages/orchestrator/lib/cogment/utils.cpp:603-719 | each step of a round keeps the exact count: entries at or beyond the running size counted once, those below it exactly when signalled; the runner's thread calls the term function only when every timed entry is counted |
| TimeoutRunning.EveryRoundCountsExactly | packages/orchestrator/lib/cogment/utils.cpp:603-719 | over every round: no id is counted twice; an uncounted entry never has a longer timeout than the one the timer is armed for, which is itself uncounted; no entry remains exactly when all are counted |
| TimeoutRunning.StartEntries | packages/orchestrator/lib/cogment/utils.cpp:603-642 | a round starts with exactly the entries not removed, unanswered, shortest first, each id once, whatever order the sort gives to equal timeouts |
| TimeoutRunning.SignalChanges | packages/orchestrator/lib/cogment/utils.cpp:649-680 | a signal marks the entry of its id only, only signalled entries leave the round, and the term function is called exactly when no entry of the round has the id |
| TimeoutRunning.UnansweredDistinct | packages/orchestrator/lib/cogment/utils.cpp:707-714 | a timeout counts each unanswered entry once |
| TimeoutRunnerObject.TimeoutRunner.Start | packages/orchestrator/lib/cogment/utils.cpp:603-642 | the loops that erase, sort and clear compute a round start that the specification allows |
| TimeoutRunnerObject.TimeoutRunner.Signal | packages/orchestrator/lib/cogment/utils.cpp:649-680 | new state, ids counted and term call are those of the specification |
| TimeoutRunnerObject.TimeoutRunner.EndWaiting | packages/orchestrator/lib/cogment/utils.cpp:682-719 | new state, ids counted and term call of a wake-up or a timeout are those of the specification |
| TrialObject.LiveTrial.constructor | packages/orchestrator/lib/cogment/trial.cpp:536-562 | the trial as it starts: pending, one empty sample, its timeouts added in actor order |
| TrialObject.LiveTrial.SetState | packages/orchestrator/lib/cogment/trial.cpp:1348-1407 | which state switches are accepted, any of them to the end, and that the end flushes the samples |
| TrialObject.LiveTrial.FlushSamples | packages/orchestrator/lib/cogment/trial.cpp:266-281 | the last sample gets its state, all go to the log in order, none stays |
| TrialObject.LiveTrial.MakeNewSample | packages/orchestrator/lib/cogment/trial.cpp:239-264 | the previous sample is closed and the new one has an empty slot per actor |
| TrialObject.LiveTrial.NewObs | packages/orchestrator/lib/cogment/trial.cpp:175-206 | observations are stored in the current sample exactly when their tick is automatic or current |
| TrialObject.LiveTrial.BalanceSampleBuffer | packages/orchestrator/lib/cogment/trial.cpp:867-882 | overflow goes to the log in order until one less than the limit is left |
| TrialObject.LiveTrial.EnvObserved | packages/orchestrator/lib/cogment/trial.cpp:1100-1146 | the verdict on the observations and the whole new state, for some round order that the sort may give |
| TrialObject.LiveTrial.ActorActed | packages/orchestrator/lib/cogment/trial.cpp:1148-1196 | the whole new state, for an accepted, repeated, late or misdirected action |
| TrialObject.LiveTrial.MakeActionSet | packages/orchestrator/lib/cogment/trial.cpp:884-929 | contents, unavailable actors and the lists noted in the sample, or the failure, as collected slot by slot |
| TrialObject.LiveTrial.ProcessActions | packages/orchestrator/lib/cogment/trial.cpp:1198-1257 | the whole new state, with the last dispatch, the failure and the spurious calls |
| TrialObject.LiveTrial.Terminate | packages/orchestrator/lib/cogment/trial.cpp:1055-1098 | the trial ends whatever its state, once |
| TrialObject.LiveTrial.ActorDisengaging | packages/orchestrator/lib/cogment/trial.cpp:1260-1290 | the slot is emptied, the timeout removed, the number of available actors lowered and the signal raised |
| TrialObject.LiveTrial.FindBuffered | packages/orchestrator/lib/cogment/trial.cpp:690-724 | the direct lookup and the reverse search find the sample of the specification |
| TrialObject.LiveTrial.RewardReceived | packages/orchestrator/lib/cogment/trial.cpp:648-751 | the whole new state: ignored, into a buffered sample, or logged out of sync |
| TrialConservation.EveryTickOnceInOrder | packages/orchestrator/lib/cogment/trial.cpp:164-281 | in every reachable state the in-sync ticks logged followed by those buffered are exactly 0, 1, .., current tick; at the end all are logged |
| TrialConservation.OnlyTheLastSampleIsEnded | packages/orchestrator/lib/cogment/trial.cpp:266-281 | a logged sample is marked ENDED exactly when the trial has ended and it is the very last one logged |
| TrialConservation.BufferBound | packages/orchestrator/lib/cogment/trial.cpp:867-882 | every accepted observation that is not the last leaves between 1 and the limit less one samples buffered |
| TrialConservation.EndedIsFinal | packages/orchestrator/lib/cogment/trial.cpp:1348-1407 | once ended, no step changes the state, the log or the tick |
| TrialConservation.OnlyForward | packages/orchestrator/lib/cogment/trial.cpp:1100-1257 | state and tick never go back, and what has been logged or dispatched stays |
| TrialConservation.NextKeepsConserved | packages/orchestrator/lib/cogment/trial.cpp:164-281 | every step keeps the conservation invariant |
| TrialRewards.DirectLookupAgrees | packages/orchestrator/lib/cogment/trial.cpp:690-724 | on consecutive ticks the direct lookup succeeds exactly when the reverse search would, and finds the same sample |
| TrialRewards.BufferIsConsecutive | packages/orchestrator/lib/cogment/trial.cpp:239-281 | buffered samples always have consecutive ticks ending with the current one |
| TrialRewards.EveryRewardPlacedOnce | packages/orchestrator/lib/cogment/trial.cpp:648-751 | over every run a reward is held by the samples of a tick, logged or buffered, exactly as often as it was accepted for that tick |
| TrialRewards.AcceptedRewards | packages/orchestrator/lib/cogment/trial.cpp:648-693 | a reward is accepted exactly before the end, with the automatic tick or one from 0 to the current |
| TrialRewards.RewardDestination | packages/orchestrator/lib/cogment/trial.cpp:690-751 | an accepted reward goes into the one buffered sample of its tick, or out of sync exactly when that sample is already logged |
| TrialActions.OneSlotPerActor | packages/orchestrator/lib/cogment/trial.cpp:239-264 | the current sample has one slot per actor, empty or with an action that is for this tick |
| TrialActions.StandingIsFirst | packages/orchestrator/lib/cogment/trial.cpp:1180-1190 | the action that stands for an actor is the first one offered since the tick began or the actor was last reset |
| TrialActions.CollectCorrect | packages/orchestrator/lib/cogment/trial.cpp:884-929 | the collected contents and lists are those defined actor by actor from the standing actions |
| TrialActions.MissingActorsAreExact | packages/orchestrator/lib/cogment/trial.cpp:897-919 | the lists of missing actors hold exactly those without a standing action, in order, split by whether they have a default |
| TrialActions.DispatchIsExact | packages/orchestrator/lib/cogment/trial.cpp:1198-1257 | every action set sent has one entry per actor in order, the first standing action, else the default, else nothing; its lists are exact; no required actor is missing |
| TrialActions.DispatchesAreOrdered | packages/orchestrator/lib/cogment/trial.cpp:1198-1257 | dispatched ticks strictly increase, and once a dispatch is flagged last all later ones are |
| TrialDispatch.NoLostDispatch | packages/orchestrator/lib/cogment/utils.cpp:649-719 | whenever enough actors are counted and the tick is not dispatched: the signal is raised or being processed, or the runner is about to be woken on an empty round, or an entry remains with its timer armed or about to be |
| TrialDispatch.DueIsNeverStuck | packages/orchestrator/lib/cogment/utils.h:332-366 | while a dispatch is due the two internal threads are never both blocked |
| TrialDispatch.InternalStepsSettle | packages/orchestrator/lib/cogment/trial.cpp:109-135 | a due dispatch happens, or the trial ends, before the threads' patience runs out, whatever their order |
| TrialDispatch.DueIsDispatched | packages/orchestrator/lib/cogment/trial.cpp:1198-1257 | within 19 steps of the two internal threads, over every reachable state, a due dispatch has happened, or the trial has ended, which it does exactly when a required actor is missing |
| TrialDispatch.DueIsSent | packages/orchestrator/lib/cogment/trial.cpp:1198-1257 | in every reachable state before the end where no set was sent for the tick and enough actors are counted, processing sends exactly one set of the tick, flagged last exactly when the steps are used up or the end was requested, and does not end the trial; it ends the trial instead when a required actor is missing, or when the end is due before the trial runs; in every other state it sends nothing and ends nothing |
| TrialDispatch.EndsOnlyBy | packages/orchestrator/lib/cogment/trial.cpp:1055-1257 | the trial ends only by a termination, by the end that the environment asked for, or by a dispatch that is not possible; the end is requested only by a request |
| TrialContents.SamplesHoldTheirTicks | packages/orchestrator/lib/cogment/trial.cpp:164-281 | over every run each in-sync sample, logged or buffered, holds the observation accepted for its tick (none if none was), for each actor the action that stands for the tick, the missing actors as they were when the actions of the tick were collected, and the state the tick was left in |
| TrialContents.NextKeepsContents | packages/orchestrator/lib/cogment/trial.cpp:239-281 | every step keeps what the samples hold |
| TrialContents.ObservationIsTaken | packages/orchestrator/lib/cogment/trial.cpp:1100-1146 | which observations are accepted, before the trial runs and while it does, and what becomes of the tick, the state, the end and the round, accepted or not |
| TrialContents.ActionIsTaken | packages/orchestrator/lib/cogment/trial.cpp:1148-1196 | which actions are accepted, and which are counted and signalled to the runner |
| TrialContents.StrangerIsIgnored | packages/orchestrator/lib/cogment/trial.cpp:1165-1169 | an action of a name that no actor has changes nothing |
| TrialContents.DepartureIsTaken | packages/orchestrator/lib/cogment/trial.cpp:1260-1290 | which departures are taken into account, and what they change |
| TrialEngine.StartIs | packages/orchestrator/lib/cogment/trial.cpp:536-575 | how a trial starts: buffer and step limits with their defaults, a timer for exactly the actors with a timeout |
| TrialCounting.CountTestIsExact | packages/orchestrator/lib/cogment/trial.cpp:1198-1204 | in every reachable state the count test passes exactly when no more actors are awaited than there are spare counts; so it passes with an actor awaited exactly when there are between one and that many, and is right when no actor was counted twice and none that was counted has left |
| TrialCounting.SpareCounts | packages/orchestrator/lib/cogment/trial.cpp:1198-1204 | the spare counts are the repeated ones and those of actors that have left; there is none exactly when no actor was counted twice and none that was counted has left |
| TrialCounting.CountWithoutDeparture | packages/orchestrator/lib/cogment/utils.cpp:649-719 | in a started round that no actor has left, the spare counts are of actors that both answered and timed out, and of actors that answered after leaving in an earlier tick |
| TrialCounting.LateAnswerPassesEarly | packages/orchestrator/lib/cogment/utils.cpp:665-670 | an actor that answers after its own timeout is counted again: a reachable state, in a round nobody has left, where the test passes with an actor awaited |
| TrialCounting.LeavingAfterAnsweringPassesEarly | packages/orchestrator/lib/cogment/trial.cpp:1279-1284 | an actor that leaves after answering lowers the number awaited but not the count: a reachable state where the test passes with an actor awaited and no actor counted twice |
| TrialCounting.NextKeepsCounts | packages/orchestrator/lib/cogment/trial.cpp:1148-1290 | every step keeps the number compared equal to the number of times an actor was counted during the tick, and the number of available actors equal to those that have not left |
| TrialCounting.NextKeepsTally | packages/orchestrator/lib/cogment/utils.cpp:649-719 | every step keeps the counted actors equal to those that answered or timed out, each counted once for each in ticks without a departure |
| Watchers.WatchersMissNothing | packages/orchestrator/lib/cogment/orchestrator.cpp:345-378 | over every interleaving of writes, notifications and subscriptions: for each trial registered when a watcher subscribed, what it is shown starts with a state that was current between the beginning and the end of its subscription, never goes back, skips no state held since, and ends with the current state when no write awaits its notification |
| Watchers.SubscriptionIsComplete | packages/orchestrator/lib/cogment/orchestrator.cpp:345-363 | a subscription reports every trial registered with its current state, drops a handler that answers false, and keeps one that never does |
| Watchers.NextKeepsSpans | packages/orchestrator/lib/cogment/orchestrator.cpp:345-363 | every step keeps what a subscriber was shown first within its subscription |
| Watchers.StatesOnlyMoveForward | packages/orchestrator/lib/cogment/trial.cpp:1348-1407 | over every run a trial's states strictly advance and nothing follows the end |
| Watchers.NextKeepsInv | packages/orchestrator/lib/cogment/orchestrator.cpp:345-378 | every step keeps what each watcher follows |
| Watchers.NotifiedAreShown | packages/orchestrator/lib/cogment/orchestrator.cpp:365-378 | the watchers left are exactly those whose handler answered true, each shown the state |
| Watchers.TrialWatchers.NotifyWatchers | packages/orchestrator/lib/cogment/orchestrator.cpp:365-378 | the erasing loop calls every watcher once, in order, and removes exactly those that answer false |
| Watchers.TrialWatchers.WatchTrials | packages/orchestrator/lib/cogment/orchestrator.cpp:345-363 | a handler is added exactly when it answered true for every trial reported |
| ActorTrials.ActorTrial.Start | packages/cli/services/proxy/actor/trial.go:137-157 | started only from joined; the whole new state, unchanged when refused |
| ActorTrials.ActorTrial.Join | packages/cli/services/proxy/actor/trial.go:159-172 | joined only from started; the whole new state, unchanged when refused |
| ActorTrials.ActorTrial.Leave | packages/cli/services/proxy/actor/trial.go:174-187 | left only before the end; the whole new state, unchanged when refused |
| ActorTrials.ActorTrial.SendEvent | packages/cli/services/proxy/actor/trial.go:189-206 | an action is accepted exactly when one is awaited and its tick is the current one; the whole new state, unchanged when refused |
| ActorTrials.ActorTrial.ReceiveEvent | packages/cli/services/proxy/actor/trial.go:208-225 | an event is accepted exactly when one is awaited and its tick is not in the past; the whole new state, unchanged when refused |
| ActorTrials.ActorTrial.End | packages/cli/services/proxy/actor/trial.go:227-245 | the end is accepted exactly once, not in the past; the whole new state, unchanged when refused |
| ActorTrials.ActorTrial.TickID | packages/cli/services/proxy/actor/trial.go:123-129 | the later of the last received and the last sent tick |
| ActorTrials.Manager.GetTrial | packages/cli/services/proxy/actor/actor.go:46-55 | the one actor trial of the key, or none |
| ActorTrials.Manager.AddTrialIfNeeded | packages/cli/services/proxy/actor/actor.go:57-73 | a new actor trial is added exactly when the key has none, which keeps keys unique |
| ActorTrials.Manager.RemoveTrial | packages/cli/services/proxy/actor/actor.go:75-89 | the swap-and-pop loop removes exactly the actor trial of the key |
| ActorTrials.Manager.LeaveAllTrials | packages/cli/services/proxy/actor/actor.go:91-98 | every actor trial of the list is left |
| ActorTrials.Manager.LeaveTrial | packages/cli/services/proxy/actor/actor.go:398-411 | only the actor trial of the key is left; it succeeds exactly when there is one that can be left |
| ActorTrials.Manager.EndTrial | packages/cli/services/proxy/actor/actor.go:414-431 | only the actor trial of the key is ended; it succeeds exactly when there is one that accepts the end |
| Rendezvous.RequestActIsAnswered | packages/cli/services/proxy/actor/actor.go:351-395 | over every interleaving: a successful RequestAct returns the action accepted right after its event, for exactly its tick |
| Rendezvous.ActIsAnswered | packages/cli/services/proxy/actor/actor.go:292-347 | over every interleaving: an Act whose event was accepted returns an event received after it, for its tick or a later one |
| Rendezvous.LateActGetsTheEnd | packages/cli/services/proxy/actor/actor.go:304-312 | an Act on an ended trial is not accepted and returns the event that ended it |
| Rendezvous.JoinGetsAnObservation | packages/cli/services/proxy/actor/actor.go:165-220 | a successful join returns an event that was received |
| Rendezvous.EventsAlternate | packages/cli/services/proxy/actor/trial.go:123-245 | accepted events strictly alternate, an action has its observation's tick, ticks never go back, the last action never outruns the last observation |
| Rendezvous.FinalIsAbsorbing | packages/cli/services/proxy/actor/trial.go:174-245 | once left or ended the actor trial never changes and accepts nothing |
| Rendezvous.NextKeepsInv | packages/cli/services/proxy/actor/actor.go:292-395 | every step keeps what each request, the stream and the shared actor trial rely on |
| Rendezvous.TicksOfActor | packages/cli/services/proxy/actor/trial.go:123-129 | the last sent tick is never beyond the last received one, and no accepted tick beyond the current one |
| RendezvousOutcomes.ReceiveIsAccepted | packages/cli/services/proxy/actor/trial.go:208-225 | in every reachable state an event is accepted exactly when the actor trial was started and joined, neither left nor ended, the last event accepted is not a received one, and none has a later tick |
| RendezvousOutcomes.SendIsAccepted | packages/cli/services/proxy/actor/trial.go:189-206 | an action is accepted exactly when the actor trial is under way, the last event accepted is a received one, and the action has its tick |
| RendezvousOutcomes.EndIsAccepted | packages/cli/services/proxy/actor/trial.go:227-245 | the end is accepted exactly when the actor trial was neither left nor ended, and no accepted event has a later tick |
| RendezvousOutcomes.NextKeepsHistory | packages/cli/services/proxy/actor/trial.go:137-245 | every step keeps the status that the calls made and the events accepted determine |
| RendezvousOutcomes.RequestGoes | packages/cli/services/proxy/actor/actor.go:165-347 | where each call of the actor goes from a look or a test, told from the calls and events so far |
| RendezvousOutcomes.ReplyIsLastReceived | packages/cli/services/proxy/actor/actor.go:292-347 | what the actor is answered is the last event received, and a trial found ended is taken out of the list |
| RendezvousOutcomes.StreamGoes | packages/cli/services/proxy/actor/actor.go:229-395 | where each call of the orchestrator goes, told from the calls and events so far |
| RendezvousOutcomes.CallsAreRecorded | packages/cli/services/proxy/actor/actor.go:165-431 | which steps make a call on the actor trial, list it, or take it out of the list |
| RendezvousOutcomes.RequestReturns | packages/cli/services/proxy/actor/actor.go:351-395 | a request whose test passed returns the action accepted right after its event |
| RendezvousOutcomes.EveryCallCanSucceed | packages/cli/services/proxy/actor/actor.go:165-395 | for any event, action of its tick and next event not in the past: a run in which the join, the request for an action and the actor's call all return |
| Observables.NextKeepsInformed | packages/cli/utils/observable.go:35-74 | every step keeps that an observer lacks no token for a mutation it may have missed |
| Observables.NoTokenMeansUpToDate | packages/cli/utils/observable.go:35-74 | an observer without a token looked after every mutation whose emission is complete |
| ObservableObjects.Observable.Emit | packages/cli/utils/observable.go:68-74 | every observer gets exactly one more token, whatever the iteration order |
| WaitForTrial.NoLostWakeUp | packages/cli/services/proxy/actor/actor.go:110-134 | over every interleaving: a waiter blocked without a token tested states no older than the last mutation whose emission is complete; with all emissions complete its test still says to wait on the current state |
| WaitForTrial.TestDecides | packages/cli/services/proxy/actor/actor.go:119-133 | a waiter is blocked by its test exactly when the test says to go on waiting, and a token makes it look again |
| WaitForTrial.NextKeepsInv | packages/cli/services/proxy/actor/actor.go:110-134 | every step keeps the waiters informed |
| WaitForTrial.TestsOfTheRendezvous | packages/cli/services/proxy/actor/actor.go:165-389 | these are the tests by which the calls that act, request, join and start go back to waiting |
| ObservableLists.DeliveryIsContiguous | packages/cli/services/datastore/utils/observableList.go:81-127 | over every interleaving of appends and observers: what was sent is a contiguous run of items from the position asked for |
| ObservableLists.NilMeansComplete | packages/cli/services/datastore/utils/observableList.go:81-127 | without an append after the last item: a nil return means the list is ended and everything from the position on was sent |
| ObservableLists.NilIsCompleteExactly | packages/cli/services/datastore/utils/observableList.go:81-127 | whatever is appended: a nil return means everything was sent up to where the list was last read, so everything there is exactly when nothing was appended since |
| ObservableLists.NoLostItem | packages/cli/services/datastore/utils/observableList.go:72-127 | an observer waiting without a token, once every append is announced, has been sent everything and the list is not ended |
| ObservableLists.LookCanDeliver | packages/cli/services/datastore/utils/observableList.go:95-127 | from every look there is a run without appends in which the observer is sent every item from its position on, and then returns or waits as the list is ended or not |
| ObservableLists.TokenCanDeliver | packages/cli/services/datastore/utils/observableList.go:119-125 | so it does when a token wakes it |
| ObservableLists.CallOnEndedCanDeliver | packages/cli/services/datastore/utils/observableList.go:82-91 | a call on an ended list can be sent everything from its position on, and return |
| ObservableLists.CrashesOnlyBeyondTheEnd | packages/cli/services/datastore/utils/observableList.go:82-91 | without an append after the last item: the index crash needs an ended list and a position beyond its length |
| ObservableLists.CrashesBeyondTheEnd | packages/cli/services/datastore/utils/observableList.go:82-91 | a call on an ended list crashes exactly when the position is beyond the length |
| ObservableLists.AppendAfterLastIsLost | packages/cli/services/datastore/utils/observableList.go:72-79 | an item appended after the last one reopens the list and is never sent to an observer that has returned: such a state is reachable |
| ObservableLists.NextKeepsInv | packages/cli/services/datastore/utils/observableList.go:72-127 | every step keeps each observation right |
| ObservableListObjects.ObservableList.Append | packages/cli/services/datastore/utils/observableList.go:72-79 | the item is appended, the ended flag replaced, every observer given a token |
| ObservableListObjects.ObservableList.ObserveMore | packages/cli/services/datastore/utils/observableList.go:95-116 | one pass sends exactly the unread items and moves the position |
| ObservableListObjects.ObservableList.ObserveEnded | packages/cli/services/datastore/utils/observableList.go:82-91 | on an ended list everything from the position is sent, or the position is beyond the length |
| MemoryStores.AddingTheComplementSubtracts | packages/cli/services/datastore/backend/memory/memory.go:124-124 | adding the complement of x - 1 subtracts x modulo 2^32, for x = 0 too |
| MemoryStores.AccountingIsExact | packages/cli/services/datastore/backend/memory/memory.go:172-216 | after every run: the size is the sum of the stored sizes, each counting the stored bytes, modulo 2^32; the eviction list has no duplicate and holds exactly the trials neither deleted nor evicted |
| MemoryStores.EvictionIsShortest | packages/cli/services/datastore/backend/memory/memory.go:96-142 | after every run eviction takes exactly the shortest prefix of the eviction list, all of ended trials, after which the size fits, the list is empty or the next trial is ongoing; each trial taken stands before each one left in the order of the list. That the code stops there is the contract of EvictLruTrials |
| MemoryStores.ListOrder | packages/cli/services/datastore/backend/memory/memory.go:172-216 | after every run the eviction list holds first the trials never used, the youngest first, then those used, by their last use; it is in the order of last touch exactly when no trial never used was created after another one of the list was last touched |
| MemoryStores.YoungerIsNext | packages/cli/services/datastore/backend/memory/memory.go:189-216 | of two trials created one after the other the younger is the next to be evicted: the list is not in the order of last touch |
| MemoryStores.ApplyKeepsOrder | packages/cli/services/datastore/backend/memory/memory.go:172-383 | every operation keeps the eviction list in that order |
| MemoryStores.DeletedForGood | packages/cli/services/datastore/backend/memory/memory.go:324-340 | a deleted trial stays deleted over every run, also when it is created again |
| MemoryStores.CreatedUnlessDeleted | packages/cli/services/datastore/backend/memory/memory.go:189-216 | after a creation a trial of the batch can be retrieved exactly when it was not deleted before |
| MemoryStores.ApplyKeepsInv | packages/cli/services/datastore/backend/memory/memory.go:172-383 | every operation keeps the accounting and the eviction list right |
| MemoryStores.EvictOneMore | packages/cli/services/datastore/backend/memory/memory.go:115-128 | evicting one more trial of the list changes only what the longer prefix changes |
| MemoryLogs.TrialsAreTheirLog | packages/cli/services/datastore/backend/memory/memory.go:189-383 | over every run: a trial is deleted exactly when a deletion of it was accepted; any other has stored exactly the samples accepted since it was last evicted, in order, is ended exactly when the last of these has state ENDED, and has the count and last state of all its samples and the parameters last given |
| MemoryLogs.EveryOpIsLogged | packages/cli/services/datastore/backend/memory/memory.go:172-383 | what each operation accepts, entry by entry |
| MemoryLogs.AddingTakesAll | packages/cli/services/datastore/backend/memory/memory.go:354-383 | an addition takes every sample of the batch, in order, when all trials are known and not deleted |
| MemoryLogs.AddingTakesNone | packages/cli/services/datastore/backend/memory/memory.go:354-383 | it fails exactly when some trial is unknown, crashes exactly when all are known and one is deleted, and takes no sample when it fails |
| MemoryLogs.OnlyEndedAreEvicted | packages/cli/services/datastore/backend/memory/memory.go:96-142 | eviction takes only trials whose last sample since they were last evicted has state ENDED |
| MemoryLogs.InfoIsOfTheLog | packages/cli/services/datastore/backend/memory/memory.go:238-269 | the information returned with a page is what the accepted samples and parameters make it |
| MemoryLogs.LookUpIsUse | packages/cli/services/datastore/backend/memory/memory.go:172-187 | looking trials up uses those of the eviction list, in order, and nothing else |
| MemoryBackends.MemoryBackend.EvictLruTrials | packages/cli/services/datastore/backend/memory/memory.go:96-142 | the loop terminates at the first prefix of the eviction list where it may stop, having evicted exactly that prefix; it returns what its last turn reclaimed |
| MemoryBackends.MemoryBackend.RetrieveTrialDatas | packages/cli/services/datastore/backend/memory/memory.go:172-187 | the trials before the first unknown one are used in order; it fails exactly when there is one |
| MemoryBackends.MemoryBackend.CreateOrUpdateTrials | packages/cli/services/datastore/backend/memory/memory.go:189-216 | the whole new store, new trials at the front of the eviction list |
| MemoryBackends.MemoryBackend.DeleteTrials | packages/cli/services/datastore/backend/memory/memory.go:324-340 | the whole new store, unknown trials ignored |
| MemoryBackends.MemoryBackend.AddSamples | packages/cli/services/datastore/backend/memory/memory.go:354-383 | the whole new store, or which of the two failures: unknown trial, or the crash on a deleted one |
| MemoryBackends.MemoryBackend.RetrieveTrials | packages/cli/services/datastore/backend/memory/memory.go:238-269 | the page by creation position, its next index, the infos, and which trials were used by it |
| MemoryBackends.MemoryBackend.PageLimit | packages/cli/services/datastore/backend/memory/memory.go:218-236 | the limit put in place of a missing count is never exceeded by the matches |
| MemoryBackends.ReturnsTheTotalExactly | packages/cli/services/datastore/backend/memory/memory.go:96-142 | the amount an eviction returns is the total exactly when nothing was evicted, when all of it was reclaimed by the turn after which the size fits, or when nothing was reclaimed |
| MemoryScenes.ReturnsLessThanTheTotal | packages/cli/services/datastore/backend/memory/memory.go:96-142 | a store some run reaches, from which an eviction reclaims two bytes and returns one |
| BoltKeys.KeyOrder | packages/cli/services/datastore/backend/bolt/bolt.go:105-108 | the keys of 64-bit numbers are ordered byte by byte exactly as the numbers are |
| BoltKeys.KeyDecodes | packages/cli/services/datastore/backend/bolt/bolt.go:105-116 | a key is read back exactly when its number is below 2^31 |
| BoltKeys.SeekFindsTheNumber | packages/cli/services/datastore/backend/bolt/bolt.go:470-477 | a cursor that seeks a key stops at the key of the smallest number not below it |
| BoltStores.StoreIsConsistent | packages/cli/services/datastore/backend/bolt/bolt.go:309-398 | after any transactions: the index bucket is a bijection with the trials' indices, and the cached count is the number of ticks, up to 2^31 of them |
| BoltStores.CountIsKeptExactly | packages/cli/services/datastore/backend/bolt/bolt.go:437-454 | a new tick keeps a right count right exactly when the count is below 2^31 or the scan that replaces it is right |
| BoltStores.InfoIsLatest | packages/cli/services/datastore/backend/bolt/bolt.go:501-527 | the information on a trial has its number of ticks and the state of its latest sample, unknown without one |
| BoltStores.BodiesAreIdempotent | packages/cli/services/datastore/backend/bolt/bolt.go:604-761 | each of the three transaction bodies run again, with repeated ids or ticks, changes nothing |
| BoltStores.CommitKeepsInv | packages/cli/services/datastore/backend/bolt/bolt.go:309-398 | every transaction, committed or rolled back, keeps the store consistent |
| BoltStores.SeekIsNextLive | packages/cli/services/datastore/backend/bolt/bolt.go:471-477 | the cursor goes to the next trial still there |
| BoltEffects.AdditionIsExact | packages/cli/services/datastore/backend/bolt/bolt.go:711-761 | an addition fails, and changes nothing, exactly when some trial is unknown; otherwise each trial has at each tick the last sample of the batch or the one it had, and nothing else has changed |
| BoltEffects.DeletionIsExact | packages/cli/services/datastore/backend/bolt/bolt.go:604-651 | a deletion takes away exactly the trials it names and their index entries |
| BoltEffects.CreationIsExact | packages/cli/services/datastore/backend/bolt/bolt.go:309-398 | a creation fails, and changes nothing, exactly when a trial to create has no name; otherwise the trials are those before and those of the batch with the parameters last given, and new numbers follow without a gap in the order of the batch |
| BoltBackends.BoltBackend.CreateOrUpdateTrials | packages/cli/services/datastore/backend/bolt/bolt.go:309-398 | the committed store, or the unchanged one when a trial has no name |
| BoltBackends.BoltBackend.DeleteTrials | packages/cli/services/datastore/backend/bolt/bolt.go:604-651 | the committed store, unknown trials ignored |
| BoltBackends.BoltBackend.AddSamples | packages/cli/services/datastore/backend/bolt/bolt.go:711-761 | the committed store, or the unchanged one when a trial is unknown |
| BoltBackends.BoltBackend.RetrieveTrials | packages/cli/services/datastore/backend/bolt/bolt.go:456-554 | the page by creation position, the next index of the early exit and of the exhausted scan, and exactly when that index cannot be read |
| TrialPages.MatchesAreExact | packages/cli/services/datastore/backend/memory/memory.go:251-266 | the matches are exactly the live trials that pass the filter, each once, in creation order |
| TrialPages.MatchesAtMost | packages/cli/services/datastore/backend/memory/memory.go:218-236 | an id filter cannot match more trials than it has ids |
| TrialPages.MatchesMean | packages/cli/services/datastore/backend/memory/memory.go:256-261 | a trial matches when it is still there, has one of the ids if any are given, and has all the properties |
| TrialPages.ChainIsComplete | packages/cli/services/datastore/backend/bolt/bolt.go:456-554 | following next positions that neither repeat nor skip a match gives all matches in order, for every page size |
| PagingRefinement.PagesAgree | packages/cli/services/datastore/backend/memory/memory.go:238-269 | after every run of the same operations both stores answer any request with the same page |
| PagingRefinement.RecreationPartsTheStores | packages/cli/services/datastore/backend/memory/memory.go:189-216 | from stores that hold the same trials, a creation leaves both with the same pages for every request exactly when no trial of the batch was deleted before |
| PagingRefinement.RecreatedTrialIsMissing | packages/cli/services/datastore/backend/bolt/bolt.go:309-398 | after a trial is created, deleted and created again the stores page differently |
| PagingRefinement.ChainsAreComplete | packages/cli/services/datastore/backend/bolt/bolt.go:456-554 | after every run and for every page size, following either store's next positions to the first empty page gives every live matching trial once, in creation order |
| PagingRefinement.ApplyKeepsRelated | packages/cli/services/datastore/backend/bolt/bolt.go:309-398 | every operation that re-creates no deleted trial keeps both stores holding the same trials, numbered alike |
| PagingRefinement.MemoryAnswerFits | packages/cli/services/datastore/backend/memory/memory.go:246-265 | the next index after a page neither repeats nor skips a match |
| PagingRefinement.BoltAnswerFits | packages/cli/services/datastore/backend/bolt/bolt.go:477-543 | the same for the 1-based keys and both exits |
| PagingRefinement.NextPositionReads | packages/cli/services/datastore/backend/bolt/bolt.go:532-543 | with fewer than 2^31 trials ever created the next index can always be read |
| PagingRefinement.EmptyMemoryPageRestarts | packages/cli/services/datastore/backend/memory/memory.go:246-249 | a page of the memory store has next index 0 exactly when it is empty |
| DatalogConversion.ReferencesAreFaithful | packages/cli/services/datastore/grpcservers/datalogServer.go:69-89 | whatever the order of "*": every reference is in bounds, and each actor's observation and action lead to those of the log |
| DatalogConversion.RewardsMatch | packages/cli/services/datastore/grpcservers/datalogServer.go:90-167 | for every sender and receiver: the rewards one records as sent and the other as received are the same, in order, with the same payload, and exactly those the log holds between the two, whatever the order of "*" |
| DatalogConversion.GiftsAreOfTheLog | packages/cli/services/datastore/grpcservers/datalogServer.go:92-122 | the exchanges between two sides, and the sources for an actor, do not depend on the orders in which "*" lists the actors |
| DatalogConversion.RewardByClass | packages/cli/services/datastore/grpcservers/datalogServer.go:96-113 | a reward for a class and a name reaches exactly the actors of that class, those of that name or all of them for "*": only they have its rewards and an aggregated one |
| DatalogConversion.RewardByName | packages/cli/services/datastore/grpcservers/datalogServer.go:96-122 | a reward for a name without a class reaches exactly the actor of that name; "*" and "*.*" reach everyone |
| DatalogConversion.OneMoreSource | packages/cli/services/datastore/grpcservers/datalogServer.go:169-187 | one more source moves the average by its confidence; one without confidence does not |
| DatalogConversion.MessagesMatch | packages/cli/services/datastore/grpcservers/datalogServer.go:190-221 | the same for messages, either side possibly the environment |
| DatalogConversion.RewardsAreAverages | packages/cli/services/datastore/grpcservers/datalogServer.go:169-187 | an actor has received the rewards the log holds for it, in order, its aggregated reward is their average, and absent exactly when no reward of the log was for it, whatever the order of "*" |
| DatalogConversion.AverageIsWeighted | packages/cli/services/datastore/grpcservers/datalogServer.go:171-186 | the average times the sum of positive confidences is the weighted sum; 0 without a positive confidence |
| DatalogServer.TrialSampleFromDatalogSample | packages/cli/services/datastore/grpcservers/datalogServer.go:47-224 | the nested loops compute the conversion that the theorems are about |
| DatalogServer.StoreRewards | packages/cli/services/datastore/grpcservers/datalogServer.go:92-167 | the three nested loops give every source to every receiver and gather the sources per actor |
| DatalogServer.StoreAverages | packages/cli/services/datastore/grpcservers/datalogServer.go:169-187 | the loop over the accumulator sets each average, whatever its order |
| DatalogServer.StoreMessages | packages/cli/services/datastore/grpcservers/datalogServer.go:190-221 | each message is stored on both sides |
| DatalogServer.Expand | packages/cli/services/datastore/grpcservers/datalogServer.go:96-122 | the receivers of a name, a class wildcard or everyone |
| SampleFilters.FilterKeepsReferences | packages/cli/services/datastore/backend/trialSampleFilter.go:100-180 | a filtered sample is well formed, every reference leads to the same bytes as before, and but for the shortcut unreferenced payloads are gone |
| SampleFilters.FilterTwice | packages/cli/services/datastore/backend/trialSampleFilter.go:100-180 | filtering by f then by g is filtering once by their pointwise conjunction, the shortcut included |
| SampleFilters.FilterIsIdempotent | packages/cli/services/datastore/backend/trialSampleFilter.go:100-180 | filtering again changes nothing |
| SampleFilters.ShortcutOnlyWithoutFields | packages/cli/services/datastore/backend/trialSampleFilter.go:71-85 | all field flags are set exactly when no field was asked for: a list of all fields never gives the shortcut |
| SampleFilters.RequestKeepsExactly | packages/cli/services/datastore/backend/trialSampleFilter.go:38-180 | a request keeps exactly the actors that its names, classes and implementations select, in their order, and of each exactly the fields it asks for |
| SampleFilterObjects.Filter | packages/cli/services/datastore/backend/trialSampleFilter.go:100-180 | the loops over actors and references compute the filtered sample |
| SampleFilterObjects.NewActorsFilter | packages/cli/services/datastore/backend/trialSampleFilter.go:38-69 | a flag is set exactly for the actors selected by name, class and implementation |
| SampleFilterObjects.NewFieldsFilter | packages/cli/services/datastore/backend/trialSampleFilter.go:71-85 | a flag is set exactly for the fields asked for, never for the unknown one |
| SampleFilterObjects.ArrayFilter.SelectsAll | packages/cli/services/datastore/backend/trialSampleFilter.go:202-209 | true exactly when every flag is set |
| TrialFiles.FileRoundTrip | packages/cli/clients/datastore/trialSamplesFile.go:54-147 | header and samples are read back, then the end of the file, exactly when the last message is not empty or the reader does not take an empty read for the end |
| TrialFiles.TruncatedSamples | packages/cli/clients/datastore/trialSamplesFile.go:196-217 | of a cut file only a prefix of the samples is read, all whole ones but maybe an empty last; the end looks regular exactly between messages or right after a length |
| TrialFiles.TruncatedFile | packages/cli/clients/datastore/trialSamplesFile.go:115-147 | a file cut after its header gives the header and what is left of the samples |
| TrialFiles.TruncatedHeader | packages/cli/clients/datastore/trialSamplesFile.go:115-133 | a file cut before the end of its header gives no header |
| TrialFiles.LengthRoundTrip | packages/cli/clients/datastore/trialSamplesFile.go:185-198 | a length below 2^32 is read back from its four bytes |
| TrialFiles.LengthIsLittleEndian | packages/cli/clients/datastore/trialSamplesFile.go:179-198 | the four bytes of a length, the least significant first |
| TrialFiles.FrameRead | packages/cli/clients/datastore/trialSamplesFile.go:196-217 | a message that is read has the length before it and is followed by the rest of the input |
| TrialFiles.HeaderNeedsMagic | packages/cli/clients/datastore/trialSamplesFile.go:115-177 | a header is read only after the magic value; other bytes in its place are refused |
| TrialFiles.WritingIsExact | packages/cli/clients/datastore/trialSamplesFile.go:179-194 | the output is as much of the messages as there is room for, and the byte counter is its length exactly unless the room ends within a length |
| TrialFiles.FileIsWritten | packages/cli/clients/datastore/trialSamplesFile.go:54-101 | with room for it the whole file is written and the byte counter is its length |
| TrialFileObjects.TrialSamplesFileWriter.WriteHeader | packages/cli/clients/datastore/trialSamplesFile.go:54-87 | refused in the wrong state; otherwise output, counter and state after the magic value and the header |
| TrialFileObjects.TrialSamplesFileWriter.WriteSample | packages/cli/clients/datastore/trialSamplesFile.go:89-101 | refused in the wrong state; otherwise output, counter and state after one message |
| TrialFileObjects.TrialSamplesFileReader.ReadHeader | packages/cli/clients/datastore/trialSamplesFile.go:115-133 | header or error, and the new state |
| TrialFileObjects.TrialSamplesFileReader.ReadSample | packages/cli/clients/datastore/trialSamplesFile.go:135-147 | sample or error, and the new state |
| TrialFileObjects.TrialSamplesFileReader.ImportSamples | packages/cli/clients/datastore/client.go:242-259 | the loop gives the samples up to the first error |
| PropertyStrings.GoRecoversExactlyClean | packages/cli/utils/propertiesSerialization.go:28-73 | for every order: the Go reader recovers exactly the table written if and only if all names are there, and names and values are trimmed and hold neither separator |
| PropertyStrings.CppRecoversExactly | packages/orchestrator/lib/cogment/utils.cpp:250-277 | for every order: the C++ reader recovers exactly the properties written if and only if no name holds a separator, no value a comma, and neither end is without name and value |
| PropertyStrings.BothReadersRecover | packages/orchestrator/lib/cogment/utils.cpp:250-277 | a clean table is recovered by both readers for every order |
| PropertyParts.ParseMeans | packages/cli/utils/propertiesSerialization.go:44-73 | for any list of parts between commas: the Go reader fails exactly when some part is malformed, and otherwise gives each name the value of its last part |
| PropertyParts.PartMeans | packages/cli/utils/propertiesSerialization.go:48-70 | what one part comes to: an error, nothing, or the trimmed name and value around the first equals sign |
| PropertyParts.ViewsMean | packages/orchestrator/lib/cogment/utils.cpp:250-277 | for any list of parts between commas: the C++ reader gives one property for each, but none for an empty last one |
| PropertyParts.ViewMeans | packages/orchestrator/lib/cogment/utils.cpp:264-273 | one part in C++: name and value as they are, split at the first equals sign |
| PropertyStrings.FormatProperties | packages/cli/utils/propertiesSerialization.go:28-41 | the loop writes the string of the specification |
| PropertyStrings.ParseProperties | packages/cli/utils/propertiesSerialization.go:44-73 | the loop reads the table of the specification, or fails |
| PropertyStrings.ParsePropertyViews | packages/orchestrator/lib/cogment/utils.cpp:250-277 | the loop that consumes its input reads the list of the specification |

## Left out

- Streams, HTTP routing, tokens, the directory, thread pools, logging and metrics: input and output, or calls into code that is not here.
- Clocks: a timer may fire whenever it is armed, and time stamps are not modelled.
- Message encoding: marshalling is a pair of functions, of which the theorems on files ask that one inverts the other.
- The contents of observations sent to actors, special events, messages between actors and the join of actors in `trial.cpp`: they do not touch the state modelled.
- The notification of the watchers is not part of `LiveTrial.SetState`; it is modelled on its own, with the write of the state as a separate step.
- Races within one entry point of the trial, such as the end of the trial in the middle of an observation: entry points are atomic.
- Inactive trials: the garbage collection of the orchestrator is modelled as the disappearance of an ended trial from the list.
- Spurious destruction of a trial while its threads run, and the deactivation of the signal.
- TimeoutRunning.Add: timeouts are natural numbers, so the conversion of seconds to nanoseconds is not modelled.
- Trials of the memory store are values in a table: a reference to a trial kept over its deletion is not modelled, nor is anything that happens between the look-up and the addition of samples.
- The cancellation of an eviction and the worker that triggers it.
- bolt: its own errors other than a bucket without a name, its migration, and the wrap-around of its sequence.
- BoltBackends.BoltBackend.AddSamples: what a scan of the samples gives once the count passes 2^31 is a parameter.
- PagingRefinement.PagesAgree: compares the trials of the pages; sample counts differ between the stores, since only bolt counts a repeated tick once.
- Pools of 2^32 payloads or more, whose references would wrap around in the conversion.
- Rounding of rewards: values and confidences are real numbers.
- DatalogConversion.ReferencesAreFaithful: an observation index out of range, as for an unavailable actor, crashes the conversion and is ruled out.
- Field numbers that the sample filter does not know, which index past its flags.
- TrialFiles.ReadFrame: a read returns all the bytes there are up to those asked for; short reads of very large messages are not modelled.
- Strings of properties are sequences of characters: bytes that are not valid UTF-8 are not modelled.
- `Item` of the observable list, `SampleBatcher`, and the observation of trials and samples as streams: they add no harder property.
- The launcher, the model registry and the command line.
