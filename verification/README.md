# Verified model of the ddl daemon

This project models four parts of docker-dynamic-limits, a daemon that sets and enforces limits on Docker
containers while they run, and proves properties of them: the Ollama inference queue, the enforcement manager,
usage accounting with the "keep limits consistent" mode, and the spending tracker. `dafny verify dfyconfig.toml`
checks all of it.

## How it is laid out

Code that changes state step by step is written twice: as a class whose methods are the loops and
assignments of the source, and as functions on values that say what each method does. Every method's
`ensures` ties the new state to such a function of the old one; the theorems are about the functions. The modules
named `...Laws` say what each function does without mentioning how: they read the state before and after, field by
field and request by request, container by container.

| file | modules | source |
|---|---|---|
| `model.dfy` | `Model` | scopes, limit types, Go's integer division |
| `queue_order.dfy` | `QueueOrder` | the stable order of the queue, and that it has one outcome only |
| `queue_state.dfy` | `QueueState` | the effect of each critical section of the queue |
| `queue_protocol.dfy` | `QueueProtocol` | handlers, processor and operators as 21 kinds of steps, and the invariant |
| `queue_theorems.dfy` | `QueueTheorems` | safety, wake-ups, progress, service order, admission bounds |
| `queue_laws.dfy` | `QueueLaws` | each step request by request: answers, contexts, bids, who is pending and in which order |
| `queue.dfy` | `OllamaQueue` | request objects, the slice over a shared backing array, the in-place loops |
| `sleep.dfy` | `SleepDetector` | sleep detection, overlap with a request, billing |
| `store.dfy` | `StoreState`, `StoreTables` | the tables and the store operations |
| `store_totals.dfy` | `StoreTotals` | conservation, hierarchy and legacy mirror |
| `store_laws.dfy` | `StoreLaws` | what can be read back after each operation, and where rows come from |
| `limits.dfy` | `LimitRules` | limit arithmetic of the API and the mode |
| `limit_laws.dfy` | `LimitLaws` | the answers of the limit handlers in numbers |
| `limit_server.dfy` | `LimitServer` | the limit handlers and the mode switch as a class |
| `limit_races.dfy` | `LimitRaces` | the limit handlers call by call, in every interleaving |
| `spending.dfy` | `SpendingState` | budgets and gates |
| `spending_runs.dfy` | `SpendingRuns` | gates, overshoot and restarts over every run |
| `spending_blocks.dfy` | `SpendingBlocks` | what is still spent while a scope blocks |
| `spending_tracker.dfy` | `SpendingProxy` | the spending tracker as a class |
| `enforcement_state.dfy` | `EnforcementState` | flags, the pause bit, ticks, freezing |
| `enforcement_runs.dfy` | `EnforcementRuns` | invariants over every run of the manager |
| `enforcement_blocks.dfy` | `EnforcementBlocks` | which requests are turned away for a scope, over every run |
| `enforcement_ticks.dfy` | `EnforcementTicks` | one worker tick and one scope tick, exactly |
| `enforcement_laws.dfy` | `EnforcementLaws` | readings, rows, flags and calls type by type; who is stopped; freezing |
| `enforcement.dfy` | `EnforcementManager` | Docker and the manager as classes |
| `bytesec.dfy` | `ByteSeconds` | byte-second counters over whole runs |

Conventions: `int64` values are mathematical integers and the durations of the queue are whole
nanoseconds, so the billing formula is a floor instead of a truncated floating-point product. Container
and segment ids are compared for equality only and are numbers here. Clocks, meters, probe results and
failing Docker calls are inputs. Docker follows the mock of the repository
(`internal/testutil/mocks.go:449-482`): pausing a paused container answers "already paused", stopping
makes a container not running.

## Where the code and its promises differ

Each of these is proved: a case in which the promise fails, and the exact condition under which it holds.

- "A container won't be unpaused until ALL enforcement levels release it" (SEGMENTS.md:335). It fails in two
  ways. A worker's own tick drops a pause held by a scope, because a release looks at the *other* pause type
  only (`EnforcementTicks.ScopePauseIsLost`, exact for every tick in `EnforcementTicks.TickKeepsScopePauseIff`).
  And a scope's release drops a pause that another scope still holds for the same type
  (`EnforcementTicks.HostPauseIsLostToSegment`, exact in `EnforcementTicks.ScopeOnePauseIff` and
  `EnforcementTicks.ScopeTickUnpausesIff`).
- "Enforcement releases on frozen container": it "stays Docker-paused" (README.md:283). So it does over every run of
  uninterrupted operations (`EnforcementRuns.FrozenStaysPaused`), but a release looks first and unpauses later, and a
  freeze can come in between (`EnforcementRuns.FreezeRacesRelease`, exact in `EnforcementRuns.UnpauseKeepsIff`).
- "CPU, network, disk I/O: all containers in the segment are Docker-paused" (SEGMENTS.md:330): only CPU and disk
  pause; network disconnects and disk I/O is throttled (`EnforcementTicks.NetworkLimitPausesNobody`,
  `EnforcementTicks.ScopePausesMembersIff`).
- Usage "preserved" when a container leaves a segment (SEGMENTS.md:339): leaving takes its whole usage out of
  the segment's totals (`StoreTotals.LeavingTakesUsageOut`, `StoreTotals.UnassignKeepsTotalIff`).
- Spending over a segment limit blocks "all proxy API calls for containers in the segment" (SEGMENTS.md:331). Read
  for requests of every kind it holds exactly for members that have spent their own limit, whatever is flagged
  (`EnforcementBlocks.AllTurnedAwayIff`), because inference requests are dispatched before the proxy looks at
  scopes (`EnforcementBlocks.InferencePassesFlaggedSegment`; how far it goes: `SpendingBlocks.BlockedSpendsOn`);
  for clones the condition has a second half.
  For tracked calls it also fails after a restart: the proxy knows only the assignments made since then
  (`EnforcementBlocks.TrackedPassesAfterRestart`). Exactly, for both kinds:
  `EnforcementBlocks.MemberTurnedAwayIff`.
- The opposite: a container in no segment can be blocked by its old one (`EnforcementBlocks.StaleSegmentBlocks`;
  who is blocked, exactly: `EnforcementBlocks.BlockedIff`), and a flagged scope that loses its limit, by setting it
  to zero or by deleting and creating the segment, stays flagged until a new limit or a restart
  (`EnforcementBlocks.RecreatedSegmentBlocks`, `EnforcementBlocks.UnlimitedStaysFlagged`).
- One request per container in the queue: the mutex is released between the check and the append
  (`QueueTheorems.FineInterleavingAdmitsTwo`, `QueueTheorems.AdmitKeepsOneIff`).
- Keep-limits-consistent is broken in six ways. Five need no overlap: a negative decrease
  (`LimitRules.NegativeDecreaseBreaks`, exact in `LimitRules.DecreaseKeepsIff`), a negative set followed by a capped
  one (`LimitRules.NegativeSetBreaks`, `LimitRules.AcceptedKeepsIff`), a host increase from "no limit"
  (`LimitRules.HostIncreaseFromNothingBreaks`, `LimitRules.HostIncreaseKeepsIff`), removing a container that used
  more than its limit (`LimitRules.RemovingAnOverspenderBreaks`, `LimitRules.RemovalKeepsIff`), and cloning
  (`LimitRules.CloningBreaks`, `LimitRules.CloneKeepsIff`). The sixth is a race: handlers hold no lock between
  reading and writing, so two harmless requests at once can promise too much (`LimitRaces.RacingSetsBreak`).
  Exactly: `LimitRaces.InterleavedConsistentIff` for every interleaving, `LimitRules.RunConsistentIff` one at a time.
- Sleep accounting counts a stretch of time twice when the wall clock is set back
  (`SleepDetector.ClockSetBack`, `SleepDetector.MeasuresIffDisjoint`).
- With a negative spending limit enforcement flags a container that both gates let through
  (`SpendingRuns.NegativeLimitDivides`, `SpendingRuns.GatesAgreeIff`); a clone that inherits a spending limit meets it
  at the queue only (`SpendingRuns.CloneDividesGates`, `SpendingRuns.CloneInStepIff`).

## Model

| member | source | states |
|---|---|---|
| Model.SegmentScopeRoundTrip | internal/model/model.go:11-25 | Writing a segment scope loses nothing, different segments and the host are written differently, and a scope is a segment exactly when it is the name of its segment id |
| Model.TruncDivLaw | internal/proxy/proxy.go:329-337 | Integer division as Go does it rounds towards zero, for both signs |
| QueueOrder.SortIsStable | internal/ollama/ollama.go:725-729 | Insertion sort yields what a stable sort by falling bid promises: sorted, and every class of equal bids in its old order |
| QueueOrder.StableSortUnique | internal/ollama/ollama.go:725-729 | That promise leaves no freedom: any two stable sorts of a queue are the same sequence |
| QueueOrder.InsertAt | internal/ollama/ollama.go:725-729 | Walking down past the smaller bids finds the place where the stable sort puts an entry |
| QueueOrder.SortKeepsBefore | internal/ollama/ollama.go:725-729 | Sorting swaps two entries only if the one behind bids strictly more |
| QueueState.OthersMember | internal/ollama/ollama.go:382-396 | The compaction keeps exactly the entries of other containers |
| QueueState.OthersOrdered | internal/ollama/ollama.go:382-396 | Compaction keeps the bid order and adds no duplicate |
| QueueState.PopOrdered | internal/ollama/ollama.go:561-572 | A pop leaves the rest in bid order and no longer than before |
| QueueState.PopMember | internal/ollama/ollama.go:561-572 | A pop hands out a live entry, removes it, and drops cancelled entries only |
| QueueProtocol.AdmitInv | internal/ollama/ollama.go:225-255 | Admission keeps the protocol invariant: order, one place per request, pending wake signal, size bound |
| QueueProtocol.WaiterInv | internal/ollama/ollama.go:265-309 | Signalling, receiving, giving up and cancelling one's own context keep it |
| QueueProtocol.LeaveInv | internal/ollama/ollama.go:714-723 | Removing one's own entry keeps it |
| QueueProtocol.RebidInv | internal/ollama/ollama.go:314-324 | A re-bid keeps it |
| QueueProtocol.CancelOneInv | internal/ollama/ollama.go:358-373 | Cancelling one entry keeps it |
| QueueProtocol.CancelContainerInv | internal/ollama/ollama.go:377-431 | Cancelling or removing a container keeps it |
| QueueProtocol.DrainStopInv | internal/ollama/ollama.go:124-138 | Stop keeps it |
| QueueProtocol.PopInv | internal/ollama/ollama.go:543-572 | A pop by the processor keeps it |
| QueueProtocol.ProcessorInv | internal/ollama/ollama.go:534-559 | Taking a wake token, activating, replying, deactivating and halting keep it |
| QueueProtocol.StepInv | internal/ollama/ollama.go:124-729 | Every one of the 21 kinds of steps keeps the protocol invariant |
| QueueTheorems.RunKeepsInv | internal/ollama/ollama.go:124-729 | The invariant holds over every run from a state that has it |
| QueueTheorems.RequestFate | internal/ollama/ollama.go:124-138 | In every reachable state a request is queued, held or finished and never two of them, was sent at most one result, and finished without one only if its own waiter gave up |
| QueueTheorems.SendsNeverBlock | internal/ollama/ollama.go:362-390 | Whoever sends finds the one-slot channel unused, so sends under the mutex never block; a cancelled request is sent to by the processor only |
| QueueTheorems.SentOnlyGrows | internal/ollama/ollama.go:358-431 | A step sends only to live pending requests and the one in service, re-bids pending ones only, and never clears a cancelled flag |
| QueueTheorems.FinishedForGood | internal/ollama/ollama.go:534-660 | Over every run a finished request is never queued, served or answered again |
| QueueTheorems.BilledBidIsFixed | internal/ollama/ollama.go:610-614 | Over every run the bid of a popped request stays what it was popped with |
| QueueTheorems.NoLostWakeUp | internal/ollama/ollama.go:265-269 | Before Stop a non-empty queue has a buffered wake token, a draining processor, or an admitter about to signal |
| QueueTheorems.InternalStepDoesWork | internal/ollama/ollama.go:534-559 | Each step the queue takes by itself lowers a measure of outstanding work |
| QueueTheorems.ComesToRest | internal/ollama/ollama.go:534-559 | Left alone, the queue rests after at most as many steps as that measure |
| QueueTheorems.NobodyStranded | internal/ollama/ollama.go:279-309 | At rest and before Stop the queue is empty, the processor idle, and every handler has returned |
| QueueTheorems.PopServesHighestBid | internal/ollama/ollama.go:561-572 | In every reachable state a pop serves a live request that no live pending one outbids |
| QueueTheorems.StepFifo | internal/ollama/ollama.go:725-729 | A step that changes no pending bid keeps equal bids in admission order |
| QueueTheorems.RunFifo | internal/ollama/ollama.go:725-729 | So does every run that changes no pending bid |
| QueueTheorems.ServesEarliestOfHighest | internal/ollama/ollama.go:561-572 | After such a run the request served is the earliest admitted of the highest live bids |
| QueueTheorems.RebidKeepsOthers | internal/ollama/ollama.go:314-324 | A re-bid of one request keeps the relative order of all others |
| QueueTheorems.RebidPlacesRequest | internal/ollama/ollama.go:314-324 | A raised request lands behind those already at its bid, a lowered one ahead of them, an unchanged bid moves nothing |
| QueueLaws.StepEntry | internal/ollama/ollama.go:124-729 | For every step and every request: what is put on its channel, whether it counts as cancelled, whether its context is cancelled, and its bid |
| QueueLaws.StepPending | internal/ollama/ollama.go:124-729 | For every step and every request: whether it is pending afterwards |
| QueueLaws.StepOrder | internal/ollama/ollama.go:124-729 | For every step and every two requests pending after it: which is served first; the higher bid after a re-bid or an admission, equal bids as before, a new request last among its equals |
| QueueLaws.StepSettings | internal/ollama/ollama.go:100-121 | For every step: standing bids, size, default bid, wake token, stop flag and active request |
| QueueLaws.AdmissionLaw | internal/ollama/ollama.go:219-255 | A request is refused exactly when as many as configured are pending; otherwise it enters at its container's standing bid, or at the default if that is missing or zero |
| QueueLaws.StartLaw | internal/ollama/ollama.go:100-121 | A new queue keeps a positive size and takes 50 for any other |
| QueueLaws.PopLaw | internal/ollama/ollama.go:543-572 | The processor takes the live request with nobody live ahead, and rests exactly when nobody live is pending |
| QueueLaws.RebidReaches | internal/ollama/ollama.go:314-324 | A bid reaches every pending live request of its container and no other request, and is its container's standing bid and nobody else's |
| QueueLaws.RebidOvertakes | internal/ollama/ollama.go:319-324 | Raised, the only request of a container overtakes exactly those it now outbids; lowered, it is overtaken by exactly those that outbid it |
| QueueLaws.RaisedIsNext | internal/ollama/ollama.go:319-324 | Raised above all other live bids it is the next one served |
| QueueLaws.RunAnswers | internal/ollama/ollama.go:124-660 | Over every run, what a request got is what the steps of the run put on its channel |
| QueueLaws.AnswerTellsWhy | internal/ollama/ollama.go:128-133 | In every reachable state a request got one answer at most, from one step, and each kind of answer from one kind of step only: service, cancellation of the first live request, freeze, removal, shutdown |
| QueueTheorems.QueueLengthBound | internal/ollama/ollama.go:232-237 | The queue is never longer than the largest bound configured so far |
| QueueTheorems.AdmitKeepsOneIff | internal/ollama/ollama.go:187-226 | An append keeps one request per container exactly when the duplicate check would still pass at that moment |
| QueueTheorems.ActivateKeepsOneIff | internal/ollama/ollama.go:543-550 | An activation keeps it exactly when no live request of that container slipped in after the pop |
| QueueTheorems.CoarseOnePerContainer | internal/ollama/ollama.go:187-255 | With check-and-append and pop-and-activate uninterrupted, no state of any run from the start has two live requests of a container in the queue or in service |
| QueueTheorems.FineInterleavingAdmitsTwo | internal/ollama/ollama.go:201-226 | Two handlers of one container that both check before either appends are both admitted |
| OllamaQueue.Request.Send | internal/ollama/ollama.go:655-659 | A send needs the slot of the channel free and fills it |
| OllamaQueue.Request.Finish | internal/ollama/ollama.go:362-364 | The winner of the flag cancels the context and sends, once |
| OllamaQueue.FindPending | internal/ollama/ollama.go:194-200 | The search loop finds the first live pending request of a container |
| OllamaQueue.FindRequest | internal/ollama/ollama.go:717-722 | The search by identity finds the first place of the request |
| OllamaQueue.CountCancelled | internal/ollama/ollama.go:564-570 | The loop of a pop skips exactly the cancelled prefix |
| OllamaQueue.RebidAll | internal/ollama/ollama.go:319-323 | The loop of a re-bid changes the live requests of the container and no other |
| OllamaQueue.FinishEvery | internal/ollama/ollama.go:128-133 | The loop of Stop finishes every live request once |
| OllamaQueue.Compact | internal/ollama/ollama.go:382-396 | Compaction in place, writing into the array it reads, leaves the order-preserving filter and finishes each live request of the container once |
| OllamaQueue.KeepOthersIds | internal/ollama/ollama.go:382-396 | What compaction keeps is the filter of the specification |
| OllamaQueue.Sink | internal/ollama/ollama.go:725-729 | Moving one element down past smaller bids shifts the others up by one and touches nothing else |
| OllamaQueue.InsertionSort | internal/ollama/ollama.go:725-729 | Sorting a slice in place gives the stable sort of it |
| OllamaQueue.Queue.constructor | internal/ollama/ollama.go:100-121 | A new queue is empty, and a size of zero or less becomes 50 |
| OllamaQueue.Queue.CheckDuplicate | internal/ollama/ollama.go:188-200 | Answers whether the container has an active or live pending request |
| OllamaQueue.Queue.Admit | internal/ollama/ollama.go:225-255 | Refuses exactly when full; else appends at the standing or default bid and re-sorts |
| OllamaQueue.Queue.Signal | internal/ollama/ollama.go:266-269 | The non-blocking offer leaves a token in the wake channel |
| OllamaQueue.Queue.SetBid | internal/ollama/ollama.go:314-324 | Stores the bid, re-bids live pending requests, re-sorts in place |
| OllamaQueue.Queue.CancelEntry | internal/ollama/ollama.go:358-373 | Finishes and removes the first live request of the container, and says whether there was one |
| OllamaQueue.Queue.CancelAllPending | internal/ollama/ollama.go:377-402 | Finishes and removes all requests of the container and cancels its active one, keeping the bid |
| OllamaQueue.Queue.RemoveContainer | internal/ollama/ollama.go:405-431 | The same, and the bid goes |
| OllamaQueue.Queue.RemoveEntry | internal/ollama/ollama.go:714-723 | Removes that very request if it is still pending |
| OllamaQueue.Queue.PopNext | internal/ollama/ollama.go:561-572 | Drops cancelled requests in front and takes the first live one |
| OllamaQueue.Queue.Activate | internal/ollama/ollama.go:548-550 | Makes the popped request the active one |
| OllamaQueue.Queue.Deactivate | internal/ollama/ollama.go:554-556 | Clears the active request |
| OllamaQueue.Queue.SendReply | internal/ollama/ollama.go:655-659 | The processor's one send |
| OllamaQueue.Queue.DrainOnStop | internal/ollama/ollama.go:126-137 | Finishes every live request, empties the queue, cancels the active one |
| SleepDetector.TotalAdditive | internal/ollama/ollama.go:691-712 | The overlaps of adjacent windows add up, whatever was recorded |
| SleepDetector.TotalIsCovered | internal/ollama/ollama.go:691-712 | Over disjoint sleeps the total of a window is the number of its instants spent asleep |
| SleepDetector.MeasuresIffDisjoint | internal/ollama/ollama.go:691-712 | That holds in every window exactly when no two recorded sleeps overlap |
| SleepDetector.RecordedAreDisjoint | internal/ollama/ollama.go:662-688 | A clock that never goes back records disjoint sleeps, over every sequence of readings |
| SleepDetector.SleepMeasure | internal/ollama/ollama.go:662-712 | Then the total is the time asleep in the window and never more than the window |
| SleepDetector.ClockSetBack | internal/ollama/ollama.go:671-675 | With the clock set back by ten seconds, ten seconds contain eighteen seconds of sleep |
| SleepDetector.AsleepIff | internal/ollama/ollama.go:664-689 | An instant counts as slept exactly when it lies between two consecutive readings more than five seconds apart and not in the first of those seconds |
| SleepDetector.BillIsFair | internal/ollama/ollama.go:588-614 | While the clock never goes back the clamp is idle, the cost is the waking time at the bid rounded down, and never above elapsed time at the bid |
| SleepDetector.BillOfParts | internal/ollama/ollama.go:588-614 | Cutting a request in two never raises its bill and lowers it by one milli-cent at most |
| SleepDetector.NothingForNothing | internal/ollama/ollama.go:610-614 | A bid of zero or less costs nothing |
| SleepDetector.TenSecondsWithAGap | internal/ollama/ollama.go:587-614 | Ten seconds at a bid of 3 with a gap of six seconds cost 15 |
| SleepDetector.Detector.Tick | internal/ollama/ollama.go:671-679 | A gap over five seconds is recorded as a sleep of all but one second of it |
| SleepDetector.Detector.SleepDuring | internal/ollama/ollama.go:691-712 | The summing loop returns the total, and the time asleep while the clock never went back |
| SleepDetector.Detector.Bill | internal/ollama/ollama.go:588-614 | Charges the waking time at the bid, rounded down, and nothing when that is not positive |
| StoreTables.Store.RemoveContainer | internal/store/store.go:230-268 | Settles each cumulative type with positive usage, then deletes the rows of the container |
| StoreTables.Store.AddUsage | internal/store/store.go:371-381 | Inserts the amount or adds it |
| StoreLaws.RemovalRows | internal/store/store.go:244-268 | A removal leaves no usage row, no limit row and no registration of its container, and every row of the others |
| StoreLaws.UsageLaw | internal/store/store.go:321-381 | For every operation and every usage row: whether it is there and what it reads |
| StoreLaws.LimitLaw | internal/store/store.go:271-394 | For every operation and every limit row: whether it is there and what it reads |
| StoreLaws.RowLaw | internal/store/store.go:171-580 | For every operation and every container: whether it is registered, its segment and its frozen flag, joining only from no or the same segment |
| StoreLaws.SegmentLaw | internal/store/store.go:499-571 | For every operation and every segment: it exists from its creation until a deletion while nobody is in it |
| StoreLaws.ScopeLimitLaw | internal/store/store.go:421-571 | For every operation and every limit of a scope: set for that scope alone and deleted with its segment |
| StoreLaws.AccumulatorLaw | internal/store/store.go:244-262 | For every operation and every accumulator: only a removal adds to it, the positive usage of the types that outlive a container, in the host's and its own segment's |
| StoreLaws.RowsHaveWriters | internal/store/store.go:264-265 | Over every run, a container has a usage or limit row only if something wrote one since it was last removed, registered or not |
| StoreLaws.RemovedAndBackIsNew | internal/store/store.go:171-268 | Removed and registered again, a container brings nothing back: totals of every scope stay, no limit, no segment, not frozen |
| StoreLaws.RemovedAndBack | internal/store/store.go:244-268 | 7 used of a limit of 5: after removal and registration the total is 7 and there is no limit |
| StoreTotals.SumTake | internal/api/api.go:1415-1429 | A sum over containers is the same in every order |
| StoreTotals.AccumAfterRemoval | internal/store/store.go:245-262 | After a removal the accumulators of the host and the container's own segment have grown by its positive cumulative usage, the others not |
| StoreTotals.TotalAfterRemoval | internal/store/store.go:230-268 | The change of every scope's total, for every type |
| StoreTotals.RemovalConservesIff | internal/store/store.go:227-268 | Removal conserves a cumulative total, at host and in the own segment, exactly when the usage removed is not negative |
| StoreTotals.RemovalOfCurrentUsage | internal/model/model.go:52-60 | Ram, disk and other rows lose exactly the usage removed; scopes without the container keep everything |
| StoreTotals.HostCoversSegments | internal/store/store.go:582-611 | The host total is at least the sum of all segment totals |
| StoreTotals.ReachableHostCoversSegments | internal/store/store.go:170-580 | So it is in every database reached by store operations with non-negative meters |
| StoreTotals.OpKeepsSound | internal/store/store.go:170-580 | Every operation keeps what that rests on: non-negative rows, existing segments, a host accumulator that covers those of the segments |
| StoreTotals.HostTotalStep | internal/store/store.go:170-580 | What one operation adds to a host total, exactly |
| StoreTotals.HostTotalNeverFalls | internal/store/store.go:227-268 | Over every run with advancing meters a cumulative host total never falls |
| StoreTotals.UnassignKeepsTotalIff | internal/api/api.go:1879-1913 | Leaving a segment takes the container's usage out of its totals, which stay only if there was none |
| StoreTotals.LeavingTakesUsageOut | internal/api/api.go:1879-1913 | The only member of a segment used 7; when it leaves the segment's total falls from 7 to 0 |
| StoreTotals.AssignAddsUsage | internal/api/api.go:1835-1877 | Joining brings past usage in, once |
| StoreTotals.AssignRoundTrip | internal/store/store.go:574-580 | Leaving after joining is accepted, and restores the database exactly when the container was in no segment before |
| StoreTotals.ReregisterForgetsSegment | internal/store/store.go:171-189 | Registering a member again takes it and its usage out of its segment, unfreezes its row, and leaves the totals of the host and of all other segments |
| StoreTotals.CreateRoundTripIff | internal/store/store.go:499-516 | Deleting a segment undoes its creation exactly when no container and no limit or accumulator row was waiting under its id |
| StoreTotals.RecreatedSegmentIsEmpty | internal/store/store.go:555-571 | A segment deleted and created again has no limits and totals of zero; all other scopes keep theirs |
| StoreTotals.OpKeepsMirror | internal/store/store.go:421-438 | Every operation keeps host rows and legacy rows equal |
| StoreTotals.RunKeepsMirror | internal/store/store.go:244-262 | So does every run |
| StoreTotals.MigrateMirrorsIff | internal/store/store.go:139-141 | Migration makes them equal exactly when no host row was there without an equal legacy row |
| StoreTotals.MigrateIdleIff | internal/store/store.go:139-141 | Migration is idempotent and does nothing exactly when every legacy row has its host row |
| StoreTotals.ReopenMigratesNothing | internal/store/store.go:139-141 | A daemon that reopens its own database migrates nothing, after any run from any first database; tables that agreed after the first migration still do |
| LimitRules.StoredKeepsIff | internal/api/api.go:557-592 | A stored limit keeps the mode's promise exactly when nobody is registered under that id, there is no host limit, or it fits what the others leave, at the moment it is stored |
| LimitRules.AcceptedKeepsIff | internal/api/api.go:557-592 | In the mode an accepted set or increase keeps the promise exactly when there is no host limit, the other containers alone fit it, or the value asked for fits what they leave |
| LimitRules.CapIsLargest | internal/api/api.go:569-585 | A set never stores more than asked, and every larger value up to the request breaks the promise; a capped value keeps it exactly when the others alone fit the host limit, so always when the old limit is not negative |
| LimitRules.IncreaseAcceptedIff | internal/api/api.go:565-579 | An increase passes exactly when it is at most the max_increase a rejection reports; while the others fit the host limit that is exactly when it keeps the promise |
| LimitRules.DecreaseKeepsIff | internal/api/api.go:543-557 | An unchecked decrease keeps the promise exactly when there is no host limit, or the others fit it and the amount is at least the old limit less the room; always for non-negative amounts and limits |
| LimitLaws.DecreaseLaw | internal/api/api.go:543-557 | A decrease, mode on or off, takes the amount away down to zero, and is never refused or capped |
| LimitLaws.SetLaw | internal/api/api.go:541-585 | A set stores exactly the request when unchecked or fitting, else exactly what is left, marked as capped |
| LimitLaws.IncreaseLaw | internal/api/api.go:542-579 | An increase is stored in full or refused with what would still pass, in numbers |
| LimitLaws.IncreaseThenDecrease | internal/api/api.go:542-547 | Decreasing by what an accepted increase added restores a limit that is not negative |
| LimitLaws.SetReadsBack | internal/api/api.go:541-592 | An unchecked set reads back, and no other limit moves |
| LimitLaws.HostLaw | internal/api/api.go:207-241 | A host increase is never refused; a set or decrease is refused, with the true sum, exactly when the mode is on, the sum positive and the value below it |
| LimitLaws.HostIncreaseThenDecrease | internal/api/api.go:210-217 | Decreasing by what was added restores a host limit that is not negative |
| LimitLaws.UnknownLaw | internal/api/api.go:549-552 | Another operation is refused and stores nothing |
| LimitLaws.EnableLaw | internal/api/api.go:1366-1385 | The mode may go on exactly when every host limit that is not zero covers limits and accumulator |
| LimitLaws.InNumbers | internal/api/api.go:538-585 | Limits of 5 under 20: sets, increases and decreases at and one past each boundary |
| LimitRules.HostLimitKeepsIff | internal/api/api.go:222-241 | A new host limit keeps the promise exactly when it is no limit or covers what is promised |
| LimitRules.HostAcceptedKeeps | internal/api/api.go:222-236 | An accepted host set or decrease keeps the promise |
| LimitRules.HostIncreaseKeepsIff | internal/api/api.go:210-223 | When an unchecked host increase keeps it, exactly; always from a positive limit |
| LimitRules.RemovalKeepsIff | internal/store/store.go:230-268 | Removing a container keeps it exactly when each host limit has room for settled usage less the limit that counted |
| LimitRules.RegisterKeepsIff | internal/store/store.go:171-189 | Registering keeps the promise exactly when the container was counted already or its limit rows find room under every host limit |
| LimitRules.CopiedLimits | internal/store/store.go:384-394 | After a copy the source's limits win, the target keeps its other ones, nobody else's limit changes, and copying again changes nothing |
| LimitRules.CopyKeepsIff | internal/store/store.go:384-394 | Copying limit rows keeps it exactly when the target is not registered or every host limit has room for them |
| LimitRules.CloneKeepsIff | internal/api/api.go:655-697 | A clone, never checked, keeps the promise exactly when every host limit has room for the inherited limits a second time |
| LimitRules.EnableIff | internal/api/api.go:1366-1385 | The mode goes on only over a kept promise, and always then if no host limit is negative |
| LimitRules.ServeKeepsIff | internal/api/api.go:207-697 | A request served without interruption in the mode, from limit changes to the two halves of a clone, keeps the promise exactly when it met the stated test of that request |
| LimitRules.RunConsistentIff | internal/api/api.go:207-697 | A run of requests served one at a time, mixed with metering, segments and freezing, keeps the promise throughout exactly when each request met its test when it came |
| LimitRules.RunKeepsConsistent | internal/api/api.go:207-697 | One at a time, with no negative amounts, no host increase from nothing, no removal of overspenders, no rows left behind and no copy beyond the room, every run keeps the promise |
| LimitRules.NegativeDecreaseBreaks | internal/api/api.go:543-557 | Decreasing a limit of 5 by -10 stores 15 and breaks the promise |
| LimitRules.NegativeSetBreaks | internal/api/api.go:540-592 | Under 10: -100 is stored, then 110 for the other container, and then a set to 5 is stored as 0 with 110 promised |
| LimitRules.HostIncreaseFromNothingBreaks | internal/api/api.go:210-223 | Increasing "no limit" by 3 installs a host limit that is broken at once |
| LimitRules.RemovingAnOverspenderBreaks | internal/store/store.go:244-262 | Removing a container that used 9 of 5 breaks the promise |
| LimitRules.CloningBreaks | internal/api/api.go:688-692 | Cloning a container with a limit of 5 promises 15 under 10 |
| LimitRaces.StepKeepsIff | internal/api/api.go:198-592 | Each call of a handler keeps the promise, and its write exactly when the value fits at the moment of the write, whatever was read before |
| LimitRaces.InterleavedConsistentIff | internal/api/api.go:198-592 | Over every interleaving of the store calls of any number of handlers, with whatever they had read when the mode went on, the promise is kept throughout exactly when each change of the store met its test at that moment |
| LimitRaces.CallKeepsCurrent | internal/api/api.go:529-585 | Read call by read call, a handler nobody disturbs decides what the request served at once would store, or refuses as it would |
| LimitRaces.UndisturbedIsSerial | internal/api/api.go:198-592 | A run in which nobody changes what a handler has begun to read does to the limits what serving the same requests one at a time does, in the order in which they take effect, and is consistent exactly when that is |
| LimitRaces.UndisturbedKeepsConsistent | internal/api/api.go:198-592 | So ordinary requests that nobody disturbs keep the promise in every state |
| LimitRaces.ReadsAlone | internal/api/api.go:529-585 | A handler alone comes to its decision after finitely many calls, in any order of containers |
| LimitRaces.RacingSetsBreak | internal/api/api.go:557-592 | Under 20, two sets to 15 of limits of 5, each harmless alone, are both stored in full when both read before either writes |
| LimitServer.Server.SumContainerLimits | internal/api/api.go:1415-1429 | The loop returns the sum over all containers but one, in any listing order |
| LimitServer.Server.PutLimit | internal/api/api.go:529-592 | The handler answers and stores what the rules say: stored, capped, refused with max_increase, bad operation |
| LimitServer.Server.PutHostLimit | internal/api/api.go:198-241 | The same for host limits, refused with min_value |
| LimitServer.Server.ValidateCurrentLimits | internal/api/api.go:1366-1385 | The loop over host limits, in any order, accepts exactly when each covers what is promised |
| LimitServer.Server.SetKeepLimitsConsistent | internal/api/api.go:1250-1262 | The mode goes on only if validation passes, and then the promise holds |
| SpendingRuns.StepInv | internal/proxy/proxy.go:164-168 | Every step keeps stored usage equal to spending rounded down and the proxy budget equal to 1000 times the stored limit |
| SpendingRuns.TrackedLaw | internal/proxy/proxy.go:164-337 | For every step: tracked spending and budget in micro-cents |
| SpendingRuns.StoredLaw | internal/enforcement/enforcement.go:218-243 | For every step: stored spending in whole milli-cents, and the stored limit |
| SpendingRuns.InFlightLaw | internal/proxy/proxy.go:464-528 | For every step and both kinds of requests: how many are in flight |
| SpendingRuns.TokenPrices | internal/proxy/proxy.go:727-730 | A token of either kind costs its own price, and responses add up |
| SpendingRuns.GatesAgreeIff | internal/ollama/ollama.go:178-184 | In every state reached from a daemon in step, clones of limited containers apart, the proxy and Ollama gates agree, and enforcement with them exactly when the limit is not negative |
| SpendingRuns.NegativeLimitDivides | internal/enforcement/enforcement.go:218-222 | With a limit of -1 and nothing spent both gates pass and enforcement flags |
| SpendingRuns.CloneInStepIff | internal/api/api.go:681-700 | A clone under a new id has its budget and its stored limit in step exactly when there was no spending limit to copy |
| SpendingRuns.CloneDividesGates | internal/api/api.go:688-700 | The clone of a container with a limit of 5 spends 5: the queue refuses it, the proxy does not |
| SpendingBlocks.BlockedAdmitsInferenceOnly | internal/proxy/proxy.go:469-528 | Over every run in which a scope blocks a container, all its admissions are inference requests, and no more tracked calls are charged than were in flight when it began |
| SpendingBlocks.BlockedSpendsOn | internal/ollama/ollama.go:177-185 | Without a limit of its own a container blocked throughout spends any multiple of any charge by inference |
| SpendingRuns.CoveredStep | internal/proxy/proxy.go:496-515 | Every admission, charge and restart keeps spending plus what may still fly in under the bound |
| SpendingRuns.Overshoot | internal/proxy/proxy.go:709-715 | From spending below the budget B, with at most N requests at once of at most M each, spending never exceeds B - 1 + N * M, over every interleaving and through restarts |
| SpendingRuns.OvershootIsReached | internal/proxy/proxy.go:504-515 | One run within the terms of that bound reaches it: N requests pass the gate one micro-cent below the budget and cost M each |
| SpendingRuns.RestartLoss | cmd/ddld/main.go:131-143 | All charges are tracked less at most 999 micro-cents for each restart or re-registration |
| SpendingRuns.NoLossInWholeMilliCents | internal/proxy/proxy.go:329-337 | Charges in whole milli-cents survive every restart in full |
| SpendingRuns.LossIsReached | cmd/ddld/main.go:131-143 | The loss of 999 micro-cents a reload is reached, by a run with any number of reloads |
| SpendingRuns.RegisterReadsBack | internal/proxy/proxy.go:164-169 | A registration reads back what it was given, in milli-cents, and touches no other container; registering with one's own rounded spending drops exactly the part below a milli-cent, once |
| SpendingProxy.SpendingTracker.AddSpending | internal/proxy/proxy.go:329-337 | Adds the charge and reports the rounded total to the store |
| SpendingProxy.SpendingTracker.TrackSpending | internal/proxy/proxy.go:690-719 | Charges tokens at the model's price; a response without tokens changes nothing |
| SpendingProxy.SpendingTracker.Admits | internal/proxy/proxy.go:496-528 | The gate: budget first, then the blocked flags of host and recorded scope |
| SpendingProxy.SpendingTracker.AdmitsInference | internal/ollama/ollama.go:177-185 | The pre-check: stored limit against rounded spending |
| SpendingProxy.SpendingTracker.Gate | internal/proxy/proxy.go:452-528 | Requests to the inference host meet the queue's pre-check only, tracked calls the budget and the scopes |
| SpendingProxy.SpendingTracker.IsScopeSpendingBlocked | internal/proxy/proxy.go:391-403 | Blocked exactly by the host flag or the flag of the recorded segment |
| SpendingProxy.SpendingTracker.Restore | cmd/ddld/main.go:131-143 | After start-up every stored container has its stored spending and limit, in micro-cents |
| EnforcementRuns.ReleaseUnpausesIff | internal/enforcement/enforcement.go:452-591 | A release unpauses exactly when it sees the pause, the container is not frozen, nothing at any level holds it for the other pause type, and Docker obeys |
| EnforcementRuns.TickUnpauses | internal/enforcement/enforcement.go:188-234 | Whatever a tick unpauses is its own container, at a point of its loop where it was not frozen and no level held it for the other pause type |
| EnforcementRuns.ScopeTickUnpauses | internal/enforcement/enforcement.go:743-765 | Whatever a scope tick unpauses is a member, for a type under its limit, at a point of the releasing loop where it was not frozen and no level held it for the other pause type |
| EnforcementRuns.CheckKeeps | internal/enforcement/enforcement.go:162-244 | A tick keeps "flagged or frozen and running means paused" for all containers, never unpauses a frozen one, and writes usage only |
| EnforcementRuns.ScopeOneFlags | internal/enforcement/enforcement.go:711-773 | Looking at one scope type keeps the same and sets that one scope flag to the verdict |
| EnforcementRuns.ScopeCheckFlags | internal/enforcement/enforcement.go:688-708 | So does a whole scope tick, in any order of types; types without limit keep their flag |
| EnforcementRuns.ScopeConverges | internal/enforcement/enforcement.go:654-709 | After a scope tick each limited type is flagged exactly when members' usage and accumulator reach the limit |
| EnforcementRuns.StepInv | internal/enforcement/enforcement.go:71-914 | Every step of the manager keeps the pause invariant and the agreement of frozen flags with the store |
| EnforcementRuns.RunKeepsInv | internal/enforcement/enforcement.go:71-914 | Over every run a running container that is frozen or flagged for CPU or disk is paused |
| EnforcementRuns.DaemonKeepsPauses | internal/enforcement/enforcement.go:776-785 | Over every run of a daemon from its start, over stored frozen containers that are paused, the pause rule holds |
| EnforcementRuns.FrozenStaysPaused | internal/enforcement/enforcement.go:558-564 | Over every run without its unfreeze or removal a frozen container stays frozen and paused |
| EnforcementRuns.UnpauseKeepsIff | internal/enforcement/enforcement.go:456-481 | A release acts later than it looks: its unpause keeps the pause rule exactly when, at that moment, the container is stopped, or neither frozen nor flagged for the other pause type |
| EnforcementRuns.FreezeRacesRelease | internal/enforcement/enforcement.go:803-837 | A freeze between a release's look and its unpause leaves a container frozen and running |
| EnforcementBlocks.RunKeepsBlocks | internal/enforcement/enforcement.go:723-749 | Over every run the proxy blocks a scope exactly while the scope is flagged for spending |
| EnforcementBlocks.KnownIsLatest | internal/api/api.go:1835-1913 | Over every run the proxy's record of a container is its latest accepted assignment or unassignment since the last restart, whatever ticks, removals and registrations happen |
| EnforcementBlocks.BlockedIff | internal/proxy/proxy.go:391-403 | Over every run from a daemon start, segments created and deleted included, the scope test stops a container exactly when the host is flagged or that latest assignment is to a flagged segment |
| EnforcementBlocks.MemberBlockedIff | internal/proxy/proxy.go:391-403 | The scope test of the proxy stops a member of a flagged segment exactly when the host is flagged too or the member was assigned since the last restart |
| EnforcementBlocks.BudgetSpentIff | internal/api/api.go:396-403 | Over every run in which a container is not the outcome of cloning, the proxy's budget for it is spent exactly when its stored limit is |
| EnforcementBlocks.MemberTurnedAwayIff | internal/proxy/proxy.go:469-528 | Over every run, for a member of a flagged segment: a tracked call is turned away exactly when its budget is spent, the host is flagged or it was assigned since the last restart; an inference request exactly when its own limit is spent |
| EnforcementBlocks.AllTurnedAwayIff | internal/proxy/proxy.go:469-480 | Over every run, exactly when requests of both kinds are turned away: the own limit is spent and the proxy knows of that or of a flagged scope; for a container that is no clone, exactly when its own limit is spent |
| EnforcementBlocks.InferencePassesFlaggedSegment | internal/proxy/proxy.go:469-480 | A run that flags a segment by a true tick: the member's tracked calls are turned away, its inference requests pass |
| EnforcementBlocks.TrackedPassesAfterRestart | cmd/ddld/main.go:131-143 | That run continued by a restart and another tick: flagged again, and both kinds pass |
| EnforcementBlocks.RestartForgetsSegments | cmd/ddld/main.go:131-143 | Over every run after a restart in which a container is not assigned, the scope test stops it exactly when the host is flagged |
| EnforcementBlocks.StaleSegmentBlocks | internal/api/api.go:467-476 | Removed and registered again, a container is in no segment and its old segment's flag still blocks it |
| EnforcementBlocks.UnlimitedStaysFlagged | internal/enforcement/enforcement.go:654-694 | Over every run that sets no limit and has no restart, a flagged scope without a limit keeps its flag |
| EnforcementBlocks.RecreatedSegmentBlocks | internal/api/api.go:1639-1650 | A flagged segment deleted and created again turns away the tracked calls of every new member, over every such run |
| EnforcementTicks.CheckPauseType | internal/enforcement/enforcement.go:188-234 | One pause type, whatever its limit, reading and Docker's answers: what becomes of its flag and of the pause |
| EnforcementTicks.TickExact | internal/enforcement/enforcement.go:162-234 | A tick over eleven types does to both flags and the pause what one CPU turn and one disk turn do, for any limits, readings and failing calls |
| EnforcementTicks.RestartSelfStabilises | internal/enforcement/enforcement.go:227-233 | When one tick after a restart makes paused mean over some limit again, exactly: nothing to undo, or some pause type looked at and no skipped one flagged |
| EnforcementTicks.TickKeepsScopePauseIff | internal/enforcement/enforcement.go:556-591 | When a tick keeps a pause, exactly, for any limits, readings, flags, scopes and failing calls |
| EnforcementTicks.ScopePauseIsLost | internal/enforcement/enforcement.go:565-589 | A container paused for the host's CPU limit is unpaused by its own worker while the host stays flagged |
| EnforcementTicks.ScopeOnePauseIff | internal/enforcement/enforcement.go:711-773 | Looking at one scope type lifts a pause exactly when the scope was flagged and is under its limit, the member can be reached, is not frozen and not held for the other pause type, and Docker obeys; it imposes one exactly when the scope is newly over |
| EnforcementTicks.ScopePausesMembersIff | internal/enforcement/enforcement.go:711-741 | A scope that goes over its limit pauses all reached members exactly when the type is CPU or disk, or they were paused before |
| EnforcementTicks.NetworkLimitPausesNobody | internal/enforcement/enforcement.go:403-407 | A true tick over a network limit flags segment and member and leaves the member running unpaused |
| EnforcementTicks.ScopeTickUnpausesIff | internal/enforcement/enforcement.go:688-773 | A scope tick, in any order of types, drops a pause exactly when one of its turns lifts it and no later one imposes it |
| EnforcementTicks.HostPauseIsLostToSegment | internal/enforcement/enforcement.go:743-765 | A container held by host and segment for CPU is unpaused when the segment releases, with the host still flagged |
| EnforcementTicks.RemovedLimitsReleaseNothing | internal/enforcement/enforcement.go:189-193 | Once both limits are zero, ticks leave pause and flags as they are |
| EnforcementLaws.EnforceLaw | internal/enforcement/enforcement.go:369-450 | Enforcing a type flags it if its own call works, and only CPU and disk pause and only byte-seconds stop |
| EnforcementLaws.ReleaseLaw | internal/enforcement/enforcement.go:452-524 | A release clears the flag unless the call that undoes it fails, for pauses only if that call was due |
| EnforcementLaws.ReadingLaw | internal/enforcement/enforcement.go:270-328 | What counts as usage, meter by meter: CPU in whole seconds of the microseconds read, RAM and disk in bytes, spending from the tracker |
| EnforcementLaws.SampleLaw | internal/enforcement/enforcement.go:342-367 | What each byte-second counter gains a second: memory or disk in use, or the memory or disk limit |
| EnforcementLaws.IdleTick | internal/enforcement/enforcement.go:162-177 | A tick for a frozen, stopped or unreachable container changes nothing |
| EnforcementLaws.TickRowLaw | internal/enforcement/enforcement.go:188-243 | The usage row of every type after a tick |
| EnforcementLaws.TickOtherRows | internal/enforcement/enforcement.go:188-243 | No row and no flag of another container moves in a tick |
| EnforcementLaws.TickFlagLaw | internal/enforcement/enforcement.go:188-234 | The flag of every type that does not pause after a tick |
| EnforcementLaws.TickStopsIff | internal/enforcement/enforcement.go:415-417 | A tick stops its own container exactly when some byte-second counter is limited, unflagged, reaches its limit with the sample due, and Docker stops it; it never stops another |
| EnforcementLaws.ScopeStopsIff | internal/enforcement/enforcement.go:711-741 | A scope that goes over its limit flags, and for byte-seconds stops, exactly the members it reaches and Docker acts on |
| EnforcementLaws.ScopeReleasesIff | internal/enforcement/enforcement.go:743-773 | A scope back under its limit clears exactly the flags of the members it reaches and can undo |
| EnforcementLaws.StoppedUntilStarted | internal/enforcement/enforcement.go:415-417 | Over every run a container flagged for byte-seconds does not run until somebody starts it |
| EnforcementLaws.FreezeLaw | internal/enforcement/enforcement.go:803-837 | A freeze, completely: who is frozen and paused, what is stored, and the answer |
| EnforcementLaws.UnfreezeLaw | internal/enforcement/enforcement.go:842-914 | An unfreeze, completely: the pause ends exactly when no level holds CPU or disk and Docker shows it and lifts it |
| EnforcementLaws.UnfreezeOther | internal/enforcement/enforcement.go:848-853 | Untracked and unfrozen containers are left alone, with the answer for each |
| EnforcementLaws.FreezeUnfreeze | internal/enforcement/enforcement.go:803-914 | A freeze and an unfreeze leave the container unpaused exactly when nothing holds it and Docker obeys, and nobody else touched |
| EnforcementLaws.WorkerLaw | internal/enforcement/enforcement.go:71-103 | A worker starts once without flags and with the stored frozen state, and leaves none of it when it ends |
| EnforcementLaws.RestartLaw | internal/enforcement/enforcement.go:776-785 | A restart forgets flags and blocks, keeps Docker's state and takes workers and freezes from the store |
| EnforcementLaws.RemovedAndBackIsClean | internal/enforcement/enforcement.go:71-103 | Removed and registered again a container has no flag, freeze, limit, usage or spending, and Docker's state is untouched |
| EnforcementLaws.StepIsStoreOps | internal/api/api.go:325-475 | Every step of the manager that is no tick changes the database by the store operations it stands for |
| EnforcementManager.Manager.StartContainer | internal/enforcement/enforcement.go:71-89 | Starts a worker with no flags and the stored frozen state, once |
| EnforcementManager.Manager.StopContainer | internal/enforcement/enforcement.go:92-103 | Ends the worker and forgets flags and frozen state |
| EnforcementManager.Manager.StartAll | internal/enforcement/enforcement.go:776-785 | Starts every stored container with its stored frozen state |
| EnforcementManager.Manager.IsOtherPauseActive | internal/enforcement/enforcement.go:558-591 | True exactly when frozen or held at own, host or segment level for the other pause type |
| EnforcementManager.Manager.Enforce | internal/enforcement/enforcement.go:369-450 | Acts by type; a failed call leaves the flag, "already paused" is success |
| EnforcementManager.Manager.Release | internal/enforcement/enforcement.go:452-524 | Undoes by type; unpauses only if nothing else holds; a failed call leaves the flag |
| EnforcementManager.Manager.Meter | internal/enforcement/enforcement.go:195-216 | Writes the reading, or adds a byte-second sample if unflagged, awake and not frozen |
| EnforcementManager.Manager.CheckAndEnforce | internal/enforcement/enforcement.go:162-244 | The loop over all limit types is the tick of the specification |
| EnforcementManager.Manager.ScopeEnforce | internal/enforcement/enforcement.go:711-741 | Enforces on every running member, then blocks the proxy, then sets the flag |
| EnforcementManager.Manager.ScopeRelease | internal/enforcement/enforcement.go:743-773 | Unblocks and clears the flag first, then releases every running member |
| EnforcementManager.Manager.TotalUsage | internal/enforcement/enforcement.go:670-686 | The nested loops over members and rows, plus the accumulators, give the scope's totals |
| EnforcementManager.Manager.CheckScopeEnforcement | internal/enforcement/enforcement.go:654-709 | A scope tick over every limited type in any map order, against true totals |
| EnforcementManager.Manager.Freeze | internal/enforcement/enforcement.go:803-837 | Pauses, then stores and remembers; unknown containers and Docker errors change nothing |
| EnforcementManager.Manager.Unfreeze | internal/enforcement/enforcement.go:842-914 | Clears the freeze, and unpauses unless CPU or disk enforcement at any level holds |
| ByteSeconds.CheckProjects | internal/enforcement/enforcement.go:188-234 | A tick over all types does to one byte-second counter what that counter alone would do |
| ByteSeconds.OtherSteps | internal/enforcement/enforcement.go:71-914 | Every other step leaves the counter, except that a restart forgets its flag |
| ByteSeconds.UsageIsSumOfSamples | internal/enforcement/enforcement.go:196-207 | Over every run stored byte-seconds are the initial value plus the samples of ticks that were unfrozen, not slept, running, limited and unflagged |
| ByteSeconds.Overshoot | internal/enforcement/enforcement.go:196-226 | With limit L, samples up to S and R restarts usage never exceeds L - 1 + S * (R + 1), even if users start the container again |
| ByteSeconds.OvershootIsReached | internal/enforcement/enforcement.go:196-226 | A run within the terms of that bound, with any number of restarts, reaches it |

## Left out

- HTTP, JSON, websockets, tunnelling, header and key injection, webhooks, the CLI, the dashboard and ddl-guest: plumbing and display.
- Docker and cgroup clients, SQL text, configuration files and logging: maps and inputs take their place; store calls do not fail.
- Event bus, activity lists, error de-duplication, the address map and model-name normalisation: only easy members.
- Floating point: billing is the floor of nanoseconds times bid by 10^9 where the source multiplies in floating point and truncates.
- Integer overflow: int64 values are unbounded integers.
- Interleaving inside a critical section: code under the queue's mutex is one step. A waiter stores its cancelled flag without the mutex; each section reads the flag of a request at most once, so such a store can be moved before the section if it was seen and behind it if not.
- Interleaving inside a manager operation: in the runs one tick, scope tick, freeze or unfreeze is one step, although the source releases its mutex around Docker calls; EnforcementRuns.UnpauseKeepsIff says what a late unpause needs.
- Admissions after Stop: they are steps of the protocol, but the wake-up and rest theorems say nothing once Stop has begun, since no processor is left to serve them.
- Containers paused, unpaused or started by somebody else: excluded from the pause runs; starting is part of the byte-second runs.
- Registering a registered container again: excluded from the pause runs, because it resets segment and frozen flag (see StoreTotals.ReregisterForgetsSegment); part of the spending, limit and proxy-block runs.
- Cloning: part of the limit, pause and proxy-block runs. In the spending runs only clones of containers without a spending limit (SpendingRuns.CloneInStepIff says why); it tells the tracker nothing.
- Removal in the spending runs: the tracker keeps the amount of a removed container in memory.
- Charges between the addition and its report to the store: the two are one step, so a crash in between is not a run.
- Bids stored as usage rows and restored at start-up, status listings and getters of the queue.
- The effect of network disconnects, I/O throttling and memory updates on Docker is not state: only whether the call worked is.
- The price table: prices per token are inputs of a charge.
- Interleaving inside other handlers: a registration, an assignment and a change of a spending limit write the store and tell the tracker in one step. Where two of them overlap in the source, the tracker can be left with the older value until the next change or restart.
- Interleaving inside the mode switch and inside a store operation: validating all host limits is one step, and so is a removal, although unlocked reads can fall between its statements. LimitRaces.InterleavedConsistentIff holds for whatever a handler reads.
- Calls to untracked hosts and disabled providers: the first pass and the second are refused before any gate.
