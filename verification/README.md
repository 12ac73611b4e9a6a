# sysvkit: a verified model

sysvkit runs systemd services on systems with a SysV init.  This project models its
process tracker, its service monitor, the unit-file and init-script formats, time spans,
delimited lists, and three small protocols, and proves what each of them keeps over all
inputs and all runs.  `dafny verify dfyconfig.toml` checks everything.

Each component comes as a specification on values (functions), lemmas about that
specification, and the code in the form the C source has it (classes and methods with
loops), proved to do what the specification says.

| component | specification | lemmas | code |
|---|---|---|---|
| process tracker | `ProcessTable` | `ProcessForest`, `EventProofs`, `Collection`, `CollectionRuns` | `ProcWatch` |
| watch loop of the monitor | `Watch` | `WatchProofs`, `WatchFacts`, `SignalProofs` | `MonitorCode` |
| outer loop of the monitor | `Monitor` | `MonitorProofs`, `LimitProofs`, `RestartProofs`, `SessionProofs`, `MainPidProofs`, `PolicyProofs`, `EndProofs`, `Scenarios` | `MonitorCode` |
| start limiter | `Limiter` | `Limiter` | `LimiterCode` |
| unit files | `UnitFile` | `UnitFileProofs`, `UnitLocality`, `UnitMeaning`, `UnitGrammar` | `UnitParser` |
| init scripts | `InitScript`, `TextLines` | `InitScriptProofs`, `InfoProofs`, `ExtractProofs` | `InitScriptCode` |
| time spans | `Timespan` | `TimespanProofs`, `TimespanUnits`, `TimespanGreedy` | `TimespanCode` |
| delimited lists | `StrList` | `StrList` | `StrListCode` |
| process event listener | `CnProc` | `CnProc` | `CnProc` |
| fork and report | `ForkReport` | `ForkReport`, `ForkProofs` | (steps of three parties) |
| rc directories | `RcLinks` | `RcLinks`, `RcProofs` | `RcLinks` |

## Inputs and runs

- Clocks, poll results, control requests, process events, fork results, pid-file contents,
  acknowledgements, directory orders and I/O failures are inputs.  A run is a script of such
  inputs of any length; a script that ends early leaves the run unfinished, and the safety
  results cover that point too.  The clock advances by a natural number between readings.
- The tracker assumes of the kernel what `ProcessTable.WellFormed` says: a process exits once
  and forks nothing afterwards, and neither init nor the monitor exits, starts a session or is
  dropped.  In `Watch.Track` and `Monitor.Note` any other event is passed over; the heap code of
  `MonitorCode` requires (`PossibleEvents`, `PossibleNotes`) that there is none.
- Unsigned 64-bit arithmetic is written out where it can wrap: the products of time spans,
  the deadline of a restart, and the difference in the start limiter.

## Findings

Where the code does not do what its comments or the formats promise, the model follows the
code; a lemma shows an input and another one says exactly when the promise holds.

- A stop order can be lost: forking and one-shot services overwrite the state with `running`
  when their process ends, after which the restart policy applies (`RestartProofs.StopIsLost`,
  `RestartProofs.StopsAreKeptExactly`).
- "infinity" with a blank after it is not accepted as a time span, because the length test uses the end of
  the untrimmed text (`TimespanUnits.InfinityWithBlank`, `TimespanProofs.InfinityExactly`).
- Services of all types but simple and exec can be started again with neither a policy nor an order, and
  without the limiter taking notice: dbus, notify and idle never leave `starting`, and the process of a
  forking or one-shot service may leave for a session of its own, which ends the watch in `starting`
  (`RestartProofs.StartedAgainUnnoticed`, `RestartProofs.RestartsAreOrderedExactly`,
  `RestartProofs.StartsAreRecordedExactly`).
- After a restart the state is still `restarting` when the service is watched, unless its type is simple or
  exec; once the stop timeout has passed, the new service is sent SIGTERM without any order
  (`SignalProofs.SignalledUnprovoked`, `SignalProofs.SignalsAreOrderedExactly`).
- While the monitor waits there is no callback, so a process whose fork is reported only then stays tracked
  after it has started a session of its own (`SessionProofs.StrayIsTracked`,
  `SessionProofs.EveryRunIsConfined`).
- A limit of a single start per interval is not enforced: any number of starts falls into it
  (`RestartProofs.OneStartIsNoLimit`, `RestartProofs.StartsAreBoundedExactly`).
- The main pid of a forking service is never given up: after a restart the pid file is not read again, and
  kill mode `process` signals nobody (`MainPidProofs.MainIsNeverSoughtAgain`, `MainPidProofs.OldMainStays`,
  `MainPidProofs.NewMainIsSpared`).
- Until the start ring is full its zeros count as starts at boot, so a first restart shortly
  after boot is refused (`Limiter.RefusedAfterBoot`, `Limiter.RefusalIsExact`).
- The limit on recorded starts allows one actual start more (`RestartProofs.OneStartMore`,
  `RestartProofs.StartsAreBoundedExactly`).
- A restart delay that carries the clock beyond 2^64, such as an infinite one, is no delay, and one that
  carries it exactly there is endless (`RestartProofs.EndlessDelayIsNone`,
  `RestartProofs.ExactDelayIsEndless`, `RestartProofs.DelayIsKept`).
- A time span whose product wraps is accepted with a small value
  (`TimespanUnits.WrapCounterexample`, `TimespanProofs.TimespanMeaning`).
- Deduplication while splitting merges the tokens after a repeated one
  (`StrList.DedupMergesTokens`, `StrList.DedupWhileSplitting`).
- A unit value that was reset and then appended to starts with a blank and does not survive
  printing (`UnitFileProofs.ResetThenAppendIsLost`, `UnitFileProofs.ValueSurvives`); a section
  without keys does not either (`UnitFileProofs.UnitRoundTrip`).
- A dangling link is judged by what an earlier link resolved to.  Disabling may remove it
  (`RcLinks.DisableRemovesDangling`, `RcLinks.DisableExact`); enabling may remove the good link, take the
  dangling one for ours, and report success (`RcLinks.EnableLosesLink`, `RcLinks.EnableExact`); asking goes
  wrong only through the uninitialised stat buffer (`RcLinks.QueryFindsNoLink`, `RcLinks.QueryExact`).
- A file that is no link keeps the wanted name and the failure is ignored (`RcLinks.EnableIsBlocked`,
  `RcLinks.EnableExact`).
- The comment block of a generated script has its short description under a keyword without the colon, which
  the standard does not know (`InfoProofs.NoShortDescription`, `InfoProofs.DescriptionIsThere`).
- A request to the process event connector that was never sent is waited for, and somebody
  else's acknowledgement is taken for ours (`CnProc.FailedSendWithForeignAck`,
  `CnProc.SafeUnlessMisled`).

## Model

| member | source | states |
|---|---|---|
| `ProcessForest.DropIsExact` | src/common/procwatch.c:167-187 | process_drop removes exactly the process and its current descendants from the table, the ready list and all child lists; everything else, orders included, is unchanged |
| `ProcessForest.DropForest` | src/common/procwatch.c:235-245 | dropping a process that is not a root keeps the forest |
| `ProcessForest.SubtreeSplit` | src/common/procwatch.c:167-187 | a subtree is the process and the subtrees of its children, which is what the recursion relies on |
| `ProcessForest.SiblingsDisjoint` | src/common/procwatch.c:167-187 | the subtrees of two children have nothing in common, so no process is dropped twice |
| `ProcessForest.InsertForest` | src/common/procwatch.c:100-163 | recording a fork keeps the forest |
| `ProcessForest.SetsidForest` | src/common/procwatch.c:100-163 | recording a new session keeps the forest |
| `ProcessForest.ExitForest` | src/common/procwatch.c:249-261 | an exit gives the children to init, queues the process, and keeps the forest |
| `ProcessForest.CollectForest` | src/common/procwatch.c:76-96 | collecting keeps the forest |
| `ProcessForest.ApplyForest` | src/common/procwatch.c:368-480 | every event, collection and drop keeps the forest |
| `ProcessForest.EveryRunKeepsForest` | src/common/procwatch.c:368-480 | over every run of events, collections and drops the table is a forest rooted at init and the tracker |
| `ProcessForest.EveryChainEndsAtRoot` | src/common/procwatch.c:100-163 | following parent links from any process ends at init or the tracker |
| `EventProofs.InsertNew` | src/common/procwatch.c:131-163 | a new process is accepted exactly if it is a root or its parent is known and its session, if given, is the parent's; it is then recorded under that parent, last in its child list, in its session, running, and every other entry is unchanged |
| `EventProofs.InsertKnown` | src/common/procwatch.c:104-129 | a known process is accepted exactly if it stays where it is or moves under init, and into no session but its own; the entry, the child lists of both parents and everything else, also where the session is refused after the move |
| `EventProofs.ForkIsExact` | src/common/procwatch.c:391-405 | the table after a fork, entry by entry: recorded under the process that forked, in its session, or nothing changed |
| `EventProofs.ForkSubtrees` | src/common/procwatch.c:391-405 | after a fork each subtree has grown by the new process exactly if it holds the process that forked it |
| `EventProofs.SetsidIsExact` | src/common/procwatch.c:436-450 | a new session changes that one entry; if the process is dropped, exactly its descendants go with it |
| `EventProofs.ExitIsExact` | src/common/procwatch.c:459-474 | an exit stores the status, queues the process last, and gives its children to init in order; all else is unchanged |
| `EventProofs.RestIsExact` | src/common/procwatch.c:406-458 | exec drops the subtree exactly if the callback says so; other events change nothing |
| `EventProofs.CollectIsExact` | src/common/procwatch.c:76-96 | collecting gives the first queued process with its status and takes it out of the table, the queue and its parent's list |
| `Collection.StepKeepsBooks` | src/common/procwatch.c:368-480 | after each step the exits that were not dropped are the collected ones followed by the queued ones, in order |
| `CollectionRuns.EveryRunKeepsBooks` | src/common/procwatch.c:76-96 | the same over every run; what was collected stays collected and what was dropped stays dropped |
| `CollectionRuns.CollectedExactlyOnce` | src/common/procwatch.c:76-96 | an instance is collected at most once, in exit order, with its own status, and never after being dropped |
| `CollectionRuns.NoChildrenMeansNoneTracked` | src/common/procwatch.c:29-32 | the table holds two more entries than there are tracked processes, and ECHILD is reported exactly when there are none |
| `ProcWatch.Tracker.constructor` | src/common/procwatch.c:264-275 | the heap tracker starts as the table of init and itself |
| `ProcWatch.Tracker.UnparentNode` | src/common/procwatch.c:59-69 | takes the node off its parent's child list and changes nothing else |
| `ProcWatch.Tracker.ReparentNodeChildren` | src/common/procwatch.c:48-56 | the loop moves every child, in order, to init |
| `ProcWatch.Tracker.InsertNode` | src/common/procwatch.c:100-163 | process_insert on the heap, with its refusals, does what `Insert` says |
| `ProcWatch.Tracker.EndProcess` | src/common/procwatch.c:249-261 | process_exit on the heap does what `ExitProcess` says, or nothing for an unknown pid |
| `ProcWatch.Tracker.CollectProcess` | src/common/procwatch.c:76-96 | process_collect on the heap does what `Collect` says and hands out the node itself |
| `ProcWatch.Tracker.DropRecursive` | src/common/procwatch.c:167-187 | the recursion over heap nodes ends and removes exactly the subtree from the table and the ready list |
| `ProcWatch.Tracker.DropProcess` | src/common/procwatch.c:235-245 | process_drop on the heap does what `Drop` says and keeps the forest |
| `ProcWatch.Tracker.IngestEvent` | src/common/procwatch.c:368-480 | each event on the heap does what `Ingest` says and keeps the forest |
| `WatchProofs.EscalationIsProper` | src/sysvrun/monitor.c:521-606 | in every run of the watch loop the orders are a prefix of TERM, KILL, give up, each more than the stop timeout after the one before; a pass signals all tracked processes or the main one only, as the kill mode says, never init or the monitor; mode `none` never signals |
| `WatchProofs.OverdueOrderGoesOut` | src/sysvrun/monitor.c:555-606 | an order goes out exactly when the service is being stopped, has a main process that may be killed, and the last order is more than the timeout ago |
| `WatchFacts.OneChance` | src/sysvrun/monitor.c:556-571 | a stop order without a main process gives the service one further timeout: the first overdue pass only notes the time, and the service is given up once as much time has passed again |
| `WatchFacts.GivenUpExactly` | src/sysvrun/monitor.c:556-576 | what is no longer tracked when a service is given up: the first child with its offspring without a main process, the main process with its offspring if nothing may be killed, and otherwise nothing |
| `WatchFacts.PassEndsExactly` | src/sysvrun/monitor.c:519-717 | when a pass is the last one and whether it fails, as conditions on the poll, the kill order, the status and the table |
| `WatchFacts.HarvestIsExact` | src/sysvrun/monitor.c:641-681 | after collecting, the queued processes are gone and the others unchanged; status, child, state and last pid are those of the collected processes |
| `WatchFacts.SessionRule` | src/sysvrun/monitor.c:458-490 | which new sessions are dropped, and what the session of the service then is |
| `WatchProofs.TrackConfined` | src/sysvrun/monitor.c:458-490 | one event keeps every tracked process in the monitor's or the service's session, and the service's session is set at most once, for forking services only |
| `WatchProofs.LoopConfined` | src/sysvrun/monitor.c:519-717 | the same through the whole loop, from any confined start |
| `WatchProofs.ServiceIsConfined` | src/sysvrun/monitor.c:458-490 | in every run of the loop that begins with nothing tracked the service is confined |
| `SessionProofs.NoteConfinedExactly` | src/sysvrun/monitor.c:742-779 | an event during a wait keeps the confinement exactly if it does not report a new session of a tracked process |
| `SessionProofs.BatchConfinedExactly` | src/sysvrun/monitor.c:764-774 | the same for each table along a batch of events |
| `SessionProofs.WaitConfinedExactly` | src/sysvrun/monitor.c:724-787 | the same for each table along a wait |
| `SessionProofs.EveryRunIsConfined` | src/sysvrun/monitor.c:793-997 | over every run the tables stay confined during the waits exactly if no tracked process starts a session in one, and then everything tracked is in the two sessions wherever the run stands |
| `SessionProofs.StrayIsTracked` | src/sysvrun/monitor.c:569-571 | a run from the start in which the fork of the child is read only during a wait, and the child stays tracked outside of the two sessions |
| `SignalProofs.ReadyIsLeftAlone` | src/sysvrun/monitor.c:555-606 | a simple or exec service is sent nothing after its start until an order comes in |
| `SignalProofs.SignalledUnprovoked` | src/sysvrun/monitor.c:880-911 | for each other type, a run in which the service just restarted is sent SIGTERM without an order |
| `SignalProofs.SignalsAreOrderedExactly` | src/sysvrun/monitor.c:555-606 | over all runs signals need an order since the start exactly for simple and exec services |
| `MainPidProofs.OldMainStays` | src/sysvrun/monitor.c:636-640 | over every run, restarts included, a known main pid of a forking service stays what it is |
| `WatchFacts.PassFindsMain` | src/sysvrun/monitor.c:492-513 | a pass without a main process finds one exactly if the first child is gone and the pid file names a tracked process, and then that one |
| `WatchFacts.MainIsFirstCredible` | src/sysvrun/monitor.c:636-640 | over every run of the loop the main process is the first one that the pid file named while it was tracked, and there is none before |
| `WatchFacts.StatusIsCollected` | src/sysvrun/monitor.c:674-676 | over every run of the loop the status is the one with which the main process was collected |
| `MainPidProofs.NewMainIsSpared` | src/sysvrun/monitor.c:413-425 | after a restart every pass is meant for the old main process, and in kill mode `process` reaches nobody once that is gone |
| `MainPidProofs.MainIsNeverSoughtAgain` | src/sysvrun/monitor.c:900-903 | after one life of a daemon its pid is the main pid for the rest of any run, whatever the pid file says |
| `WatchProofs.OnlyOrdersCount` | src/sysvrun/monitor.c:247-269 | requests that are not privileged, or ask for something else, do not change the state |
| `WatchFacts.LastOrderWins` | src/sysvrun/monitor.c:247-269 | from any state the last accepted request decides, except that what has ended cannot be stopped |
| `WatchProofs.StateFollowsOrders` | src/sysvrun/monitor.c:519-717 | except for forking and one-shot services, the state after watching is what the accepted orders make of it |
| `Limiter.StartHolds` | src/sysvrun/monitor.c:827-838 | the ring starts with the monitor's own start |
| `Limiter.UnderCursor` | src/sysvrun/monitor.c:849-856 | the value under the cursor is the start one ring length back, or zero |
| `Limiter.RecordHolds` | src/sysvrun/monitor.c:864-867 | recording keeps the ring equal to the last starts |
| `Limiter.RefusalIsExact` | src/sysvrun/monitor.c:849-864 | a start is refused exactly when too many came before it or a ring not yet full is younger than the interval; the promise alone holds exactly when the ring is full or the clock has passed the interval |
| `Limiter.RefusedAfterBoot` | src/sysvrun/monitor.c:849-864 | the second of five allowed starts is refused shortly after boot |
| `Limiter.AdmittedStaySpaced` | src/sysvrun/monitor.c:849-867 | an admitted start keeps any ring length of starts an interval apart |
| `Limiter.WindowIsSmall` | src/sysvrun/monitor.c:849-867 | no half-open interval holds more starts than the ring is long, if they are spaced |
| `LimiterCode.StartLimiter.constructor` | src/sysvrun/monitor.c:827-838 | the array and cursor at start, with the cap of 100 and the cases without a limit |
| `LimiterCode.StartLimiter.Admit` | src/sysvrun/monitor.c:849-867 | on the array: refuses or records as `Refuses` and `Record` say, and a refusal changes nothing |
| `LimitProofs.RestartRefusedExactly` | src/sysvrun/monitor.c:843-867 | any time after every run the limiter refuses a restart exactly when the recorded starts say so, or shortly after boot |
| `LimitProofs.RecordsAreLimited` | src/sysvrun/monitor.c:843-867 | over every run of any service no interval holds more recorded starts than the limit, as long as the clock plus the delay fits into 64 bits |
| `LimitProofs.StartsAreLimited` | src/sysvrun/monitor.c:843-890 | for simple and exec services every fork has its own record, and no interval holds more than one fork beyond the limit |
| `RestartProofs.OneStartMore` | src/sysvrun/monitor.c:843-890 | for every interval and every larger limit, a run with one fork more than allowed in the interval: the bound is reached |
| `RestartProofs.StartsAreBoundedExactly` | src/sysvrun/monitor.c:827-890 | over all runs of a simple or exec service a number bounds the starts in any interval exactly if the interval is empty, or more than one start is allowed and the number is at least the limit plus one |
| `MonitorProofs.WaitFollowsOrders` | src/sysvrun/monitor.c:724-787 | a wait ends with the state its orders lead to, and with that state unchanged only at a deadline that has passed |
| `MonitorProofs.StopIsKeptUnlessLate` | src/sysvrun/monitor.c:841-986 | for all other types than forking and one-shot: after a stop order and no later restart order nothing is forked, and the monitor ends stopped or broken, never failed |
| `RestartProofs.StopIsLost` | src/sysvrun/monitor.c:661-690 | a forking or one-shot service that ends while a stop order stands is forked again |
| `RestartProofs.StopsAreKeptExactly` | src/sysvrun/monitor.c:841-986 | stop orders are kept over all runs exactly for the types that are neither forking nor one-shot |
| `RestartProofs.StartedAtMostOnce` | src/sysvrun/monitor.c:910-969 | a simple or exec service with policy `no` and no restart order is forked at most once |
| `RestartProofs.StartedAgainUnnoticed` | src/sysvrun/monitor.c:880-943 | each type but simple and exec has a run in which the service is forked again without order, policy or record |
| `RestartProofs.RestartsAreOrderedExactly` | src/sysvrun/monitor.c:910-969 | without a policy a second fork needs a restart order, over all runs, exactly for simple and exec services |
| `RestartProofs.StartsAreRecordedExactly` | src/sysvrun/monitor.c:843-890 | every fork has its record, over all runs, exactly for simple and exec services |
| `RestartProofs.OneStartIsNoLimit` | src/sysvrun/monitor.c:827-838 | with a limit of at most one start, any number of starts of a simple or exec service falls into any interval |
| `RestartProofs.DelayIsKept` | src/sysvrun/monitor.c:845 | the deadline is the clock plus the delay exactly when that fits into 64 bits, lies in the past when it goes beyond, and is zero when it is exactly 2^64 |
| `RestartProofs.EndlessDelayIsNone` | src/sysvrun/monitor.c:724-787 | a wait with such a deadline is over at once, whatever comes in |
| `RestartProofs.ExactDelayIsEndless` | src/sysvrun/monitor.c:735-752 | a wait whose deadline came out as zero ends only through an order |
| `PolicyProofs.WhatFollows` | src/sysvrun/monitor.c:916-969 | the next state for every policy and every wait status, by the numbers of the exit code and the signal: restarted, remaining, failed or stopped, each exactly when |
| `PolicyProofs.WhatFollowsOrders` | src/sysvrun/monitor.c:910-915 | a service that was ordered to stop or restart, or whose loop failed, is not subject to its policy |
| `PolicyProofs.ForkedAgainExactly` | src/sysvrun/monitor.c:843-969 | a service that ended by itself and does not remain is forked again in an undisturbed turn exactly if its last status is one for which its policy asks and the limiter admits it |
| `PolicyProofs.RefusedRestartFails` | src/sysvrun/monitor.c:846-867 | a refused restart makes the service fail, with the limit counted over at most 100 starts |
| `EndProofs.WaitEndsOnTime` | src/sysvrun/monitor.c:735-752 | with no orders a wait ends with the first poll at or after its deadline and not before |
| `EndProofs.WaitBreaksOff` | src/sysvrun/monitor.c:748-779 | a failing poll, control session or event connection ends the wait and the monitor |
| `EndProofs.WaitForgetsTheDead` | src/sysvrun/monitor.c:764-779 | what ends during a wait is forgotten: the queued processes are gone and the others unchanged |
| `EndProofs.FailedForkEnds` | src/sysvrun/monitor.c:886-890 | a service that cannot be forked ends the monitor, whatever its policy |
| `EndProofs.EndsAsOrdered` | src/sysvrun/monitor.c:793-997 | over every run in which nothing outside of it fails the monitor never breaks down, and a stop order that stands when it ends, for a type that keeps them, has it end as stopped |
| `MonitorCode.ServiceMonitor.constructor` | src/sysvrun/monitor.c:793-840 | the monitor enters its loop starting, with an empty tracker and one recorded start |
| `MonitorCode.ServiceMonitor.Serve` | src/sysvrun/monitor.c:227-298 | a session changes the state as its requests say, in order |
| `MonitorCode.ServiceMonitor.IngestAll` | src/sysvrun/monitor.c:625-628 | the ingest loop with the session callback does to the heap tracker what `TrackAll` says |
| `MonitorCode.ServiceMonitor.Reap` | src/sysvrun/monitor.c:641-681 | the collecting loop empties the ready list and accounts for the child and the main process as `CollectAll` says |
| `MonitorCode.ServiceMonitor.Signal` | src/sysvrun/monitor.c:413-425 | a pass reaches exactly the tracked processes, or the main one among them |
| `MonitorCode.ServiceMonitor.Press` | src/sysvrun/monitor.c:555-606 | the kill order on the monitor's fields does what `Escalate` says |
| `MonitorCode.ServiceMonitor.SeekMain` | src/sysvrun/monitor.c:492-513 | the main pid is taken from the pid file only if it is tracked |
| `MonitorCode.ServiceMonitor.DigestBatch` | src/sysvrun/monitor.c:622-710 | the second half of a pass does what `Digest` says, with the same way out |
| `MonitorCode.ServiceMonitor.WatchService` | src/sysvrun/monitor.c:519-717 | the watch loop does what `Loop` says over every script, from whatever was tracked before, and leaves an emptied tracker |
| `MonitorCode.ServiceMonitor.NoteEvents` | src/sysvrun/monitor.c:764-774 | the ingest loop of a wait does to the heap tracker what `NoteAll` says |
| `MonitorCode.ServiceMonitor.DiscardAll` | src/sysvrun/monitor.c:775-778 | the collecting loop of a wait empties the ready list as `Discard` says |
| `MonitorCode.ServiceMonitor.WaitUntil` | src/sysvrun/monitor.c:724-787 | the wait loop, with the events it ingests and the processes it collects, does what `WaitFor` says |
| `MonitorCode.ServiceMonitor.Conclude` | src/sysvrun/monitor.c:916-969 | the state after the service is gone, by exit status, signal, remain-after-exit and policy |
| `MonitorCode.ServiceMonitor.Limit` | src/sysvrun/monitor.c:846-867 | the start limit on the array does what `Throttle` says |
| `MonitorCode.ServiceMonitor.RestartService` | src/sysvrun/monitor.c:843-879 | the restarting state: limiter, wait, and start |
| `MonitorCode.ServiceMonitor.StartService` | src/sysvrun/monitor.c:880-909 | the starting state: fork, readiness and main process by type, then watching |
| `MonitorCode.ServiceMonitor.RunService` | src/sysvrun/monitor.c:793-997 | the outer loop on the fields, the array and the heap tracker, waits included, does what `Run` says, so all results about runs hold of it |
| `UnitFileProofs.HeaderLine` | src/sysvrun/systemd.c:219-260 | a printed section header is read as that section |
| `UnitFileProofs.PairLine` | src/sysvrun/systemd.c:261-360 | a printed pair is read as that pair, for every canonical value |
| `UnitFileProofs.ParsePrinted` | src/sysvrun/systemd.c:190-379 | parsing a printed unit adds its listed sections to what was there |
| `UnitFileProofs.UnitRoundTrip` | src/common/unit.c:171-204 | parsing what is printed for a canonical unit, in any order of sections and keys, gives back its nonempty sections; the whole unit exactly if no section is empty |
| `UnitFileProofs.ValueSurvives` | src/sysvrun/systemd.c:292-328 | among the values that can be read exactly the canonical ones survive printing and parsing |
| `UnitFileProofs.ResetThenAppendIsLost` | src/common/unit.c:81-120 | a value reset and appended to does not survive |
| `UnitFileProofs.ContinuationIsSpace` | src/sysvrun/systemd.c:292-328 | a continuation with comment lines reads as one space |
| `UnitFileProofs.ContinuationPreservesMeaning` | src/sysvrun/systemd.c:292-328 | breaking a value with a continuation and comments leaves the parse from that line on unchanged |
| `UnitLocality.LineLocal` | src/sysvrun/systemd.c:203-360 | a line that ends before some text is read in the same way before any other text |
| `UnitLocality.ContinuationAnywhere` | src/sysvrun/systemd.c:190-379 | the same for a whole file, with anything before the line that the parser reads up to it |
| `UnitMeaning.AssignmentsJoin` | src/sysvrun/systemd.c:357-358 | after any assignments to a key its value is that of those since the last empty one, joined with single spaces |
| `UnitMeaning.EntryIsExact` | src/common/unit.c:81-120 | the same, with all other keys and sections unchanged |
| `UnitMeaning.AssignmentsInFile` | src/sysvrun/systemd.c:190-379 | the same for the lines of a file |
| `UnitMeaning.TwoWants` | src/sysvrun/systemd.c:357-358 | a file that wants two units wants both, in order |
| `UnitMeaning.CommentsAnywhere` | src/sysvrun/systemd.c:207-218 | comment lines of both kinds and empty lines change nothing, anywhere in a file |
| `UnitGrammar.SpacingMeansNothing` | src/sysvrun/systemd.c:276-328 | any blanks around the equals sign and between the words of a value mean what single spaces mean |
| `UnitGrammar.HeaderExactly` | src/sysvrun/systemd.c:219-260 | a header is accepted exactly if the name is not empty, has at most 254 characters and nothing follows the bracket |
| `UnitGrammar.AssignmentExactly` | src/sysvrun/systemd.c:261-360 | an assignment is accepted exactly if a section has begun, the key has at most 254 characters and the value at most 1022 |
| `UnitGrammar.NoAssignment` | src/sysvrun/systemd.c:263-285 | a line without a key, or without an equals sign after it, is refused |
| `UnitGrammar.KeyCharacters` | src/sysvrun/systemd.c:263-274 | a key may consist of ASCII letters, digits and hyphens and of nothing else |
| `UnitGrammar.UnfinishedLine` | src/sysvrun/systemd.c:210-215 | a last line without its newline is refused, if it is a comment |
| `UnitGrammar.UnfinishedHeader` | src/sysvrun/systemd.c:219-260 | the same for a header |
| `UnitGrammar.UnfinishedPair` | src/sysvrun/systemd.c:261-360 | the same for an assignment |
| `UnitParser.UnitTable.UpdateValue` | src/common/unit.c:81-120 | sets or appends a value and reports whether the key existed |
| `UnitParser.UnitTable.ToText` | src/common/unit.c:171-204 | prints the tables in the given enumeration |
| `UnitParser.ReadName` | src/sysvrun/systemd.c:221-226 | the name loop stays inside its buffer and stops at the first other character |
| `UnitParser.SkipCommentLines` | src/sysvrun/systemd.c:294-306 | the loop over comment lines after a continuation stops where `SkipComments` says |
| `UnitParser.ReadValue` | src/sysvrun/systemd.c:292-328 | the value loop on the buffer collects what `ScanValue` says, truncation included |
| `UnitParser.ReadHeader` | src/sysvrun/systemd.c:219-260 | the header branch does what `ParseHeader` says, errors included |
| `UnitParser.ReadPair` | src/sysvrun/systemd.c:261-360 | the pair branch does what `ParsePair` says; an error leaves the unit alone |
| `UnitParser.ParseUnitFile` | src/sysvrun/systemd.c:190-379 | the character-level parser succeeds exactly when `Parse` does, with the same unit |
| `TextLines.HitLine` | src/common/text.c:230-319 | a matching line is found where it stands |
| `TextLines.MissLine` | src/common/text.c:258-355 | a line that does not match is passed over |
| `TextLines.Search` | src/common/text.c:230-319 | the scanning loop finds the first matching line, by prefix or as a whole |
| `TextLines.LineCursor.Next` | src/common/text.c:258-355 | the cursor moves to the next matching line, or not at all |
| `InitScriptProofs.UnitIsLines` | src/common/unit.c:171-204 | a printed canonical unit is a list of lines of two shapes |
| `InitScriptProofs.ProvidesItsName` | src/sysvrun/sysvinit.c:40-54 | the Provides line names the service exactly if the name does not start with a blank |
| `InitScriptProofs.SearchesFind` | src/sysvrun/sysvinit.c:19-83 | in any text of this layout the searches narrow to exactly the lines between the embedding markers, and only for the right name |
| `InitScriptProofs.ScriptIsUnambiguous` | src/sysvrun/service.c:364-410 | no line of a generated script can be taken for a marker |
| `InitScriptProofs.ConvertFindsUnit` | src/sysvrun/sysvinit.c:19-83 | in a generated script the parser narrows to exactly the unit text, unless the name starts with a blank |
| `InitScriptProofs.ConvertRoundTrip` | src/sysvrun/service.c:364-410 | converting a service and reading the script gives its unit back |
| `ExtractProofs.ExtractExactly` | src/sysvrun/sysvinit.c:19-83 | on any list of lines: which of the five markers are found one behind the other decides between invalid, missing and found, and the unit is the lines between the last two |
| `ExtractProofs.ProvidesFirstWord` | src/sysvrun/sysvinit.c:40-54 | the script is that of the service exactly if the first facility is its name |
| `InfoProofs.OrderIsReadBack` | src/sysvrun/service.c:380-400 | a reader of the comment block gets back the services to be started first, both kinds, and run levels 2 to 5 |
| `InfoProofs.NoShortDescription` | src/sysvrun/service.c:401-404 | no generated script has a short description as the standard spells the keyword |
| `InfoProofs.DescriptionIsThere` | src/sysvrun/service.c:401-404 | the description of the unit stands behind the keyword without its colon |
| `InfoProofs.ExecWords` | src/sysvrun/service.c:406 | the command of the script, word by word |
| `InitScriptCode.ServiceToText` | src/sysvrun/service.c:364-410 | the generator writes the script |
| `InitScriptCode.NameMatches` | src/sysvrun/sysvinit.c:40-54 | the pointer loop compares the name after blanks |
| `InitScriptCode.FindEmbedded` | src/sysvrun/sysvinit.c:19-79 | the sequence of cursor searches does what `Extract` says |
| `InitScriptCode.ReadInitScript` | src/sysvrun/sysvinit.c:19-83 | a unit comes back exactly when the embedded text is found and parses |
| `TimespanProofs.AcceptedIsRendering` | src/common/timespan.c:96-145 | the parser accepts nothing but lists of terms |
| `TimespanProofs.FromStrOfTerms` | src/common/timespan.c:59-145 | any list of terms with blanks anywhere is accepted and added up |
| `TimespanProofs.TotalIsWrappedSum` | src/common/timespan.c:133-145 | the sum is that of the wrapped products, or invalid |
| `TimespanProofs.TimespanMeaning` | src/common/timespan.c:59-145 | the result is the exact sum, or invalid from 2^64-1 on, exactly when no product wraps or the result is invalid anyway |
| `TimespanProofs.UnitlessMeaning` | src/common/timespan.c:80-94 | a bare number counts seconds, under the same condition |
| `TimespanProofs.InfinityExactly` | src/common/timespan.c:74-78 | the word for an endless time span, with any blanks around it, is read as such exactly if no blank follows it, and is invalid otherwise |
| `TimespanProofs.PrintedFacts` | src/common/timespan.c:156-204 | printed units strictly decrease, counts are at least one, and the sum is the value |
| `TimespanGreedy.PrinterIsGreedy` | src/common/timespan.c:156-204 | for each printed term, what is left to print from it on is less than every larger unit of the table, and its name is the last one for its unit |
| `TimespanProofs.TimespanRoundTrip` | src/common/timespan.c:156-204 | every value but TS_INVALID is read back from what is printed |
| `TimespanUnits.UnitsAreGood` | src/common/timespan.c:20-31 | the unit table has what the other results need |
| `TimespanUnits.WrittenMeaning` | src/common/timespan.c:20-31 | `TimespanMeaning` for the units of the program |
| `TimespanUnits.WrittenRoundTrip` | src/common/timespan.c:20-31 | `TimespanRoundTrip` for the units of the program |
| `TimespanGreedy.UnitsRise` | src/common/timespan.c:20-31 | the unit table is sorted by value |
| `TimespanGreedy.UnitRatios` | include/timespan.h:7-15 | how the units relate: 1000, 60, 24, 7, and 30.44 and 365.25 days for a month and a year |
| `TimespanGreedy.LeadingSpace` | src/common/timespan.c:59-66 | spaces, tabs and newlines in front do not matter |
| `TimespanGreedy.SecondsExactly` | src/common/timespan.c:80-94 | what a bare decimal number is read as, for every number |
| `TimespanUnits.InfinityWithBlank` | src/common/timespan.c:75 | "infinity" is read and "infinity " is not |
| `TimespanUnits.WrapCounterexample` | src/common/timespan.c:133 | "18446744073710s" is read as 448384 microseconds |
| `TimespanCode.TimespanFromStr` | src/common/timespan.c:52-154 | the parse loop returns `FromStr` |
| `TimespanCode.ReadTerm` | src/common/timespan.c:97-143 | one round of the loop reads one term, or fails as the specification does |
| `TimespanCode.FindUnit` | src/common/timespan.c:122-131 | the table search finds the unit of that name, if there is one |
| `TimespanCode.TimespanToStr` | src/common/timespan.c:156-204 | returns the full length; a buffer receives as much as fits, and a terminator; the rest of it is untouched |
| `StrList.DelimRoundTrips` | src/common/strlist.c:55-125 | joining the blank-keeping split gives back every string; splitting the join gives back every nonempty list of delimiter-free strings |
| `StrList.DedupWhileSplitting` | src/common/strlist.c:68-80 | splitting with dedup gives the deduplicated split exactly when no kept piece but the last repeats an earlier one |
| `StrList.DedupMergesTokens` | src/common/strlist.c:75 | "a:a:b" becomes "a" and "a:b" for any a and b |
| `StrList.DedupOrder` | src/common/strlist.c:93-125 | deduplication keeps the order of first occurrences |
| `StrList.RebuiltPathEntries` | src/sysvrun/command.c:237-247 | the rebuilt PATH starts with our directory, has no duplicates, and otherwise the nonempty entries of the old one in order of first occurrence |
| `StrListCode.StrListFromDelim` | src/common/strlist.c:55-88 | the scanning loop returns `FromDelim` |
| `StrListCode.StrListToDelim` | src/common/strlist.c:93-125 | the joining loop returns `ToDelim` |
| `CnProc.SafeUnlessMisled` | src/common/cn_proc.c:189-250 | a call keeps the count right from every right state exactly if no acknowledgement misleads it |
| `CnProc.EveryRunIsSafe` | src/common/cn_proc.c:45-55 | over every run in which no request that is sent gets a misleading acknowledgement we are counted while listening, and the count is never negative |
| `CnProc.NetIsDifference` | src/common/cn_proc.c:189-250 | the count is the number of delivered enables less that of delivered disables |
| `CnProc.DisablesNeverExceedEnables` | src/common/cn_proc.c:189-250 | under the same condition there are never more delivered disables than enables |
| `CnProc.ListenExactly` | src/common/cn_proc.c:189-250 | a request is made only to change something; it succeeds exactly if the first acknowledgement after any events is without error, and what the flag and the count then are in each case |
| `CnProc.OpenExactly` | src/common/cn_proc.c:24-55 | over every run the connection is open exactly if a successful connect came last |
| `CnProc.FailedSendWithForeignAck` | src/common/cn_proc.c:58-93 | a failed send and somebody else's acknowledgement make the count -1 |
| `CnProc.Connector.SetListening` | src/common/cn_proc.c:189-250 | cn_proc_listen on the static variables does what `Listen` says |
| `CnProc.Connector.Shut` | src/common/cn_proc.c:45-55 | cn_proc_disconnect does what `Disconnect` says |
| `CnProc.Connector.Reconnect` | src/common/procwatch.c:315-325 | reconnecting keeps the count right, and success means that we are counted |
| `ForkReport.EveryRunInv` | src/common/fork.c:60-223 | the protocol's invariant holds in every interleaving, child death included |
| `ForkReport.ReportProtocol` | src/common/fork.c:143-223 | a positive result is the child's pid with the pipe closed and no code sent; any other is the generic failure or the negated magnitude of the return value |
| `ForkProofs.ResultExactly` | src/common/fork.c:143-223 | in every interleaving in which the parent's own reads work, its result is the negated failure if the function failed, had not reported readiness and got its code across, and otherwise the pid if the child came to report it, and -1 if not |
| `ForkReport.ReadyIsFinal` | src/common/fork.c:248-252 | after report_ready no return value changes the parent's result |
| `ForkReport.NoWriterNoWait` | src/common/fork.c:143-223 | a reading parent can go on once every writer is gone |
| `RcLinks.WalkExact` | src/systemctl/service.c:201-235 | the directory loop removes exactly the links it takes for the service's and may remove |
| `RcLinks.ClaimedExactly` | src/systemctl/service.c:201-235 | the loop takes for the service's exactly the links to it and the stale dangling ones |
| `RcLinks.ClaimedIsTargets` | src/systemctl/service.c:201-235 | these are the links to the service exactly if no dangling link is judged by an earlier one |
| `RcLinks.DisableExact` | src/systemctl/service.c:182-250 | disable removes every link to the service, and nothing else exactly under that condition |
| `RcLinks.EnableExact` | src/systemctl/service.c:182-250 | enable leaves the wanted link as the only one exactly if no other file has its name and it is not itself stale; it removes the other links to the service and the other stale ones, touches nothing else, and reports a link also for a stale one |
| `RcLinks.QueryExact` | src/systemctl/service.c:182-250 | a query changes nothing and finds nothing exactly if there is neither a link to the service nor a stale one; it errs only if the stat buffer happened to describe the service |
| `RcLinks.EnableLosesLink` | src/systemctl/service.c:205-241 | enable removes the good link, keeps a dangling one under the wanted name, and reports a link |
| `RcLinks.DisableRemovesDangling` | src/systemctl/service.c:205-227 | disable removes a dangling link of somebody else |
| `RcLinks.EnableIsBlocked` | src/systemctl/service.c:236-241 | enable leaves a file under the wanted name alone and reports no error |
| `RcLinks.QueryFindsNoLink` | src/systemctl/service.c:205-220 | a query finds a link where there is none |
| `RcLinks.ErrorMakesNoLink` | src/systemctl/service.c:236-250 | after an error nothing was created or altered |
| `RcProofs.ErrorsExactly` | src/systemctl/service.c:201-250 | what a call answers and leaves when links cannot be removed or made: what fails stays, the rest is done, and a link is made only if every removal went well |
| `RcProofs.BrokenEndsScan` | src/systemctl/service.c:205-208 | the first link that stat fails on ends the call with that error; what was read before is done, the rest is left alone |
| `RcLinks.EnableAll` | src/systemctl/service.c:256-271 | enable leaves exactly one correctly named link in each run level |
| `RcProofs.EnabledNames` | src/systemctl/service.c:191-195 | after enabling, the only link is named S20 and the service in run levels 2 to 5 and K80 and the service in the others |
| `RcProofs.AnswerIsCount` | src/systemctl/service.c:256-274 | without errors the answer is the number of run levels that had a link, and otherwise the last error |
| `RcProofs.ChangeAnswers` | src/systemctl/service.c:305-320 | enabling answers whether a run level had the right link, disabling whether it had any |
| `RcLinks.DisableAll` | src/systemctl/service.c:256-271 | disable leaves no link to the service and removes nothing else, where all links resolve |
| `RcLinks.EnableIsIdempotent` | src/systemctl/service.c:305-320 | enabling again changes nothing |
| `RcLinks.EnableQueryDisable` | src/systemctl/service.c:283-320 | is-enabled finds seven links after enable and none after disable |
| `RcLinks.RcDirectory.Manipulate` | src/systemctl/service.c:182-250 | the loop on the directory does what `ManipRl` says, for every job, order and failure |

## Left out

- Sockets, poll, netlink framing, pipe set-up, waitpid, execve, chroot and syslog: only their results appear, as inputs.
- `process_remove`: has no caller and does not take the process off its parent's child list.
- `systemd_split_quoted`, `environment.c` and the deletion of unit values by a null value.
- Unit text with bytes outside ASCII.
- The construction of the dependency lists of a service: a filter over words, easy beside the rest.
- The monitor's control client, service_start, service_stop and status, the systemctl commands and exit codes, option parsing and logging.
- A failing opendir in the rc directories, which service_manip reports while going on with the other run levels.
- The order in which a kill pass visits processes, and the SIGCONT after each signal.
- MonitorCode.ServiceMonitor.Abandon: states only that the tracker stays valid, because the tracker is emptied right after; a root named by a pid file is left to that.
- UnitParser.ReadName: counts all characters where the source stops counting at the end of its buffer; the outcome is an error in both.
