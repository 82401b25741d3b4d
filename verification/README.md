# Verified models of the Bluetooth stack's stateful components

A Dafny 4.11 model of eight stateful components of the Android Bluetooth module, with proofs of what every
run, every interleaving or every history of them keeps. `dafny verify dfyconfig.toml` checks all of it.

Each component comes in two layers. A pure layer says what every operation, locked section or callback does to the
abstract state, and holds the theorems about whole runs. An imperative layer holds the classes, with the
source's own fields and loops; each method is proved to change the abstract state exactly as the pure layer says.

| component | pure layer | classes |
|---|---|---|
| LRU cache (`system/common/lru.h`) | `Recency`, `LruHistory` | `LruCache` (circular doubly linked list, map from keys to nodes) |
| Metric id allocator (`system/common/metric_id_allocator.cc`) | `MetricIds`, `MetricIdEviction` | `MetricIdAllocator` over two `LruCache` objects |
| Module registry (`system/gd/module.cc`) | `ModuleGraph`, `ModuleLifecycle` | `ModuleRegistry` |
| Message loop thread (`system/common/message_loop_thread.cc`) | `MessageLoopProtocol` | `MessageLoopThread` |
| Repeating timer (`system/common/repeating_timer.cc`) | `TimerArithmetic` | `RepeatingTimer` |
| Metrics logger (`system/common/metrics.cc`, `leaky_bonded_queue.h`) | `A2dpMetrics`, `MetricsSessions`, `SessionHistory` | `LeakyBondedQueue`, `MetricsLogger` |
| Audio output stream and port (`system/audio_bluetooth_hw`) | `StreamProtocol`, `StreamThreads`, `StreamPosition`, `AudioParams` | `AudioStream` |
| Auto-on timer (`service/src/AutoOnFeature.kt`) | `AutoOnTimer` | `AutoOnFeature` |

## How the outside world enters

- Clocks, booleans answered by callbacks or by the stack, and thread objects are parameters.
- Callbacks, alarms, lifecycle events, joins and deletions are recorded in logs that are part of the state, so
  that "exactly once" and "only after" are statements about those logs.
- Deleted objects (module instances, handlers, loops, thread objects) are tracked as sets of live objects.
- Several threads are modelled by steps with a program counter per thread; a step is one section under the mutex, or
  one access outside it. The run theorems hold for any number of threads and any interleaving.
- Integer widths are written out where they matter (the timer's clocks, the session duration). The numbers of
  frames, milliseconds and events are unbounded.

## Promises that do not hold as stated

Each comes with an input on which it fails and the exact condition under which it holds.

- *A write that begins while A2DP is suspended never reaches the port.* `out_write` looks at the state and resumes in
  two sections, and `A2dpSuspended=false` may be handled in between (`BornSuspendedCanWriteLater`). It never reaches
  the port during that suspension (`NoNewDataWhileSuspended`); only a write past its check when the suspension was
  handled does (`OnlyEarlierWrites`). After its resume section it can reach the port exactly when
  that found the port started, or in standby with the stack taking the request (`ResumeDecides`,
  `SuspendedWriteReaches`), which takes the suspension to be over (`OnlyReleasedWritesReach`).
- *`frames_presented_` counts all frames since the stream was opened and is never reset* (`stream_apis.h`). Closing and
  exiting zero it (`PresentedCanDrop`), exactly under the guard of `PresentedFalls`; it counts all frames exactly when no
  such step found any (`PresentedIsTotal`).
- *`Dequeue` returns null on an empty queue* (`leaky_bonded_queue.h`). The code takes the front of the empty queue, which
  is undefined; the promise is met exactly on non-empty queues (`DequeueAsDocumented`). `MetricsLogger.Drain` shows
  that the logger dequeues only from those.
- *The first delay of a periodic timer lies between zero and one period.* Exactly if cancelling the previous task
  took no longer than one period (`FirstDelayIs`, with a negative delay in `FirstDelayCanBeNegative`).
- *Init leaves the allocator's indexes in agreement.* As long as the paired and the saved devices together fit the paired
  cache: exactly when no two saved devices share an id, no saved address is a temporary device, and the saved ids that
  were in use are exactly those the saved addresses had (`InitInv`, with failing inputs in `InitCanFail`). `Init` checks
  none of it.
- *Parsing undoes printing.* Exactly for non-empty keys and keys and values without separators (`RoundTrip`,
  `RoundTripCanFail`).

## Model

The theorems come first, the methods of the classes after them. Class methods that only set the fields their
pure-layer step sets have no row of their own.

| member | source | states |
|---|---|---|
| `Recency.AsMapPut` | system/common/lru.h:125-145 | a write binds the key, drops at most the evicted key, leaves every other binding alone, keeps keys unique and the size within capacity |
| `Recency.AsMapTouch` | system/common/lru.h:76-84 | a lookup permutes the entries and changes no binding |
| `Recency.IndexedTouch` | system/common/lru.h:76-84 | moving the found node to the head keeps every key mapped to its own node |
| `LruHistory.RunExplained` | system/common/lru.h:61-167 | after any sequence of operations keys are unique, the size is within capacity, the order is by last touch as read off the operations alone, and every value is the one last written |
| `LruHistory.PutEvictsLeastRecent` | system/common/lru.h:125-145 | in any history a write of a new key into a full cache drops exactly the least recently touched key with its last written value, and every other write drops nothing |
| `LruHistory.OthersOnlyRemove` | system/common/lru.h:61-167 | the other operations change the set of keys only by what they are told to remove |
| `MetricIds.Pigeonhole` | system/common/metric_id_allocator.cc:41-45 | more consecutive ids than there are ids in use cannot all be in use |
| `MetricIds.FirstFreeIsUnique` | system/common/metric_id_allocator.cc:125-132 | the first free id in cyclic order from the cursor is the only one with all ids before it taken |
| `MetricIds.IdsBound` | system/common/metric_id_allocator.cc:41-45 | the invariant bounds the ids in use by the two capacities, strictly below the id range |
| `MetricIds.StepKeeps` | system/common/metric_id_allocator.cc:113-197 | each call keeps the invariant, drops at most the one evicted or forgotten owner, and binds a new address only to an id nobody holds |
| `MetricIds.RunInv` | system/common/metric_id_allocator.cc:113-197 | in every state of every run the index is exactly the ids held, no two addresses share an id, no address is in both caches, and all ids and the cursor are in range |
| `MetricIds.RunBound` | system/common/metric_id_allocator.cc:41-45 | no run is ever short of a free id |
| `MetricIds.IdIsStable` | system/common/metric_id_allocator.cc:113-190 | over any stretch of a run an address keeps its id, through saving too, unless it is evicted or forgotten |
| `MetricIds.OwnerIsKnown` | system/common/metric_id_allocator.cc:113-122 | owning an id is being found with that id in one of the caches |
| `MetricIds.CallbacksMirrorPaired` | system/common/metric_id_allocator.cc:146-197 | a record kept by following the save and forget callbacks equals the paired cache after every call |
| `MetricIds.SaveTells` | system/common/metric_id_allocator.cc:160-171 | a device newly paired is reported with the id it keeps, after the device it evicts, if any, with its id |
| `MetricIds.OthersTell` | system/common/metric_id_allocator.cc:113-197 | a device forgotten is reported with its id, and nothing else is ever reported |
| `MetricIds.ReuseGap` | system/common/metric_id_allocator.cc:113-143 | between two fresh issues of the same id at least 334 other distinct ids are issued fresh, whatever is called in between |
| `MetricIdEviction.RunOrdered` | system/common/metric_id_allocator.cc:113-190 | in every run both caches are in order of the last call that asked for each device, read off the calls alone |
| `MetricIdEviction.EvictsLeastRecent` | system/common/metric_id_allocator.cc:133-137 | in every run a call that evicts finds its cache full and drops a device such that no other device there was last asked for earlier |
| `MetricIds.SearchEnds` | system/common/metric_id_allocator.cc:41-45 | whenever every indexed id is held by some device, there is a free id, shared ids or not |
| `MetricIds.StepSearchable` | system/common/metric_id_allocator.cc:113-190 | every call leaves every indexed id held by some device, so the next search ends too |
| `MetricIds.LoadMerges` | system/common/metric_id_allocator.cc:64-75 | loading distinct addresses that fit the cache together with the paired ones evicts nobody; the cache then holds the saved map over what it held, and the index the saved ids besides those it had |
| `MetricIds.InitInv` | system/common/metric_id_allocator.cc:51-86 | whatever devices there are, as long as the paired and the saved ones together fit the cache and the saved ids are in range, loading keeps the invariant exactly when no two saved devices share an id, no saved address is a temporary device, and the saved ids that were in use are exactly those the saved addresses had |
| `MetricIds.InitCanFail` | system/common/metric_id_allocator.cc:51-86 | two saved devices with one id break the invariant, so does a saved id given out to another device before, and so does a paired device saved with another id, while one saved with its own id does not |
| `MetricIds.InitCursor` | system/common/metric_id_allocator.cc:63-79 | after loading, the cursor stands just past the largest saved id, or at the least id if that was the last one or nothing was saved |
| `MetricIds.InitSearchable` | system/common/metric_id_allocator.cc:51-86 | under the same bound, after loading every indexed id is held by some device exactly when each id in use is saved again or held by a device that is not saved |
| `MetricIds.NoneLeftByNobody` | system/common/metric_id_allocator.cc:51-86 | with nobody paired before, that holds whatever is loaded, shared ids or not |
| `MetricIds.RunSearchable` | system/common/metric_id_allocator.cc:113-190 | from any such state every search of every run ends |
| `ModuleGraph.DepRank` | system/gd/module.cc:80-82 | in an acyclic relation a dependency reaches strictly fewer modules, which makes the recursion end |
| `ModuleLifecycle.StartOneEffect` | system/gd/module.cc:70-92 | starting a module starts exactly what it reaches and is not started yet, touches nothing older, leaves no object unregistered, and keeps the registry sound |
| `ModuleLifecycle.StartAllEffect` | system/gd/module.cc:59-63 | the same for a list of modules |
| `ModuleLifecycle.StartsExactlyOnce` | system/gd/module.cc:59-92 | the trace shows each reachable module that was not started constructed and started exactly once, and no other |
| `ModuleLifecycle.ListOrder` | system/gd/module.cc:59-63 | a list starts in its own order: what its first modules reach stands in the start order before whatever else it starts |
| `ModuleLifecycle.DependenciesUp` | system/gd/module.cc:80-87 | when a module's own Start is called each of its dependencies is registered and its instance is alive and not yet registered |
| `ModuleLifecycle.ShutdownOrderly` | system/gd/module.cc:94-117 | a shutdown clears, stops and deletes each started module exactly once; a module stops before everything it depends on, nothing is deleted before the last stop, a handler is cleared before its module stops and deleted before its module is |
| `ModuleLifecycle.StopLeavesEmpty` | system/gd/module.cc:94-121 | a shutdown leaves no registered module, no live instance and no live handler |
| `ModuleLifecycle.RunQuiet` | system/gd/module.cc:59-121 | between any starts and stops the live objects are exactly the registered ones and the registry is sound, so it can be started again |
| `ModuleLifecycle.RunOrdered` | system/gd/module.cc:59-121 | in every run the start order is free of duplicates, holds exactly the started modules and puts each dependency before its dependents |
| `ModuleLifecycle.StartAllEvents` | system/gd/module.cc:59-92 | a start adds construction and start, in this order, to the events of each module it newly starts, and nothing to those of any other |
| `ModuleLifecycle.RunLives` | system/gd/module.cc:59-121 | over every run of starts and stops the events of each module are whole lives (constructed, started, handler cleared, stopped, handler deleted, deleted), then constructed and started exactly when it is started now |
| `MessageLoopProtocol.StepKeepsInv` | system/common/message_loop_thread.cc:59-201 | every section of every client and of the worker keeps the inductive invariant of the lock protocol |
| `MessageLoopProtocol.RunSafe` | system/common/message_loop_thread.cc:59-201 | the invariant holds in every state of every interleaving of any number of clients |
| `MessageLoopProtocol.RunPromises` | system/common/message_loop_thread.cc:59-201 | no interleaving has a null or dangling access; the loop pointers and the thread id are all present or all absent, and present exactly while there is a thread object whose worker is between its two sections; each thread object is joined at most once and deleted at most once, after its join and by the same client |
| `MessageLoopProtocol.ThreadHeldWhileJoining` | system/common/message_loop_thread.cc:95-122 | over any stretch of a run in which a client is shutting down, the thread object it uses outside the lock is never replaced, and nobody else is shutting down |
| `MessageLoopProtocol.CallsReturn` | system/common/message_loop_thread.cc:59-201 | no deadlock: a call in progress always has a step that can be taken and brings it closer to returning, and no step takes it further away |
| `MessageLoopProtocol.EveryCallReturns` | system/common/message_loop_thread.cc:59-201 | in every endless run with weakly fair scheduling every StartUp and every ShutDown returns |
| `MessageLoopProtocol.ShutDownActs` | system/common/message_loop_thread.cc:95-114 | a ShutDown does nothing exactly when there is no running loop or somebody is shutting it down already, and otherwise tells that loop to quit |
| `MessageLoopProtocol.ShutDownEnds` | system/common/message_loop_thread.cc:95-122 | in every endless fair run a ShutDown that finds a running loop, and nobody shutting it down, returns having joined and deleted its thread object |
| `MessageLoopProtocol.StartUpActs` | system/common/message_loop_thread.cc:59-71 | a StartUp does nothing exactly when there is a thread object, and otherwise makes one with a new worker |
| `MessageLoopProtocol.StartUpEnds` | system/common/message_loop_thread.cc:59-72 | in every endless fair run a StartUp that finds no thread object returns, and only when the worker of the one it made has begun |
| `TimerArithmetic.RemIsMod` | system/common/repeating_timer.cc:138-142 | adding the period between two truncating remainders gives the true modulus of a negative remaining time |
| `TimerArithmetic.SignedDifference` | system/common/repeating_timer.cc:135-137 | wrapping clock readings less than half the range apart give the true signed difference |
| `TimerArithmetic.DelayIsNext` | system/common/repeating_timer.cc:133-144 | the posted delay leads to the first time from now on that is on the deadline's grid and not before the deadline |
| `TimerArithmetic.RateAndPhase` | system/common/repeating_timer.cc:126-144 | in every history of runs no earlier than posted each wake-up is on the grid of the first deadline, at most one period after the run posting it, and run n is never before n periods after the first deadline |
| `TimerArithmetic.NextOnGrid` | system/common/repeating_timer.cc:126-144 | each wake-up is the first grid time from the posting run on that is not before the run's own deadline |
| `TimerArithmetic.NoDrift` | system/common/repeating_timer.cc:126-144 | runs made exactly when posted happen exactly n periods after the first deadline |
| `TimerArithmetic.FirstDelayIs` | system/common/repeating_timer.cc:47-61 | the first wake-up is the first deadline; its delay is within one period exactly when cancelling took no longer than that |
| `TimerArithmetic.FirstDelayCanBeNegative` | system/common/repeating_timer.cc:47-61 | a cancellation of two periods makes the first delay minus one period |
| `LeakyBondedQueue.PushIsLast` | system/common/leaky_bonded_queue.h:103-110 | a queue fed one item at a time holds the last items up to capacity, in order |
| `LeakyBondedQueue.DequeueAsDocumented` | system/common/leaky_bonded_queue.h:127-132 | a dequeue is sure to give what the header promises, the oldest item or null, exactly when the queue is not empty |
| `A2dpMetrics.CombineStep` | system/common/metrics.cc:98-106 | one combination loses less than the total count and stays between the two averages |
| `A2dpMetrics.AccumulateSummarizes` | system/common/metrics.cc:108-159 | after any reports the minimum, maxima and totals are those of all valid reports, the codec is the first valid one and the offload flag tells whether any report had it |
| `A2dpMetrics.AverageBound` | system/common/metrics.cc:98-133 | the truncating running average never exceeds the exact weighted mean, is below it by less than the number of reports, and lies within the averages reported with positive counts |
| `A2dpMetrics.UnderrunsAreMean` | system/common/metrics.cc:142-153 | the underrun average is the exact weighted mean of the valid reports, over reals, and the count their total |
| `A2dpMetrics.CombineFits` | system/common/metrics.cc:98-106 | the sum of a combination with positive counts fits 64 bits for all 32-bit averages exactly when the counts add up to at most 2^32 + 2 |
| `A2dpMetrics.NoOverflow` | system/common/metrics.cc:98-133 | over any sequence of reports with a total count up to that no combination overflows |
| `MetricsSessions.RunKeeps` | system/common/metrics.cc:295-516 | in every run each queue holds the last items since the last dump, the open session carries exactly the reports since it was opened, every closed session exactly its own, and every closed session is leaked, dumped or queued, once |
| `MetricsSessions.DumpsAreFaithful` | system/common/metrics.cc:435-503 | every dump lists exactly the last events and sessions up to capacity logged since the previous dump, in order, with the number there were |
| `MetricsSessions.SessionsTell` | system/common/metrics.cc:359-417 | the figures of every session ever closed are those of exactly the reports made while it was open |
| `SessionHistory.RunTells` | system/common/metrics.cc:344-473 | in every run each session ever closed lasted the whole seconds between the opening and the closing the calls tell of (a dump closes and reopens), and carries the reason of the closing call and its own technology and device |
| `MetricsSessions.AudioConserved` | system/common/metrics.cc:344-473 | dumped, leaked, queued and open audio add up to all non-negative durations ever reported |
| `StreamProtocol.StepKeepsInv` | system/audio_bluetooth_hw/stream_apis.cc:257-652 | every section, write and callback keeps the stream's invariant |
| `StreamProtocol.NoNewDataWhileSuspended` | system/audio_bluetooth_hw/stream_apis.cc:329-347 | in every interleaving a suspended stream stays disabled, no write begun in a suspension reaches the port during it, and frames rendered never exceed frames presented |
| `StreamProtocol.OnlyEarlierWrites` | system/audio_bluetooth_hw/stream_apis.cc:505-530 | over any suspended stretch of a run a thread about to write to the port was so from the start of the stretch and did nothing else, so only writes past their check when the suspension was handled reach the port, at most one for each thread |
| `StreamProtocol.EarlierWriteCanReach` | system/audio_bluetooth_hw/stream_apis.cc:505-530 | an interleaving in which such a write does |
| `StreamProtocol.BornSuspendedCanWriteLater` | system/audio_bluetooth_hw/stream_apis.cc:505-527 | an interleaving in which a write begun while suspended reaches the port after the suspension |
| `StreamProtocol.OnlyReleasedWritesReach` | system/audio_bluetooth_hw/stream_apis.cc:505-527 | in every interleaving such a write reaches the port only if its resume section ran after that suspension was over, with the port in standby or started |
| `StreamProtocol.ResumeDecides` | system/audio_bluetooth_hw/stream_apis.cc:505-527 | after the resume section of a write some continuation brings its data to the port exactly when the section found the port started, or in standby with the stack taking the request |
| `StreamProtocol.SuspendedWriteReaches` | system/audio_bluetooth_hw/stream_apis.cc:505-527 | the same in every interleaving; so a write whose own suspension is in force at its resume reaches the port in no continuation |
| `StreamProtocol.FailedNeverReaches` | system/audio_bluetooth_hw/stream_apis.cc:511-523 | a write whose resume failed reaches the port in no continuation |
| `StreamProtocol.PresentedFalls` | system/audio_bluetooth_hw/stream_apis.cc:371-393 | the frames presented fall exactly when closing or exiting, without a suspension in the same parameters, finds frames and a port that is not disabled or just re-enabled |
| `StreamProtocol.PresentedSince` | system/audio_bluetooth_hw/stream_apis.cc:371-393 | in every run the frames presented are those written since the last such step, or since the stream was opened |
| `StreamProtocol.PresentedIsTotal` | system/audio_bluetooth_hw/stream_apis.h:67-68 | in every run the frames presented equal all frames written since opening exactly when no such step found any, and are fewer otherwise |
| `StreamProtocol.PresentedCanDrop` | system/audio_bluetooth_hw/stream_apis.cc:371-381 | a run in which closing takes ten presented frames away |
| `StreamProtocol.RenderedSince` | system/audio_bluetooth_hw/stream_apis.cc:257-393 | in every run the frames rendered are those written since the last pause or standby of a started port, suspension, closing or exiting |
| `StreamProtocol.PortRuns` | system/audio_bluetooth_hw/device_port_proxy.cc:240-492 | the port becomes started exactly by a successful result while starting, starting exactly by a resume from standby, suspending exactly by a pause, standby or suspension while started |
| `StreamProtocol.PortRests` | system/audio_bluetooth_hw/device_port_proxy.cc:240-505 | exactly which results, parameters and session changes bring the port to standby and to disabled |
| `StreamProtocol.StartedSince` | system/audio_bluetooth_hw/device_port_proxy.cc:240-299 | in every run a started port was started by a successful result for a resume, and has been started since |
| `StreamProtocol.PortSection` | system/audio_bluetooth_hw/stream_apis.cc:505-530 | a write goes on to the port exactly when its section finds the port started |
| `StreamProtocol.FoundStarted` | system/audio_bluetooth_hw/stream_apis.cc:505-530 | in every run a write that goes to the port found it started in its last section |
| `StreamThreads.WaitsExactly` | system/audio_bluetooth_hw/device_port_proxy.cc:428-492 | a call waits for the stack exactly when it requested a start from standby or a suspend of a started port and the stack took the request |
| `StreamThreads.RunLockHeld` | system/audio_bluetooth_hw/stream_apis.cc:257-652 | in every run at most one thread waits for the stack, and exactly the waiting one holds the stream's mutex across steps |
| `StreamThreads.FramesAsked` | system/audio_bluetooth_hw/stream_apis.cc:505-536 | in every run a write in progress carries the frames its call asked for |
| `StreamThreads.TakenIsAccounted` | system/audio_bluetooth_hw/stream_apis.cc:525-536 | data given to the port is accounted for exactly when the port took some, with the frames of that call |
| `StreamPosition.CalculateFeedingDelay` | system/audio_bluetooth_hw/stream_apis.cc:51-127 | whatever byte counter the stack reports, the position lies one to two latencies behind the frames presented, and is the stack's own less one latency exactly when that is at most one latency behind |
| `StreamPosition.LatencyReported` | system/audio_bluetooth_hw/stream_apis.cc:71-83 | the latency is the reported delay in whole milliseconds if that is above 50 and below 1000 |
| `StreamPosition.LatencyBuffered` | system/audio_bluetooth_hw/stream_apis.cc:84-95 | otherwise it is the whole milliseconds that one buffer takes, and 200 more |
| `StreamPosition.LatencyInFrames` | system/audio_bluetooth_hw/stream_apis.cc:105 | the latency in frames is the whole frames played in that time |
| `AudioParams.ParseAudioParams` | system/audio_bluetooth_hw/utils.cc:33-48 | reads the segments in order, later keys overriding earlier ones |
| `AudioParams.PrintParams` | system/audio_bluetooth_hw/stream_apis.cc:479-482 | prints the entries in the order given |
| `AudioParams.ParseConcat` | system/audio_bluetooth_hw/utils.cc:33-48 | parsing two strings joined by a semicolon is the first parse overridden by the second |
| `AudioParams.ParseClean` | system/audio_bluetooth_hw/utils.cc:40-45 | whatever the string, keys are non-empty and neither keys nor values hold a separator |
| `AudioParams.LastSetting` | system/audio_bluetooth_hw/utils.cc:33-48 | a setting at the end of a string overrides what comes before |
| `AudioParams.OddSegments` | system/audio_bluetooth_hw/utils.cc:40-45 | a segment without an equals sign is a key with an empty value, of one with several only the piece between the first two is the value, one beginning with it is skipped |
| `AudioParams.RoundTrip` | system/audio_bluetooth_hw/stream_apis.cc:479-482 | parsing gives back a printed map, in whatever order it was printed, exactly when its keys are non-empty and no key or value holds a separator |
| `AudioParams.Reprint` | system/audio_bluetooth_hw/utils.cc:33-48 | printing what was parsed and parsing again changes nothing, whatever the string |
| `AudioParams.RoundTripCanFail` | system/audio_bluetooth_hw/utils.cc:40-45 | a value holding an equals sign is not given back |
| `AutoOnTimer.NextTimeoutIsTomorrow` | service/src/AutoOnFeature.kt:241-243 | a new target is five o'clock of the next day, more than 5 and at most 29 hours ahead |
| `AutoOnTimer.StepKeepsInv` | service/src/AutoOnFeature.kt:53-262 | every entry point, alarm, broadcast and restart keeps the ownership and fired-once invariant |
| `AutoOnTimer.RunInv` | service/src/AutoOnFeature.kt:53-262 | in every history a timer owns exactly one alarm and one receiver and its target is stored, no timer means neither, no target fires twice, and no unknown receiver is unregistered |
| `AutoOnTimer.TargetFate` | service/src/AutoOnFeature.kt:53-262 | a step leaves a stored target alone exactly when it neither fires nor cancels it |
| `AutoOnTimer.TargetSurvives` | service/src/AutoOnFeature.kt:83-98 | over any stretch of a history without a cancelling event a target is still stored unchanged or has fired |
| `AutoOnTimer.ResetArms` | service/src/AutoOnFeature.kt:53-93 | a reset arms a timer, or fires, exactly when the feature is on, Bluetooth and satellite mode are off, and airplane mode is off or was toggled before; it arms the stored target unless the running timer was that user's, else tomorrow at five, and fires at once exactly for a target in the past |
| `AutoOnTimer.BroadcastRearms` | service/src/AutoOnFeature.kt:83-90 | a date, time or timezone broadcast arms the running timer's own target again under the same conditions, and otherwise leaves it stored |
| `AutoOnTimer.SetEnabledArms` | service/src/AutoOnFeature.kt:129-151 | switching the feature on arms tomorrow at five under the same conditions; switching it off leaves neither timer nor target |
| `AutoOnTimer.SettingIs` | service/src/AutoOnFeature.kt:101-151 | the setting is that of the last accepted change, or on by default once Bluetooth turned on for a user without it |
| `AutoOnTimer.NotifyOnClears` | service/src/AutoOnFeature.kt:101-117 | Bluetooth turning on leaves neither timer nor stored target |
| `LeakyBondedQueue.LeakyBondedQueue.Enqueue` | system/common/leaky_bonded_queue.h:103-110 | appends, dropping the oldest item exactly when full |
| `LeakyBondedQueue.LeakyBondedQueue.EnqueueWithPop` | system/common/leaky_bonded_queue.h:113-124 | the same, returning the dropped item |
| `LeakyBondedQueue.LeakyBondedQueue.Dequeue` | system/common/leaky_bonded_queue.h:127-132 | takes the oldest item and leaves the others in order; undefined exactly on an empty queue |
| `AudioStream.AudioPort.Start` | system/audio_bluetooth_hw/device_port_proxy.cc:428-460 | requests a start, and waits for it, only from standby |
| `AudioStream.AudioPort.Suspend` | system/audio_bluetooth_hw/device_port_proxy.cc:462-492 | requests a suspend, and waits for it, only when started |
| `AudioStream.AudioPort.CondwaitState` | system/audio_bluetooth_hw/device_port_proxy.cc:399-426 | succeeds exactly when the awaited state was reached |
| `AudioStream.AudioPort.ControlResultHandler` | system/audio_bluetooth_hw/device_port_proxy.cc:240-299 | the transition of each state on each result |
| `AudioStream.StreamOut.OutSuspend` | system/audio_bluetooth_hw/stream_apis.cc:257-282 | pause and standby zero the rendered frames and suspend a started port, and are busy during a transition |
| `AudioStream.StreamOut.OutResume` | system/audio_bluetooth_hw/stream_apis.cc:626-652 | starts a port in standby and refuses in every other state but started |
| `AudioStream.SettingAlone` | system/audio_bluetooth_hw/stream_apis.cc:329-393 | which parameters a string with one setting sets: A2dpSuspended and closing by "true", exiting by "1" |
| `AudioStream.LastSettingCounts` | system/audio_bluetooth_hw/stream_apis.cc:290-393 | after any string the last setting of each parameter wins and leaves the others alone |
| `AudioStream.StreamOut.OutSetParameters` | system/audio_bluetooth_hw/stream_apis.cc:290-398 | a string whose last setting is A2dpSuspended=true leaves an A2DP port disabled, or suspending while it waits, with nothing rendered; one ending in A2dpSuspended=false re-enables a disabled one; all parameters are acted on as the protocol's section says |
| `AudioStream.StreamOut.OutSetParametersDone` | system/audio_bluetooth_hw/stream_apis.cc:334-393 | after the wait the port is disabled, whatever the other parameters, and both counters stay |
| `AutoOnFeature.AutoOnFeature.TimerStart` | service/src/AutoOnFeature.kt:174-239 | fires at once for a target in the past, else stores it and arms one alarm and one receiver |
| `AutoOnFeature.AutoOnFeature.ResetAutoOnTimerForUser` | service/src/AutoOnFeature.kt:53-93 | cancels any timer and starts a new one unless the setting, the adapter state, satellite mode or airplane mode forbids it |
| `AutoOnFeature.AutoOnFeature.NotifyBluetoothOn` | service/src/AutoOnFeature.kt:101-117 | cancels the timer, and gives a user without the feature its default or clears the stored target |
| `AutoOnFeature.AutoOnFeature.SetUserEnabled` | service/src/AutoOnFeature.kt:129-151 | refused for a user without the feature, nothing to do when already enabled, else changes the setting, clears the target and resets |
| `AutoOnFeature.AutoOnFeature.OnAlarm` | service/src/AutoOnFeature.kt:197-202 | fires the target once and forgets timer and target |
| `AutoOnFeature.AutoOnFeature.OnReceive` | service/src/AutoOnFeature.kt:83-90 | pauses and resets, so the stored target is used again |
| `LruCache.LruCache.Find` | system/common/lru.h:76-84 | the linked list and the map refine the recency sequence with the key touched; the result is the head node, or null exactly for a missing key |
| `LruCache.LruCache.Get` | system/common/lru.h:94-103 | found exactly for a key present, with its value; the key becomes the most recent |
| `LruCache.LruCache.HasKey` | system/common/lru.h:112-115 | true exactly for a key present, which becomes the most recent |
| `LruCache.LruCache.Put` | system/common/lru.h:125-145 | refines the write on the recency sequence and returns exactly the evicted entry |
| `LruCache.LruCache.Remove` | system/common/lru.h:153-167 | refines the removal; true exactly for a key present |
| `MessageLoopThread.MessageLoopThread.ShutDownLocked` | system/common/message_loop_thread.cc:96-114 | returns at once exactly without a thread object, without a loop, or while another shutdown is under way; else it raises the flag and the loop is told to quit, unless the worker itself called, which aborts |
| `MessageLoopThread.MessageLoopThread.DoInThreadDelayed` | system/common/message_loop_thread.cc:78-93 | succeeds exactly when there is a loop and it accepts the closure |
| `MetricIdAllocator.MetricIdAllocator.TakeFreeId` | system/common/metric_id_allocator.cc:125-140 | the search ends after at most as many skips as ids in use, yields the first free id in cyclic order and leaves the cursor just past it |
| `MetricIdAllocator.MetricIdAllocator.AllocateId` | system/common/metric_id_allocator.cc:113-143 | a known address gets its own id, a new one the first free id; caches, index and cursor change as the abstract step says; the invariant is kept, and so is that the next search ends |
| `MetricIdAllocator.MetricIdAllocator.SaveDevice` | system/common/metric_id_allocator.cc:146-172 | moves a temporary device to the paired cache with its id, reports it, forgets the device it evicts, and keeps the invariant; the answer is the callback's for a moved device |
| `MetricIdAllocator.MetricIdAllocator.ForgetDevice` | system/common/metric_id_allocator.cc:175-197 | removes a paired device, frees its id, reports it and keeps the invariant; does nothing for other devices |
| `MetricIdAllocator.MetricIdAllocator.Init` | system/common/metric_id_allocator.cc:51-86 | refused when initialized, fatal exactly for too many devices or an id out of range, else loads the devices into whatever was there and puts the cursor past the largest id or at the least; the invariant holds after it exactly as `InitInv` says, the cursor stands as `InitCursor` says |
| `MetricIdAllocator.MetricIdAllocator.Close` | system/common/metric_id_allocator.cc:90-100 | empties both caches and the index, which sets up the invariant, or does nothing when not initialized |
| `MetricsLogger.A2dpSessionMetrics.Update` | system/common/metrics.cc:108-159 | accumulates one report field by field |
| `MetricsLogger.Drain` | system/common/metrics.cc:479-498 | a draining loop moves as many items, in order, as the list takes before it is over capacity, all of them into an empty list, and never dequeues from an empty queue |
| `MetricsLogger.BluetoothMetricsLogger.LogBluetoothSessionStart` | system/common/metrics.cc:344-357 | closes an open session for the next one and opens a session with its start time |
| `MetricsLogger.BluetoothMetricsLogger.LogBluetoothSessionEnd` | system/common/metrics.cc:359-380 | queues the open session with duration and reason, forgets the accumulated metrics and counts it; does nothing without one |
| `MetricsLogger.BluetoothMetricsLogger.LogA2dpSession` | system/common/metrics.cc:393-417 | accumulates the report into the open session, opening one if there is none |
| `MetricsLogger.BluetoothMetricsLogger.CutoffSession` | system/common/metrics.cc:462-473 | splits the open session: one part queued, the rest open without A2DP data |
| `MetricsLogger.BluetoothMetricsLogger.Build` | system/common/metrics.cc:475-503 | moves all four queues into the log and leaves them empty, so the fifth loop never iterates |
| `MetricsLogger.BluetoothMetricsLogger.WriteString` | system/common/metrics.cc:435-445 | yields the dump and leaves an empty log |
| `MetricsLogger.BluetoothMetricsLogger.Reset` | system/common/metrics.cc:518-540 | leaves the logger as it was created |
| `ModuleRegistry.ModuleRegistry.Get` | system/gd/module.cc:48-53 | the registered instance, or an assertion failure |
| `ModuleRegistry.ModuleRegistry.GetDependency` | system/gd/module.cc:38-46 | the instance of a listed and started module, fatal otherwise |
| `ModuleRegistry.ModuleRegistry.StartModule` | system/gd/module.cc:85-86 | every fetch of a listed dependency made inside a module's Start succeeds and yields a live instance of it |
| `ModuleRegistry.ModuleRegistry.Start` | system/gd/module.cc:70-92 | the recursion ends and changes the registry as the abstract start says; the result is the registered instance |
| `ModuleRegistry.ModuleRegistry.StartModules` | system/gd/module.cc:59-63 | starts the list in order |
| `ModuleRegistry.ModuleRegistry.StopPass` | system/gd/module.cc:97-109 | finds every module in reverse start order, clears its handler and stops it |
| `ModuleRegistry.ModuleRegistry.DeletePass` | system/gd/module.cc:110-117 | finds every module again in reverse start order, deletes its handler and it once, and leaves nothing registered or alive |
| `ModuleRegistry.ModuleRegistry.StopAll` | system/gd/module.cc:94-121 | neither lookup assertion nor the emptiness assertion fails, and the registry ends as the abstract shutdown says |
| `RepeatingTimer.RepeatingTimer.SchedulePeriodic` | system/common/repeating_timer.cc:39-72 | succeeds exactly for a period of at least one microsecond, a thread, and an accepted post; a refused post leaves the timer cancelled, a refused argument leaves it alone |
| `RepeatingTimer.RepeatingTimer.RunTask` | system/common/repeating_timer.cc:126-146 | moves the deadline by one period and posts the delay of the arithmetic; does nothing when cancelled or off a running thread |

## Left out

- Mutexes of the classes that are not protocols: allocator, cache, queue and logger calls are taken one at a time.
- MetricIds.InitInv: does not cover an `Init` whose saved devices evict paired ones, which takes more than 65000 of both after devices were paired between `Close` and `Init`; what such an `Init` does is modelled, only its effect on the invariant depends on the order of the loads.
- MetricIds.InitSearchable: has the same bound.
- An unset callback, as in a `SaveDevice` before the first `Init`.
- Failures that do not return (`log::fatal`, failed assertions) are outcomes without a following state.
- Module dependency relations with a cycle, on which `Start` would not end; the model requires acyclic ones.
- The wait of `StopAll` for a handler to stop, and its timeout.
- `MessageLoopProtocol` clients are not the worker itself; a `ShutDown` from the worker is only the abort outcome of `ShutDownLocked`.
- A run loop that ends without `ShutDown`, scheduling priorities, and the order of tasks on the loop.
- How `RepeatingTimer` cancels across threads, and runs 2^63 microseconds late or more.
- The closure a periodic timer runs, and how long that takes.
- The floating-point underrun average is over reals, so its rounding is not modelled.
- Overflow of event counters, durations and totals other than the sums of combined averages.
- Headset profile counts, RFCOMM sessions, protobuf serialization and the mappings of enumerations.
- The audio port's `in_use` test, input streams, closing of streams, the HIDL port, and the constants for `closing` and `exiting`, which are defined outside the repository.
- The part of `out_set_parameters` that reloads the audio configuration or only logs (`LeAudioSuspended`, routing).
- The sleep times and byte counts of `out_write`, the read position and timestamps.
- `FrameCount` in `utils.cc` and the other pure conversions, which would add only easy members.
- `android::base::Split`, defined outside the repository, is taken to cut a string at every separator.
- Failing writes of settings, and auto-on callbacks that call back into the feature.
- `MetricsLogger.BluetoothMetricsLogger.Build`: the fifth loop, whose guard is proved false, has no body in the model.
