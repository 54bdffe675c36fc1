# XLB/ADLB server core: a verified model

XLB is a load balancer with a distributed data store. Servers keep queues of work
units and of requests for work, a table of write-once data with reference counts,
and an engine that releases work once its input data are closed. They talk to each
other by *syncs*, steal work from one another, and shut down when nothing is left to
do anywhere. This project models that core in Dafny and proves what it promises.

`dafny verify dfyconfig.toml` checks everything.

| file | what it models |
|---|---|
| `Refcount`, `Values` | nested values, the references they own, release and acquisition, assignment of subscripts |
| `DataStore`, `StoreOps`, `ClientOps` | the data store's operations as functions between states, and the ledger of who owns which counts |
| `StoreRuns` | whole runs of the data store |
| `Cascade`, `WorkedOff`, `Completion`, `DataServer` | the loops that work notifications off, on tables updated in place, what runs of their steps keep, and when they go through |
| `Shortfalls` | where conservation fails, exactly when, and runs that reach each failure |
| `Engine`, `ClosedCache` | the data-dependency engine, its bit vectors, blocker lists and caches |
| `WorkQueue`, `RequestQueue`, `Matching` | the two queues and how requests meet work |
| `SyncProtocol`, `PendingRing`, `RefcOrder` | server-to-server syncs, the ring of deferred syncs, the order in which reference-count changes are applied |
| `IdleCheck` | deciding to shut down |
| `Serial`, `ReferenceCodec`, `SerialBuffer`, `MultisetChunks`, `Shipping` | packing values, a codec that meets what packing assumes, chunked multisets, shipping notification work |
| `Parse`, `Placement` | integers and subscripts as text; layouts and identifiers |
| `Options`, `Sequences`, `Sums`, `Arith` | optional values; facts about sequences, sums over maps and remainders |

## How it is stated

*Reference conservation.* `DataStore.Clients` is a datum's count, plus the changes
listed for it or sent, minus what cells of stored values own, what waiting references
hold and what values on their way carry. What remains belongs to clients. Every
operation moves it by exactly what the operation hands over (`StoreRuns.RunBalances`
over every run). The server's loops do runs of due steps, which they return, so the
same holds of them (`DataServer.Server.NotifyAll`): the store's own work moves holdings
by nothing but a *drift* that is given in full. Each part of it has a run from the empty
store that reaches it and a condition in terms of the state before; the condition is
exact except for waiters left short by a store at the root or into a struct, for which
`Shortfalls.StoreShortExactly` gives the amount instead:

- Storing at the root replaces a scalar or reference, or the struct fields that come with
  a value, and drops what those cells owned: exactly when they owned something
  (`Shortfalls.OverwrittenExactlyWhen`, `OverwrittenRun`).
- A value inside a container that is stored in a container is handed to waiters without
  the counts being taken for it: exactly when someone who wants counts waits on a
  subscript that lies inside the value stored (`Shortfalls.ShortExactlyWhen`,
  `NestedWaiterRun`). Such a waiter must have been declared with the outer container's
  member type, which is what `data.c` line 761 compares.
- A reference set on another server always drops one write count there, whatever number
  the waiter brought: exact exactly when it brought one (`Cascade.FrontForwardedBalances`,
  `Shortfalls.ForwardedRun`).

When everything on its way is a scalar or reference for an unset place and forwarded
references bring one write count (`WorkedOff.Tidy`), the loops leave every client's
holdings exactly as they were and the store tidy again (`WorkedOff.TidyWorkIsExact`).
When no client has dropped counts it does not own and, of the changes listed to a datum,
those that add counts come before those that take, no change is refused and no datum still
named by a cell is freed (`DataServer.Server.ApplyChanges`, `WorkedOff.ChangesSettle`). If
moreover every value on its way is a scalar or reference for the root of an unset datum
and brings a write count, the loops go through to the end whatever cascade follows
(`Completion.WorkGoesThrough`, `DataServer.Server.NotifyAll`).

A container merged into one that has the same key holds it twice, since the table's add
is reported to fail only for lack of memory (`adlb_types.c` lines 661 to 664 say that the
case is not handled): keys stay distinct exactly when no key is in both
(`StoreOps.AssignKeys`). With a key twice, a lookup finds the older member while counts
are handed out on both; the ledger stays exact, with that `ClientOps.Surplus` shown.

*Other properties that hold only under a condition the code does not check*, each with
the condition and the failing case:

- Waiters exist only while their member is unassigned: true of containers; at any place
  inside structs true exactly of waiters that spelled the subscript as the store does
  (`ClientOps.LeftWaitingExactlyWhen`).
- No waiting request matches a stored unit: kept by every put; kept by the engine's path
  exactly when the unit is not soft-targeted at a worker that is not waiting while another
  worker waits for that type (`Matching.Server.PutWorkUnit`).
- A unit's queue entries can find it again: exactly when it is not an untargeted soft unit,
  unless its priority is the least integer (`WorkQueue.KeysMatchExactlyWhen`).
- Queue answers are right: with rank-accurate targets always; with host-accurate ones among
  them a request may be given a unit that is not for the worker exactly when, before it,
  nothing live is kept for the worker itself and a least live entry for its host leads to a
  hard unit for another worker (`WorkQueue.MisdeliversExactlyWhen`, reached by
  `WorkQueue.StaleHostEntryMisdelivers`).
- Servers never wait for each other in a circle: for syncs from the main loop whether or not
  sends complete before their messages are received; for syncs started while serving another
  server provided the receive buffers posted in advance let such sends complete early
  (`SyncProtocol.NoDeadlock`, `SyncProtocol.NestedSendNeedsBuffer`).

*Deadlock freedom and shutdown* are state machines over the servers' steps, with an
invariant proved for every reachable state.

Imperative parts keep their form: classes whose methods update fields or arrays in
place, loops with invariants, each proved against a function or a predicate about which
the properties are stated. Methods that can fail promise nothing about the state they
leave when they do, because the program then stops.

## Model

| member | source | states |
|---|---|---|
| `Refcount.ApplyRefc` | code/src/refcount.c:132-177 | one counter: old count + remaining change = new count + acquired; fails exactly when counts are wanted from a counter at zero; releasing empties it, otherwise a held count is never given away entirely |
| `Refcount.CleanupBalances` | code/src/refcount.c:74-226 | at any nesting, counts given up = counts handed out at the selected cells + changes listed, for every datum and both kinds of count |
| `Refcount.GrantedIsSelected` | code/src/data_structs.c:696-771 | the per-child acquisitions add up to what a lookup of the subscript selects, for structs, containers and multisets |
| `Refcount.CleanupReleases` | code/src/data_cleanup.c:13-57 | a released value owns nothing afterwards |
| `Refcount.AcquireKeepsOne` | code/src/refcount.c:157-170 | acquiring without releasing leaves at least one count wherever there was one |
| `Refcount.ReleaseUsesCounters` | code/src/data_cleanup.c:71-157 | a release lists no more changes than it empties counters |
| `Refcount.ReleaseOnlyTakes` | code/src/data_cleanup.c:13-157 | a release without acquisition never fails and lists only changes that take counts away |
| `Refcount.RefsAtLookup` | code/src/data.c:1322-1395 | with distinct keys the cells under a subscript are those of the value a lookup finds there |
| `Refcount.IdleCleanup` | code/src/data_cleanup.c:43-46 | asked for nothing, cleanup changes nothing and lists nothing |
| `Refcount.DatumCleanup` | code/src/data_cleanup.c:13-157 | the recursive loops over fields, members and elements compute `Cleanup` |
| `Values.StampHeld` | code/src/adlb_types.h:414-426 | a value unpacked with given counts owns that many for each of its references |
| `Values.CleanupKeepsContent` | code/src/refcount.c:74-121 | cleanup changes nothing but counts |
| `Values.LookupContent` | code/src/data.c:1322-1395 | what a lookup finds does not depend on counts |
| `Values.StoreHeld` | code/src/data.c:993-1203 | an assignment adds what the new value owns and loses nothing |
| `Values.StoreThenLookup` | code/src/data.c:993-1203 | what is stored at a subscript is what a lookup there finds |
| `Values.StoreKeepsAssigned` | code/src/data.c:1060-1068 | an assigned scalar or reference is unchanged by any later assignment |
| `Values.MergeHeld` | code/src/data.c:950-985 | a compound value stored at the root adds what it owns; what is lost is exactly what replaced struct fields owned |
| `Values.MergeWellKeyed` | code/src/adlb_types.c:650-665 | keys stay distinct through a merge exactly when no key is in both containers |
| `Values.MergeKeepsMembers` | code/src/adlb_types.c:650-665 | a member that was found before a merge is found after it, unchanged |
| `DataStore.RefcIncrBalances` | code/src/data.c:457-543 | clients' holdings move by the change asked for plus the counts handed out, through closing and freeing |
| `DataStore.RefcIncrValid` | code/src/data.c:457-543 | counts stay non-negative and not both zero; only open data have listeners |
| `DataStore.RefcIncrKeepsContent` | code/src/data.c:457-543 | a surviving datum keeps its content; its counts are the old ones plus the change |
| `DataStore.RefcIncrFrame` | code/src/data.c:513-540 | the datum goes exactly when both counts reach zero; other data, waiters and values on their way are untouched |
| `DataStore.ClosedStaysClosed` | code/src/data.c:499-511 | a change of counts never raises a write count of zero again |
| `DataStore.RefcIncrNotifs` | code/src/data.c:1227-1238 | the step that reaches zero, and no other, turns the listeners into notifications, in order |
| `DataStore.RefcIncrNotifiesOnce` | code/src/data.c:2147-2195 | subscriptions pending plus notified are unchanged, for every listener and subscript |
| `DataStore.FreedWithoutListeners` | code/src/data.c:567-570 | the check for listeners on a freed datum cannot fail |
| `DataStore.DrainBalances` | code/src/data.c:1747-1802 | serving waiters costs the clients exactly the shortfall |
| `DataStore.NoShortfall` | code/src/data.c:1757-1784 | nothing is short when the subscript resolves to what is given away |
| `DataStore.NestedWaiterGoesShort` | code/src/data.c:1943-2001 | waiters on a key inside a nested container are served, and their whole demand is short |
| `DataStore.DrainFrame` | code/src/data.c:1714-1735 | an open datum survives the serving of its waiters, with its content; exactly the served subscript's waiters leave |
| `DataStore.DrainServesAll` | code/src/data.c:2091-2141 | each waiter becomes one value on its way |
| `DataStore.DrainNotifiesOnce` | code/src/data.c:1786-1799 | each subscription to the subscript becomes one notification |
| `StoreOps.DrainAllServed` | code/src/data.c:1855-2084 | an open datum outlives the serving of every subscript an assignment covers |
| `StoreOps.DrainAllBalances` | code/src/data.c:1855-2084 | the cost is the sum of the shortfalls |
| `StoreOps.DrainAllEmpties` | code/src/data.c:1943-2084 | nobody waits on any of those subscripts afterwards |
| `StoreOps.ResolvedIsNotShort` | code/src/data.c:1747-1784 | no shortfall when every waited-for subscript resolves |
| `StoreOps.AssignBalances` | code/src/data.c:950-1203 | assignment, at a subscript or at the root, of any value, costs the counts given to new cells and credits those of what it replaces |
| `StoreOps.StoreBalances` | code/src/data.c:890-985 | a store of any value anywhere costs the counts dropped, those given to new cells and any shortfall, less what replaced cells owned, and nothing else |
| `StoreOps.LeafStoreIsNotShort` | code/src/data.c:1670-1708 | storing a scalar or reference never leaves a waiter short |
| `StoreOps.StoreValid` | code/src/data.c:890-985 | stores keep counts and listeners consistent |
| `StoreOps.AssignKeys` | code/src/adlb_types.c:650-665 | keys stay distinct exactly when the store brings in none that is there already |
| `StoreOps.StoreNotifiesOnce` | code/src/data.c:890-944 | no store loses or repeats a notification |
| `ClientOps.ReferenceBalances` | code/src/data.c:731-875 | served at once or made to wait, a reference costs one read count of the container and the write counts it brings, up to the surplus of a repeated key |
| `ClientOps.NoSurplus` | code/src/data.c:1322-1395 | with distinct keys there is no surplus |
| `ClientOps.WaitBalances` | code/src/data.c:812-875 | one read count is kept for each waited-for subscript, however many wait |
| `ClientOps.ReferenceValid` | code/src/data.c:731-875 | references keep the store consistent |
| `ClientOps.StoreWaiters` | code/src/data.c:950-1115 | after a store, at a key or at the root, no one waits for a member of a container that has a value |
| `ClientOps.ReferenceWaiters` | code/src/data.c:812-875 | references register waiters only on members without a value |
| `ClientOps.LeftWaitingExactlyWhen` | code/src/data.c:1117-1170 | after any store, at any place inside structs, a waiter for the place assigned is left waiting exactly when no subscript served is spelled as its own |
| `ClientOps.TwoSpellings` | code/src/data_structs.c:185-231 | one field of any struct has two spellings |
| `ClientOps.SubscribeCounts` | code/src/data.c:624-723 | a subscription is refused exactly when its event has happened, and adds exactly one |
| `ClientOps.SubscribeKeeps` | code/src/data.c:624-723 | subscribing moves no counts |
| `ClientOps.InsertAtomicCreates` | code/src/data.c:2197-2230 | a reservation succeeds exactly when the member does not exist, and then it exists unassigned |
| `ClientOps.InsertAtomicKeeps` | code/src/data.c:1209-1217 | reserving moves no counts and strands no waiter |
| `ClientOps.MembersStay` | code/src/data.c:1060-1115 | members of a living container stay |
| `ClientOps.RetrieveBalances` | code/src/data.c:1250-1314 | a reader gives up what it drops and gains what it asked for on every reference read |
| `ClientOps.CreateBalances` | code/src/data.c:234-285 | the creator of a datum owns all of its counts and nothing else |
| `Cascade.ChangeUsesCounters` | code/src/notifications.c:506-583 | applying a change lists no more new changes than it empties counters in the store |
| `Cascade.AppliedBalances` | code/src/notifications.c:519-562 | applying a listed change and striking it off leaves clients' holdings as they were |
| `Cascade.NonzeroPending` | code/src/notifications.c:588-637 | compacting the list keeps exactly the changes not yet made |
| `Cascade.StoreDemand` | code/src/notifications.c:140-182 | a store turns waiters into values on their way one for one and makes none |
| `Cascade.SetRefBalances` | code/src/notifications.c:184-214 | setting a reference turns what the value carried into counts its new cells own, up to the drift |
| `Cascade.NoDrift` | code/src/notifications.c:184-214 | nothing drifts when a scalar or reference is stored where nothing was |
| `Cascade.SetRefBefore` | code/src/notifications.c:140-182 | a store's outcome does not depend on the values listed before the one stored, so leaving them in the list while it is walked changes nothing |
| `Cascade.FrontForwardedBalances` | code/src/notifications.c:207-213 | a reference set elsewhere moves holdings by the write counts brought beyond one |
| `WorkedOff.WorkKeeps` | code/src/notifications.c:345-490 | any run of due steps keeps the store consistent, moves holdings by its drift alone and neither loses nor repeats a notification |
| `WorkedOff.TidyStepKeeps` | code/src/notifications.c:506-583 | a due step leaves a tidy store tidy |
| `WorkedOff.TidyWorkIsExact` | code/src/notifications.c:140-214 | from a tidy store no run of due steps moves what any client owns |
| `WorkedOff.NothingDangles` | code/src/data.c:513-526 | with solvent clients and counts added before any are taken, no cell names a datum that is gone |
| `WorkedOff.ChangeNotRefused` | code/src/data.c:457-543 | and the next listed change is not refused |
| `WorkedOff.ChangesNotRefused` | code/src/notifications.c:506-583 | nor any in a run of changes in the order listed, all of which those conditions outlast |
| `WorkedOff.ChangesSettle` | code/src/notifications.c:506-583 | so a whole run of changes succeeds and frees nothing a cell still names |
| `Completion.TargetIsOpen` | code/src/notifications.c:184-205 | a value's target is there, unset, with the write counts the value drops, because the ledger says so |
| `Completion.StepGoesThrough` | code/src/notifications.c:140-214 | no due step is refused |
| `Completion.WorkGoesThrough` | code/src/notifications.c:345-490 | nor any in a run of due steps of any length, which leads to such a state again |
| `DataServer.Server.RefcIncr` | code/src/data.c:457-579 | the in-place update computes `DataStore.RefcIncr` and fails exactly when it does |
| `DataServer.Server.ChangeCounts` | code/src/data.c:474-526 | the datum's own counts, and notification on closing |
| `DataServer.Server.AppendNotifs` | code/src/data.c:2147-2195 | the loop appends one notification per listener, in order |
| `DataServer.Server.ProcessRefList` | code/src/data.c:2091-2141 | the loop appends one reference to set per waiter and totals what they ask for |
| `DataServer.Server.Drain` | code/src/data.c:1714-1802 | computes `DataStore.Drain` |
| `DataServer.Server.DrainAll` | code/src/data.c:1855-2084 | the walk over assigned subscripts computes `StoreOps.DrainAll` |
| `DataServer.Server.Store` | code/src/data.c:890-944 | computes `StoreOps.Store` |
| `DataServer.Server.ApplyChange` | code/src/notifications.c:519-562 | one change, made here or sent on, is one due step or none; it fails exactly when the step is refused; the measure does not grow |
| `DataServer.Server.ApplyChanges` | code/src/notifications.c:506-583 | the walk over a list that grows under it ends, with no due change left; it is a run of due steps and fails exactly when its last is refused, which cannot be while clients are solvent and counts are added before any are taken |
| `DataServer.Server.DropStruck` | code/src/notifications.c:588-637 | the compaction in place, with an insertion index, keeps exactly the unmade changes in order |
| `DataServer.Server.SetRefAt` | code/src/notifications.c:184-205 | storing one value here is `Cascade.SetRef` and fails exactly when it does |
| `DataServer.Server.SetLocalRefs` | code/src/notifications.c:140-182 | the walk with swap-with-last removal ends, with no reference to this server left; it is a run of due steps and fails exactly when its last is refused |
| `DataServer.Server.ForwardRefAt` | code/src/notifications.c:207-213 | a reference set elsewhere is the step that takes the first of the remaining ones off and sends it with one write count |
| `DataServer.Server.SetAllRefs` | code/src/notifications.c:140-182 | the walk over a list that grows and keeps what is done ends with it empty; it is the run that takes values off the front, and fails exactly when its last step is refused |
| `DataServer.Server.ProcessLocalNotifs` | code/src/notifications.c:345-382 | ends after one round, leaving nothing this server could do; a run of due steps: holdings move by its drift, by nothing from a tidy store, notifications are kept, and from a settleable store it succeeds |
| `DataServer.Server.NotifyAll` | code/src/notifications.c:450-490 | ends with no reference and no change left; a run of due steps: holdings move by its drift, by nothing from a tidy store, notifications are kept, and from a settleable store it succeeds |
| `StoreRuns.StepKeeps` | code/src/data.c:890-944 | every step of every run keeps the store consistent |
| `StoreRuns.StepBalances` | code/src/data.c:457-543 | every step moves clients' holdings by what it hands over |
| `StoreRuns.RunBalances` | code/src/refcount.c:132-226 | reference conservation over every run |
| `StoreRuns.RunFromBalances` | code/src/refcount.c:132-226 | the same from any consistent state |
| `StoreRuns.OneNotificationEach` | code/src/data.c:707-720 | over every run, accepted subscriptions are those pending plus those notified |
| `StoreRuns.NobodyWaitsOnClosed` | code/src/data.c:499-526 | over every run a closed datum has no listeners |
| `StoreRuns.MembersLast` | code/src/data.c:1055-1115 | over every run an assigned member, of any value, keeps its content and a member that exists stays |
| `StoreRuns.CreatedOnce` | code/src/data.c:2197-2230 | over every run a member is created at most once in the life of its container |
| `StoreRuns.StepFrozen` | code/src/data.c:499-511 | no step reopens a closed datum, and none but a reservation changes its content |
| `StoreRuns.ClosedLasts` | code/src/data.c:499-511 | over every run a closed datum stays closed while it lives, with its content unless members are reserved in it |
| `Shortfalls.StoreShortExactly` | code/src/data.c:1747-1784 | a store of any value anywhere leaves waiters short of exactly what they ask for and the value assigned does not have under their subscripts |
| `Shortfalls.NestedShortExactly` | code/src/data.c:1943-2001 | at a key of a container that is all that waiters below the key ask for |
| `Shortfalls.ShortExactlyWhen` | code/src/data.c:1943-2001 | clients lose counts by it exactly if someone waits, wanting counts, on a subscript inside the value stored that leads to a reference |
| `Shortfalls.OverwrittenExactlyWhen` | code/src/data.c:950-985 | counts lose their owner exactly by a store at the root over a cell that owns some |
| `Shortfalls.NestedWaiterRun` | code/src/data.c:731-944 | a run of create, reference and store in which clients hand over one count and lose two |
| `Shortfalls.OverwrittenRun` | code/src/data.c:950-985 | a run of create and two stores at the root that leaves a count without an owner |
| `Shortfalls.ForwardedRun` | code/src/notifications.c:184-214 | a run that forwards a reference which brought two write counts |
| `BitVector.SetGet` | code/src/engine.c:1185-1225 | setting a bit sets that bit and no other |
| `EngineSpec.WaitsForOpenInputs` | code/src/engine.c:718-1103 | over every run a unit waits exactly while some input is open, for exactly those inputs |
| `EngineSpec.ReleasedExactlyWhenReady` | code/src/engine.c:718-1103 | over every run a unit is released at the first step where all inputs are known closed, and at no other |
| `EngineSpec.OnlyPutUnitsAreReleased` | code/src/engine.c:1034-1061 | nothing is released that was not put |
| `Engine.MarkAll` | code/src/engine.c:979-1010 | marks every occurrence of the closed input and nothing else |
| `Engine.Progress` | code/src/engine.c:1071-1103 | advances to an open input, or finds there is none |
| `Engine.UpdateOne` | code/src/engine.c:968-1025 | a closed input leaves the transform's open ones; released exactly when it was the last |
| `Engine.Engine.Subscribe` | code/src/engine.c:557-700 | subscribes exactly when the input is not known closed |
| `Engine.Engine.AddBlocker` | code/src/engine.c:848-888 | appends the transform to the input's list, duplicates adjacent |
| `Engine.Engine.InitInputs` | code/src/engine.c:786-841 | marks the inputs known closed and lists the transform under every other |
| `Engine.Engine.Put` | code/src/engine.c:718-771 | ready exactly when every input is known closed; otherwise waits for the rest; known inputs really were closed |
| `Engine.Engine.CloseUpdate` | code/src/engine.c:959-1061 | every listed transform loses the input; those with none left are released once each |
| `Engine.Engine.Unsubscribe` | code/src/engine.c:890-949 | the input leaves the subscribed set and, if remote, enters the cache |
| `Engine.Engine.Close` | code/src/engine.c:890-949 | releases exactly the units whose last open input this is, and keeps every other waiting for the rest |
| `Engine.Engine.HistoryIsExact` | code/src/engine.c:718-1103 | of the class itself, over its whole history: a unit was released at the first step after which its inputs were known closed, and waits exactly while some are open |
| `ClosedCache.DistinctKeys` | code/src/engine.c:1266-1383 | the reference contents hold the keys used, once each |
| `ClosedCache.DistinctByLastUse` | code/src/engine.c:1266-1285 | and in order of last use |
| `ClosedCache.Cache.Check` | code/src/engine.c:1287-1319 | a hit exactly when present; moves the key to the end of the list |
| `ClosedCache.Cache.Add` | code/src/engine.c:1321-1383 | evicts the least recently used key when full |
| `ClosedCache.Cache.Bounded` | code/src/engine.c:1321-1383 | table and list agree, without duplicates, within capacity |
| `WorkQueue.KeysMatchExactlyWhen` | code/src/workqueue.c:257-363 | a unit's own entries lead back to it exactly when it is not an untargeted soft unit above the least priority |
| `WorkQueue.KeyOrder` | code/src/workqueue.c:305-320 | negated keys order units by priority, the least integer first |
| `WorkQueue.PriorityOrder` | code/src/workqueue.c:478-489 | away from the least integers this is descending priority |
| `WorkQueue.AnswersAreRight` | code/src/workqueue.c:491-520 | an answer from the indices is an eligible unit of greatest priority in its class, and none only if no stored unit is eligible |
| `WorkQueue.MixedAnswers` | code/src/workqueue.c:491-520 | with targets of either accuracy: none only if no findable unit is eligible, and an ineligible one only through an entry that an earlier unit left behind in the slot |
| `WorkQueue.MisdeliversExactlyWhen` | code/src/workqueue.c:455-520 | some answer the indices allow is ineligible exactly when, before the request, no entry for the worker is live and a least live entry for its host leads to a hard unit for another worker |
| `WorkQueue.StaleHostEntryMisdelivers` | code/src/workqueue.c:455-475 | a sequence of adds, a steal and a request that delivers a unit to a worker it is not for |
| `WorkQueue.WorkQueue.Add` | code/src/workqueue.c:257-363 | stores the unit, with entries that find it |
| `WorkQueue.WorkQueue.AddEntries` | code/src/workqueue.c:305-363 | the entries of a unit in the heaps its target calls for |
| `WorkQueue.WorkQueue.Pop` | code/src/workqueue.c:529-622 | the least live entry, dropping stale ones |
| `WorkQueue.WorkQueue.Get` | code/src/workqueue.c:491-520 | the answer of the indices, right with rank-accurate targets and ineligible only in the state `MisdeliversExactlyWhen` names; the unit leaves exactly once |
| `WorkQueue.WorkQueue.StealOne` | code/src/workqueue.c:764-794 | a picked entry gives its unit exactly when live |
| `WorkQueue.WorkQueue.Steal` | code/src/workqueue.c:764-794 | distinct untargeted or soft units leave, exactly those picked and live |
| `RequestQueue.RequestQueue.Add` | code/src/requestqueue.c:122-197 | a worker has at most one request, in the list of its type; more of the same merges |
| `RequestQueue.RequestQueue.MatchUpdate` | code/src/requestqueue.c:205-236 | answers part of a request or removes it, counters in step |
| `RequestQueue.RequestQueue.PopFromType` | code/src/requestqueue.c:262-273 | the longest waiting worker for a type, or none is waiting |
| `RequestQueue.RequestQueue.MatchesTarget` | code/src/requestqueue.c:283-303 | the target exactly when it waits for that type |
| `RequestQueue.RequestQueue.TypeCounts` | code/src/requestqueue.c:405-416 | each type's number of waiting workers; the total is the queue's size |
| `RequestQueue.RequestQueue.Snapshot` | code/src/requestqueue.c:418-439 | every waiting worker once |
| `Matching.Server.Put` | code/src/handlers.c:410-474 | the unit goes to an eligible waiting worker or is stored; no waiting request then matches a stored unit |
| `Matching.Server.PutWorkUnit` | code/src/handlers.c:480-545 | the same for released units, and exactly when the missing fallback breaks it |
| `Matching.Server.CheckWorkqueue` | code/src/handlers.c:827-847 | hands out eligible units until enough or none is left |
| `Matching.Server.Get` | code/src/handlers.c:783-821 | gives what it can, queues the rest, and leaves no match waiting |
| `Matching.Server.RecheckSingleQueues` | code/src/handlers.c:871-892 | afterwards no match is waiting; every unit that left went to a worker eligible for it |
| `Matching.Server.ReceiveStolen` | code/src/steal.c:318-359 | stolen units are stored or sent, and no match is left waiting |
| `PendingRing.PendingSyncs.Enqueue` | code/src/sync.c:1123-1167 | appends to the sequence, through wrap-around and growth |
| `PendingRing.PendingSyncs.Grow` | code/src/sync.c:1130-1153 | doubling in place keeps the sequence |
| `PendingRing.PendingSyncs.Shrink` | code/src/sync.c:1184-1235 | halving in place keeps the sequence and a valid head |
| `PendingRing.PendingSyncs.Dequeue` | code/src/sync.h:243-276 | takes the front; a ring above 1024 slots stays a quarter full |
| `PendingRing.PendingSyncs.HavePendingNotifs` | code/src/sync.h:283-313 | the counter is positive exactly when a notification-like entry is queued |
| `SyncProtocol.StepKeeps` | code/src/sync.c:303-479 | every step keeps the invariant, syncs started while serving and sends that complete before receipt included; deferred requests come from higher ranks |
| `SyncProtocol.ReachableInv` | code/src/sync.c:303-479 | so every reachable state satisfies it |
| `SyncProtocol.NoDeadlock` | code/src/sync.c:643-697 | in every reachable state but the initial one some server is bound to be able to receive, accept, serve or proceed |
| `SyncProtocol.StepsUseLoad` | code/src/sync.c:876-888 | every step but a new sync lessens the load |
| `SyncProtocol.SyncsSettle` | code/src/sync.c:303-479 | without new syncs every run ends, and where it need not go on the whole system is back in its initial state: nobody waits or serves, nothing is deferred, nothing is on its way |
| `SyncProtocol.NestedSendNeedsBuffer` | code/src/sync.c:344-363 | a reachable state in which the only step left is the early completion of a send started while serving |
| `RefcOrder.Server.AppliedInArrivalOrder` | code/src/server.c:255-315 | changes applied are a prefix of those that arrived, all of them when no notification is queued |
| `RefcOrder.NoNotifsNoRefcs` | code/src/sync.h:283-313 | with no notification-like entry queued no change is queued |
| `RefcOrder.Server.TakeInMainLoop` | code/src/sync.c:723-741 | a message taken in the main loop joins the log and, if a change, is applied at once after all that arrived before |
| `RefcOrder.Server.TakeInSyncLoop` | code/src/sync.c:656-697 | a message taken in a sync loop joins the log and, accepted or deferred, the end of the queue |
| `RefcOrder.Server.SyncLoop` | code/src/sync.c:303-479 | of what arrives while a sync is awaited all joins the log in order, exactly the entries it makes join the queue, and none is applied |
| `RefcOrder.Server.RunHandler` | code/src/server.c:285-315 | the next handler runs: it takes exactly its own messages, in order, as does every handler its steals start, and no other part of the program takes any |
| `RefcOrder.Server.HandlePendingSyncs` | code/src/server.c:369-389 | empties the queue in order and starts one handler for each entry, those queued meanwhile included; every change that has arrived is then applied |
| `RefcOrder.Server.DequeueApply` | code/src/server.c:369-389 | the oldest queued entry is taken and the change it stands for applied |
| `RefcOrder.Server.ServeSeveral` | code/src/server.c:255-315 | the messages served are taken in order, one handler is started for each, and no notification is left queued when the next is taken |
| `RefcOrder.Server.CheckIdle` | code/src/server.c:651-710 | takes the messages of the inquiries up to the first that brings a notification, finds work ready or a server not idle, and leaves no notification queued |
| `RefcOrder.Server.DoTurn` | code/src/server.c:216-235 | one turn: the messages of the idle check, those served and those of the steal are taken, in that order |
| `RefcOrder.Server.MainLoop` | code/src/server.c:200-240 | over any arrivals at any point: the main loop takes exactly the messages of its turns in order, every handler started exactly its own, one handler is started for each message served and each entry queued, and the changes applied are those that have arrived, in order |
| `IdleCheck.StealAmongChecked` | code/src/steal.c:441-484 | a steal between two checked servers shows up in the cross-check or changes nothing that matters |
| `IdleCheck.StepKeeps` | code/src/server.c:651-759 | every step keeps the invariant |
| `IdleCheck.ReachableInv` | code/src/server.c:597-759 | in every reachable state a checked server that is no longer idle is known to a later check or to the cross-check |
| `IdleCheck.ShutdownIsSafe` | code/src/server.c:651-759 | when a round decides to shut down, no worker is active and no type has both a waiting request and work to steal |
| `IdleCheck.CrossCheck` | code/src/server.c:720-753 | idle exactly when no type has a request on one server and work on another |
| `IdleCheck.CanSteal` | code/src/steal.c:171-185 | some type has both a request here and work there |
| `IdleCheck.IdleState.CheckIdleLocal` | code/src/server.c:597-649 | idle exactly when no worker is active, nothing is pending and the number is new; the number is taken over |
| `IdleCheck.IdleState.AfterSteal` | code/src/steal.c:473-484 | a victim takes over the thief's number when work moves |
| `Parse.ParseDigits` | code/src/adlb_types.c:1020-1055 | accumulates the digits' value without overflow, or stops where it would |
| `Parse.Int64Parse` | code/src/adlb_types.c:998-1063 | succeeds exactly on an optional sign and digits whose value fits 64 bits |
| `Parse.StructSubscriptPop` | code/src/data_structs.c:185-231 | splits off the first component as an index |
| `Parse.PathRoundTrip` | code/src/data.c:2004-2058 | any path of field indices printed as a subscript is read back exactly |
| `Serial.EntryRoundTrip` | code/src/adlb_types.c:520-553 | an entry is read back wherever it stands, padded or not |
| `Serial.StructOffset` | code/src/data_structs.c:393-430 | the offset table gives each field's start |
| `Serial.RoundTrip` | code/src/adlb_types.c:231-816 | unpacking a packed value of any nesting gives it back with the counts supplied |
| `ReferenceCodec.CodecIsLawful` | code/src/adlb_types.c:231-324 | the assumptions the round trip rests on are met by an encoding |
| `ReferenceCodec.ReferenceRoundTrip` | code/src/adlb_types.c:231-816 | with it the round trip assumes nothing of the encoding |
| `SerialBuffer.Packer.AppendBuffer` | code/src/adlb_types.c:291-324 | appends an entry, padded where its type calls for it |
| `SerialBuffer.Packer.PackBuffer` | code/src/adlb_types.c:326-384 | a length written afterwards into the place kept for it gives the same bytes |
| `SerialBuffer.Packer.PackContainer` | code/src/adlb_types.c:386-456 | the loop packs header and members in order |
| `SerialBuffer.Packer.PackMultiset` | code/src/adlb_types.c:460-517 | the loop packs header and elements in order |
| `SerialBuffer.Packer.PackStruct` | code/src/data_structs.c:367-438 | the loop packs offset table and fields |
| `SerialBuffer.UnpackValue` | code/src/adlb_types.c:564-612 | unpacks a value by its type |
| `SerialBuffer.ContainerOf` | code/src/adlb_types.c:615-730 | the loop unpacks as many members as the header says |
| `SerialBuffer.MultisetOf` | code/src/adlb_types.c:732-816 | the loop unpacks as many elements as the header says |
| `SerialBuffer.StructOf` | code/src/data_structs.c:289-362 | the loop unpacks the fields the table locates |
| `MultisetChunks.Multiset.Add` | code/src/multiset.c:43-78 | appends to the contents, starting a chunk when the last is full |
| `MultisetChunks.Multiset.Size` | code/src/multiset.c:37-41 | the number of elements modulo 2^32, also when there is no chunk |
| `MultisetChunks.Multiset.TakeFrom` | code/src/multiset.c:194-206 | the inner loop takes one chunk's elements while they last |
| `MultisetChunks.Multiset.ExtractSlice` | code/src/multiset.c:164-214 | the packed elements of exactly the slice asked for, across chunks |
| `Shipping.Sender.PackNotifs` | code/src/notifications.c:875-911 | each packed notification names the bytes of its subscript, shared or not |
| `Shipping.Sender.PackRefs` | code/src/notifications.c:913-956 | each packed reference names the bytes of its subscript and value, shared or not |
| `Shipping.PrepareForSend` | code/src/notifications.c:790-967 | the message says what the lists say |
| `Shipping.Locate` | code/src/notifications.c:1078-1106 | the entries are found again and use up the buffer |
| `Shipping.Receive` | code/src/notifications.c:1056-1235 | received work is appended as it was sent |
| `Shipping.Ship` | code/src/notifications.c:790-1235 | sent and received, the three lists are the same sequences with the same bytes |
| `Placement.WorkerHasIndex` | code/src/layout.h:45-84 | every worker belongs to one server, with an index below its count that leads back to it |
| `Placement.IndexHasWorker` | code/src/layout.h:64-84 | every index below a server's count is one of its workers |
| `Placement.CountIsRight` | code/src/layout.c:109-120 | the computed count is the number of workers of that server |
| `Placement.BuildWorker2Host` | code/src/layout.c:122-159 | workers share a number exactly when they share a host; numbers are given in order of first appearance, none skipped |
| `Placement.BuildHost2Workers` | code/src/layout.c:161-187 | each host's ascending list of exactly its workers |
| `Placement.LocateIsServer` | code/src/adlb.c:1061-1068 | every identifier, of either sign, lives on a server |
| `Placement.UniqueIds.Next` | code/src/data.c:2248-2259 | identifiers handed out are positive, increasing, below the limit and located at their issuer; no overflow |
| `Placement.DistinctAcrossServers` | code/src/data.c:204-231 | two servers of one layout never hand out the same identifier |
| `Placement.IdForServerLocated` | code/src/xpt_index.c:222-238 | each server's reserved identifier is in the reserved range and lives on that server |
| `Placement.ReservedIsSomeServers` | code/src/xpt_index.c:215-238 | and every identifier of the range is some server's |
| `Placement.HashIsReserved` | code/src/xpt_index.c:239-249 | a hashed key goes to an identifier some server keeps |

## Left out

- ClientOps.StoreWaiters: states the property for data that are containers; inside structs `ClientOps.LeftWaitingExactlyWhen` gives the exact condition.
- Shortfalls.ShortExactlyWhen: for stores at a key of a container with distinct keys; for structs and for stores at the root `Shortfalls.StoreShortExactly` gives the amount without a condition of this form.
- StoreOps.DrainAllEmpties: a store at the root passes over reserved members that have no value; the source (lines 1956 to 1998 of `data.c`) does not test for that, and so also notifies listeners on such a member and reads the missing value for its waiters.
- ClosedCache.Cache.Add: the cache has room for at least one entry; the source accepts a size of zero (line 1235 of `engine.c`), with which the first addition takes an entry from an empty list.
- Engine.Engine.Put: states nothing about the engine after an input with the null identifier; a missing input datum, which the source reports as an error, is assumed not to occur.
- MultisetChunks.Multiset.Add: a chunk is a sequence of its elements in use, not an array of 1024 with unused places.
- StoreRuns.RunBalances: identifiers are not created again while someone still waits on them; read reference counting is enabled and no datum is permanent.
- DataServer.Server.SetAllRefs: further notifications that another server returns in answer to a forwarded store are not modelled.
- SyncProtocol.NoDeadlock: shutdown requests are not modelled; syncs started while serving another server are of the modes that need no acceptance, as those of pre-acquired counts are.
- IdleCheck.ShutdownIsSafe: steals are single steps and the only transfer between servers, as the source's own timer heuristic covers the others.
- Values.MergeKeepsMembers: that the table finds the older of two members with the same key is a choice; the table library is not part of this model.
- Assigning a compound struct field twice.
- Stores through an uninitialised nested struct field, and reservation of struct fields.
- Type checks between a value and the declared type of the datum or member; symbols, permanent data, locks, enumeration.
- Parallel tasks, their queues and the choice of ranks for them.
- Refilling the notification text sent to workers, and the messages themselves.
- The red-black trees, heaps, tables, lists and the variable-length integer encoding: used through their specifications.
- The checkpoint files and index beyond the placement of its identifiers.
- The asynchronous get handles, host name lookup, environment settings, timing and memory management.
