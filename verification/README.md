# Dytor, verified

Dytor is a small actor runtime: actors live in contexts, each context is a thread with a queue, and one
shared counter of unhandled events decides when everybody may stop. This project models the parts of it
that carry real proof obligations and proves what they promise, for every input, every interleaving and
every run.

`dafny verify dfyconfig.toml` checks everything.

## What is modelled

**The runtime as a step machine** (`Protocol`). N context threads with FIFO queues, a shared counter, and
an environment that owns accessors. Every atomic operation and every queue operation is one step, and the
choice of who moves next is unrestricted. A message is a finite tree of what it sends when it runs. A panic
or undefined behaviour is a `Fault` in the state, not a precondition, with one exception. How an index into
the table of links is computed is a parameter of the configuration, so that the protocol is proved for any
route, and the intended and the written one are compared in `Links`. A message that the route hands to another
context than that of its key would be run there in the wrong arena, which is undefined. The machine goes on as
if the message were meant for where it is, so that the protocol's own results hold for any route; what has
been handed astray is in the history, and `GoodOrder` says when nothing is. "Good order" means no fault and
nothing astray; only results that speak of good order exclude messages astray.

| step | source |
|---|---|
| `InitStep` (create an accessor, send a message) | `crates/core/dytor/src/context.rs:143-205`, `crates/core/dytor/src/lookup.rs:124-139` |
| `DrainInitStep` (first local messages, then detach) | `crates/core/dytor/src/runtime/mod.rs:283-289`, `crates/core/dytor/src/context.rs:366-384` |
| `ReceiveStep` | `crates/core/dytor/src/runtime/mod.rs:292-318` |
| `Deliver`, `RunLocal` (a message runs) | `crates/core/dytor/src/runtime/mod.rs:320-325`, `crates/core/dytor/src/context.rs:284-288` |
| `SettleStep` (0, 1 and n unsent messages) | `crates/core/dytor/src/runtime/mod.rs:327-357` |
| `FlushStep` | `crates/core/dytor/src/runtime/mod.rs:342-345`, `crates/core/dytor/src/runtime/mod.rs:359-362` |
| `DropStep` | `crates/core/dytor/src/runtime/mod.rs:297-313` |
| `StopStep` | `crates/core/dytor/src/runtime/mod.rs:300-302`, `crates/core/dytor/src/runtime/mod.rs:334-337` |
| `FreeStep` | `crates/core/dytor/src/runtime/mod.rs:304-308`, `crates/core/dytor/src/context.rs:374-377` |
| `AccessorStep` (count, push, drop) | `crates/core/dytor/src/context.rs:412-437` |

`Invariant` and `InvariantSteps` hold what every step keeps, `Termination` the measure, `Delivery`,
`DeliverySteps` and `Outsiders` the history of messages between contexts and from accessors, `Addressing`
that keys stay valid, `CleanStop` and `Confinement` which contexts can be stopped and woken. `Shutdown`, `Flow`
and `StepOrder` state the main results over all reachable states. The others relate a configuration to its runs:
`Routing` and `Waking` (which indices are used, which contexts are woken), `WhoStops` (who stops in the
machine), `LocalRuns` and `Leaks` (what becomes of the counter block), `FirstMessages` (what is lost), `Traces`
(what a context runs, in which order), `Census` (what runs, where, and how often), `Rerouting` and `GoodOrder`
(when every message goes where it should, and what holds of the program then), `AsWritten` (the index as
written). `Witnesses` gives concrete configurations.

**The loops of a thread as methods over objects**: `LocalQueue`, `Drain`, `Settle`, `ControlBlock`. Each is
proved against a function, and the machine is proved to take the same course when its thread is left to itself.

**The rest**: `Graph` (three-state cycle search over a mutable state map) and `AcyclicKeys` (what it buys),
`Alignment`, `Arena` and `Setup` (sizes, layouts, distribution of actors), `Lookup` and `Broadcast`,
`RegistryList` (compare-and-swap list), `RegistryFold` (building the registry) and `Registry` (from the one to
the other), `Synchronizer` (merge of event streams). `Sequences`, `Sums` and `Options` are helpers.

## Where the code differs from what it seems to intend

- The index into the links is written with its comparison reversed (`crates/core/dytor/src/runtime/mod.rs:343`
  and `:360`). It never leads to the context that is asked for: `Links.CodedLinkMissesEveryTarget` says exactly
  when it falls outside the table and where it leads otherwise. What has arrived is what was sent to the
  neighbour (`Flow.CodedRouteDeliversToNeighbours`). As written, with any number of contexts, no run panics on
  the index or hands a message astray if and only if no woken context has anything to send to another one
  (`AsWritten.ContextsMustNotSend`). `Witnesses.PanickingRun` and `Witnesses.MisdeliveringRun` show both.
- Not every program stops. If a detach makes the last decrement nobody sends Stops: with several contexts they
  all wait for ever, a lone one panics on its receive. `Shutdown.EveryoneStopsUnlessDetachIsLast` gives the
  exact condition on a run. On the configuration, `GoodOrder.EveryRunEndsWellIff` says for any route when every
  complete run stops everybody in good order, and `AsWritten.EveryRunEndsWellAsWrittenIff` what that comes to
  with the index as written.
- The counter block is freed after the last drop notice and after a last detach, but leaked when the last
  decrement settles a message (`Shutdown.BlockFreedUnlessLastSettle`). A configuration has such a run in good
  order if and only if some set of contexts is closed with links that lead where they should, and some woken
  context sends to another one (`GoodOrder.SomeOrderlyRunLeaksIff`). With the inverting index that is whenever
  a woken context sends to another one; as written it never happens in good order
  (`AsWritten.NoOrderlyLeakAsWritten`), and with two contexts not at all (`AsWritten.TwoContextsNeverLeak`).
- Messages that an initialisation sends to other contexts wait, uncounted, until their context first handles
  an event; if it never does they are lost (`Flow.LossExactlyWhenNothingHandled`). The schedule has no say in
  that (`FirstMessages.SameContextsWake`); `FirstMessages.LossIff` gives the condition on the configuration.
- The local queue is a stack: what was sent last runs first.
- Handing out a block requires it to end strictly before the end of the arena. The reserved size is exactly
  the worst case, so for any actors at all some non-null address is refused (`Arena.SomeAddressIsRefused`); the layout
  itself always fits (`Arena.LayoutFits`).
- The merge loop keeps a max-heap over (timestamp, tie break), so it dispatches the latest head first. For
  streams in chronological order the replay is chronological only in the cases `Synchronizer.ChronologicalIff` names.

## Model

| member | source | states |
|---|---|---|
| Shutdown.CounterIsExact | crates/core/dytor/src/runtime/mod.rs:287-362 | In every reachable state the counter equals undetached contexts, live accessors, counted but unpushed sends, queued messages and drop notices, and items in hand or still to be flushed |
| Shutdown.DecrementNeverUnderflows | crates/core/dytor/src/runtime/mod.rs:299 | No step of any run takes the counter below zero |
| Shutdown.OnlyIndexFaultsAndLoneReceive | crates/core/dytor/src/runtime/mod.rs:287-364 | No run uses the block after it is freed, frees it twice, or sends to a context that has exited; only a bad index, or the receive of a lone context that detached last, can fail |
| Shutdown.NoBadKeyFault | crates/core/dytor/src/runtime/mod.rs:343-344 | With keys of existing contexts only an index outside its table and that lone receive are left, for any route |
| Routing.ClosedNeverMissesTable | crates/core/dytor/src/runtime/mod.rs:359-362 | If some set of contexts is closed under accessors, first messages and all they cause, with every index used in its table, no run ever uses one outside |
| Waking.NeverMissesTableIff | crates/core/dytor/src/runtime/mod.rs:343 | For any route: no run ever uses an index outside its table if and only if some set of contexts is closed |
| GoodOrder.NeverAstrayIff | crates/core/dytor/src/context.rs:275-282 | For any route: no run panics on an index or hands a message to a context other than its key's if and only if some set of contexts is closed with only the links that lead where they should |
| GoodOrder.NothingHandedOverIff | crates/core/dytor/src/runtime/mod.rs:341-362 | For any route: no run panics on an index or hands over any message at all if and only if no woken context has anything to send to another one |
| GoodOrder.IntendedNeverAstray | crates/core/dytor/src/runtime/mod.rs:122-133 | With the inverting index nothing ever goes astray |
| Rerouting.ReachableByFewer | crates/core/dytor/src/runtime/mod.rs:359-362 | A run that pushes only through some of the links is a run of the same configuration without the others |
| Rerouting.ReachableByMore | crates/core/dytor/src/runtime/mod.rs:359-362 | A run that never misses its table is a run with any further links, and pushes only through the links it had |
| AsWritten.ContextsMustNotSend | crates/core/dytor/src/runtime/mod.rs:360 | With the index as written and any number of contexts, no run panics on it or hands a message astray if and only if no woken context has anything to send to another one |
| AsWritten.TwoContextsMustNotSend | crates/core/dytor/src/runtime/mod.rs:360 | With two contexts the index panic alone is excluded under the same condition, and under no other |
| Routing.ServedIsClosed | crates/core/dytor/src/runtime/mod.rs:122-133 | With a route that serves every pair of contexts the set of all contexts is closed |
| Routing.IntendedRouteStaysInTable | crates/core/dytor/src/runtime/mod.rs:122-133 | The index that inverts the table is such a route |
| Shutdown.ZeroMeansIdle | crates/core/dytor/src/runtime/mod.rs:298-309 | At zero nothing runs, no queue holds a message or a drop notice, all local queues are empty and no accessor is alive |
| Shutdown.ZeroIsForever | crates/core/dytor/src/runtime/mod.rs:328-340 | From then on every continuation stays idle and queues nothing but Stops |
| Shutdown.PositiveMeansRunning | crates/core/dytor/src/runtime/mod.rs:291-317 | While the counter is positive no Stop exists, nobody has exited and the block is not freed |
| Shutdown.OneContextStopsTheOthers | crates/core/dytor/src/runtime/mod.rs:300-302 | Only the context that made the last decrement ever sends Stops |
| Shutdown.ExitedAfterOneStop | crates/core/dytor/src/runtime/mod.rs:314-316 | A context that has exited has an empty queue and took exactly one Stop, or none if it sent them |
| Shutdown.StopIsAlone | crates/core/dytor/src/runtime/mod.rs:334-336 | A queued Stop has nothing behind it or in front of it |
| Shutdown.BlockFreedUnlessLastSettle | crates/core/dytor/src/runtime/mod.rs:331-338 | At the end of a complete run the block is freed if and only if no message in it was settled with nothing unsent while the counter was at one |
| GoodOrder.SomeOrderlyRunLeaksIff | crates/core/dytor/src/runtime/mod.rs:328-340 | For any configuration with valid keys and any route: some run in good order stops everybody and leaks the block if and only if some set of contexts is closed with only the links that lead where they should, and in no such set all contexts keep to themselves |
| AsWritten.NoOrderlyLeakAsWritten | crates/core/dytor/src/runtime/mod.rs:343 | With the index as written a run that leaks the block has handed a message astray |
| AsWritten.TwoContextsNeverLeak | crates/core/dytor/src/runtime/mod.rs:343 | With two contexts no run leaks it |
| Leaks.SomeRunLeaksIff | crates/core/dytor/src/runtime/mod.rs:328-340 | The same in the machine: some run stops everybody without a fault and leaks the block if and only if some set of contexts is closed and in no such set all contexts keep to themselves |
| Leaks.LeakingRun | crates/core/dytor/src/runtime/mod.rs:297-313 | Constructs the leaking run: every drop notice is taken before any message between contexts |
| LocalRuns.LocalOnlyNeverSettlesLast | crates/core/dytor/src/context.rs:412-437 | If no woken context sends to another one no run settles a message last: a drop notice always follows |
| Shutdown.EveryRunIsFinite | crates/core/dytor/src/runtime/mod.rs:279-364 | No run has more steps than the measure of its initial state |
| Shutdown.CompleteRunsEndInOneOfTwoWays | crates/core/dytor/src/runtime/mod.rs:289-292 | A faultless state has no enabled step if and only if all contexts have exited, or a detach was last and several contexts wait |
| Shutdown.EveryoneStopsUnlessDetachIsLast | crates/core/dytor/src/context.rs:380-384 | A complete run stops every context if and only if no detach in it found the counter at one |
| Shutdown.EveryoneStopsIfAllTargeted | crates/core/dytor/src/context.rs:183-205 | In the machine, for any route: if initialisation aims an accessor at every context, every complete run stops every context without a fault, or has met an index outside its table |
| Shutdown.NobodyStopsWithoutAccessors | crates/core/dytor/src/context.rs:366-384 | If it creates none, no complete run stops any; a lone context panics |
| Shutdown.LoneContextStopsIffItHasAccessor | crates/core/dytor/src/runtime/mod.rs:292 | A lone context stops cleanly if and only if it creates an accessor |
| GoodOrder.EveryRunEndsWellIff | crates/core/dytor/src/runtime/mod.rs:279-364 | For any configuration with valid keys and any route, all complete runs stop all contexts in good order if and only if some set of contexts is closed with only the links that lead where they should, and no context is both without an accessor and outside such a set |
| AsWritten.EveryRunEndsWellAsWrittenIff | crates/core/dytor/src/runtime/mod.rs:360 | With the index as written: if and only if the contexts of some set can keep to themselves, with all accessors, and no context is both without an accessor and outside such a set |
| WhoStops.EveryRunStopsEveryoneIff | crates/core/dytor/src/runtime/mod.rs:279-364 | In the machine, for any configuration with valid keys and any route, all complete runs stop all contexts without a fault if and only if some set of contexts is closed and no context is both without an accessor and outside a closed set |
| WhoStops.LeftOutHangs | crates/core/dytor/src/runtime/mod.rs:283-292 | For a context that is left out there is a complete run in which its detach is last and not everybody exits |
| WhoStops.DetachLeavesOut | crates/core/dytor/src/context.rs:380-384 | Conversely a run whose last decrement was a detach shows a context that is left out |
| Waking.AwakeIsLeastClosed | crates/core/dytor/src/runtime/mod.rs:320-362 | Once the counter is zero the contexts that have handled an event are the least set closed under accessors, first messages and all they cause |
| FirstMessages.SameContextsWake | crates/core/dytor/src/runtime/mod.rs:283-289 | Two runs of a configuration to zero wake the same contexts and leave the same messages unsent, whatever their schedules |
| FirstMessages.UnsentAtTheEnd | crates/core/dytor/src/runtime/mod.rs:283-285 | Once the counter is zero a woken context has nothing unsent, and any other exactly what its script leaves, in order |
| FirstMessages.LossIff | crates/core/dytor/src/runtime/mod.rs:283-289 | A context loses messages if and only if some closed set leaves it out and its script leaves any |
| Traces.RunsWhatItReceives | crates/core/dytor/src/runtime/mod.rs:283-325 | In every interleaving, whenever a context waits or has exited: it has run exactly its initialisation's local messages and then, event by event in the order received, each event's traversal; and it has produced for others exactly what its initialisation and those messages send, in order |
| Traces.SameEventsSameTrace | crates/core/dytor/src/runtime/mod.rs:320-325 | Two runs in which a context has received events with the same traversals have made it run and produce the same, in the same order |
| Census.CountIsKept | crates/core/dytor/src/runtime/mod.rs:283-362 | In every reachable state each message occurs, to come, underway or run, exactly as often as the configuration holds it: over all contexts, and for each context counting only what the route takes there |
| Census.EveryMessageRunsOnce | crates/core/dytor/src/runtime/mod.rs:320-325 | Once the counter is zero each message has run exactly as often as it occurs in the configuration, but for what is left unsent: over all contexts, and in each the occurrences that the route takes there |
| Census.EachRunsInItsContext | crates/core/dytor/src/context.rs:275-288 | For any route: if nothing went astray, what has run in a context is, with multiplicity, all that the configuration holds with keys of that context, but for what is left unsent |
| Census.SameMessagesRun | crates/core/dytor/src/runtime/mod.rs:320-325 | In two runs of a configuration to zero each context runs the same messages, equally often, whatever the schedules and the route |
| Census.NothingLostIfAllWoken | crates/core/dytor/src/runtime/mod.rs:329-362 | If every context has handled an event everything has run exactly as often as it was scripted, over all contexts and in each |
| Waking.RunToEnd | crates/core/dytor/src/runtime/mod.rs:279-364 | Every sound state has a run to a state in which nothing can move |
| Confinement.StepConfined | crates/core/dytor/src/runtime/mod.rs:291-363 | A step makes and loses no way to wake a context outside a set: a state is confined if and only if the next one is |
| Confinement.PartsWithin | crates/core/dytor/src/context.rs:284-288 | What a run sends stays within a set if and only if what it puts in each of the two queues does |
| InvariantSteps.StepSound | crates/core/dytor/src/runtime/mod.rs:279-364 | Every step of every thread and accessor keeps the token invariant, the shape of the end game, and the absence of memory faults |
| InvariantSteps.StopStepSound | crates/core/dytor/src/runtime/mod.rs:334-337 | Sending the next Stop finds its receiver waiting on an empty queue and keeps the rest of the shutdown in order |
| Termination.StepDecreases | crates/core/dytor/src/runtime/mod.rs:279-364 | Every step lowers a natural-number measure, Stops included |
| Flow.ArrivalsFollowTheRoute | crates/core/dytor/src/runtime/mod.rs:341-362 | For any route: what has arrived from a context is what it pushed of the messages routed there, in order; per destination, what it produced is what it pushed, is pushing, and has unsent, in this order |
| Flow.DeliveryIsExactAndOrdered | crates/core/dytor/src/runtime/mod.rs:329-362 | With the inverting index, per sender and destination, what has arrived, what is about to be pushed and what is unsent are together, in this order, what the sender produced |
| Flow.EverythingIsReceivedAtTheEnd | crates/core/dytor/src/runtime/mod.rs:329-362 | With the inverting index, once everybody has stopped, each context has received, in order, all that any context which handled an event produced for it |
| Flow.AccessorDeliveryIsExact | crates/core/dytor/src/context.rs:421-437 | What has arrived from an accessor is what it has sent, at its context and nowhere else; all accessors, with what they have sent and have still to send, and the operations not yet carried out are with multiplicity those of the initialisations |
| Flow.AccessorsAreServedAtTheEnd | crates/core/dytor/src/context.rs:412-437 | Once everybody has stopped, what contexts have received from their accessors is, in order and with multiplicity, exactly what the initialisations gave to accessors for them |
| Flow.CodedRouteDeliversToNeighbours | crates/core/dytor/src/runtime/mod.rs:343 | In every run with the index as written, what has arrived from a context is exactly what it pushed for the neighbour on the near side, in order, and nothing from a neighbouring context |
| Flow.LossExactlyWhenNothingHandled | crates/core/dytor/src/runtime/mod.rs:283-289 | A context exits with messages unsent if and only if it never handled an event although its initialisation produced some; it has then lost all of those |
| Flow.NothingLeftAtReceive | crates/core/dytor/src/runtime/mod.rs:322-325 | At every receive the local queue is empty, and after a first event nothing is left unsent |
| DeliverySteps.RunHistory | crates/core/dytor/src/runtime/mod.rs:291-363 | Every run keeps the accounts of produced, pushed and received messages and of Stops, for any route |
| Addressing.RunAddressed | crates/core/dytor/src/context.rs:159-163 | Keys that name existing contexts go on naming them in everything a run causes, for any route |
| Witnesses.AlwaysHanging | crates/core/dytor/src/context.rs:366-384 | For any route: a concrete configuration in which every complete run leaves two contexts waiting for ever, in good order |
| Witnesses.HangingRun | crates/core/dytor/src/context.rs:366-384 | And it has such a run |
| Witnesses.AlwaysLosing | crates/core/dytor/src/runtime/mod.rs:283-289 | For any route: a concrete configuration in which every complete run stops in good order and loses a message |
| Witnesses.LosingRun | crates/core/dytor/src/runtime/mod.rs:283-289 | And it has such a run |
| Witnesses.LeakedRun | crates/core/dytor/src/runtime/mod.rs:331-338 | With the inverting index: a concrete configuration of two contexts with a run in good order that leaks the block |
| Witnesses.PanickingRun | crates/core/dytor/src/runtime/mod.rs:343 | With the index as written the same configuration has a run that ends in the index panic |
| Witnesses.MisdeliveringRun | crates/core/dytor/src/runtime/mod.rs:343 | With a third context it has a run, as written, in which a message is handed to the wrong context and the block is leaked |
| Links.IntendedLinkInvertsTable | crates/core/dytor/src/runtime/mod.rs:122-133 | The table that skips its own context reaches every other one, and subtracting for later contexts inverts it both ways |
| Links.CodedLinkMissesEveryTarget | crates/core/dytor/src/runtime/mod.rs:360 | The index as written is outside the table exactly for the first and last context, and otherwise leads to a neighbour, never to the target |
| StepOrder.SettlingSorts | crates/core/dytor/src/runtime/mod.rs:348-357 | The step that settles n > 0 unsent messages makes them a batch ordered by destination, with each destination's messages unchanged and in their order, and counts n instead of one |
| StepOrder.BatchIsTheStableSort | crates/core/dytor/src/runtime/mod.rs:357 | Whatever sequence is sorted so is that batch |
| StepOrder.BatchesAreSorted | crates/core/dytor/src/runtime/mod.rs:357-362 | In every reachable state what is being flushed is ordered by destination |
| StepOrder.PanicsInOrder | crates/core/dytor/src/runtime/mod.rs:359-362 | An index panic is at the least destination still to be flushed, and its index is outside the table |
| StepOrder.StopsGoInOrder | crates/core/dytor/src/runtime/mod.rs:334-336 | In every reachable state of a context that sends Stops exactly the links before the next one have got theirs |
| StepOrder.AccessorCountsFirst | crates/core/dytor/src/context.rs:421-437 | An accessor counts a send in one step, which touches no queue, and pushes it at the end of its context's queue in the next, which touches no count |
| StepOrder.NobodyIsHeldUp | crates/core/dytor/src/runtime/mod.rs:291-292 | In every faultless reachable state any context can move that has not exited and does not wait for what somebody may still push, and any accessor that has not been dropped |
| Links.GroupedIsStableSort | crates/core/dytor/src/runtime/mod.rs:357 | Grouping orders by destination and keeps contents and order for each |
| Links.StableSortIsUnique | crates/core/dytor/src/runtime/mod.rs:357 | Nothing else does: two sequences sorted by destination that agree for each are equal |
| Messages.SplitKeepsNodes | crates/core/dytor/src/context.rs:159-163 | Splitting sends into local and remote ones loses no message of the tree |
| LocalQueue.LocalQueue.Send | crates/core/dytor/src/queue/local.rs:14-16 | Puts the value on top |
| LocalQueue.LocalQueue.Recv | crates/core/dytor/src/queue/local.rs:18-20 | Takes what was sent last, or reports the queue empty |
| Drain.ContextData.Run | crates/core/dytor/src/context.rs:268-289 | A handler's sends end up in order in the local queue and the unsent messages |
| Drain.ContextData.DrainLocal | crates/core/dytor/src/runtime/mod.rs:322-325 | The loop empties the local queue and runs exactly the depth-first traversal that takes last-sent children first |
| Drain.ContextData.Handle | crates/core/dytor/src/runtime/mod.rs:320-325 | A message and everything it keeps local run in that order, and leave unsent what they produced |
| Drain.VisitsEachOnce | crates/core/dytor/src/runtime/mod.rs:283-285 | The traversal contains each message of the trees exactly once |
| Drain.DepthFirstVisitsEachOnce | crates/core/dytor/src/runtime/mod.rs:320-325 | So does the traversal that a received message sets off |
| Drain.MachineDrainsAlike | crates/core/dytor/src/runtime/mod.rs:322-325 | The machine's steps run the same messages in the same order as the loop, and leave of the thread what the loop is proved to leave |
| Drain.DrainingIsARun | crates/core/dytor/src/runtime/mod.rs:322-325 | They are a run, with one step a message of the traversal |
| ControlBlock.ControlBlock.constructor | crates/core/dytor/src/context.rs:354-364 | One pointer exists |
| ControlBlock.ControlBlock.Clone | crates/core/dytor/src/context.rs:387-393 | One pointer more, on a block that is not freed |
| ControlBlock.ControlBlock.Release | crates/core/dytor/src/context.rs:366-378 | One pointer less; the block is freed if and only if it was the last |
| ControlBlock.ShareAmong | crates/core/dytor/src/runtime/mod.rs:107-151 | After set-up the counter is the number of contexts, and the block is already gone exactly if there are none |
| Settle.RemoteQueue.Send | crates/core/dytor/src/queue/remote.rs:14-18 | Appends to the queue, and fails exactly when the receiver is gone |
| Settle.Outbox.SettleAndFlush | crates/core/dytor/src/runtime/mod.rs:327-362 | Nothing unsent: one event is counted off and the last one noticed, and only then. Otherwise the count becomes one a message and each queue gets, per destination in order, exactly what is routed to it; if some destination has no link or a link to a context that is gone, the least such one decides: an index panic that names it, or a failed send, with exactly the messages before it handed out |
| Settle.Outbox.FlushOne | crates/core/dytor/src/runtime/mod.rs:341-346 | The same for a single message, without sorting: it goes through, or fails by its index or by its receiver |
| Settle.Outbox.FlushAll | crates/core/dytor/src/runtime/mod.rs:357-362 | The same for a batch as it is: it goes out up to the first message that has no link or no receiver, which decides the failure |
| Settle.Outbox.SendStops | crates/core/dytor/src/runtime/mod.rs:334-336 | Every other queue gets one Stop at its end and nothing else; a send fails exactly if some receiver is gone |
| Settle.IntendedLinkCarriesItsOwn | crates/core/dytor/src/runtime/mod.rs:343 | With the inverting index each link carries exactly the messages for its context, in order |
| Settle.FlushingIsARun | crates/core/dytor/src/runtime/mod.rs:359-362 | Left to itself a flushing thread of the machine reaches, in one step a message, the queues the method is proved to fill |
| Settle.TwoContextsNeverFlush | crates/core/dytor/src/runtime/mod.rs:343 | With the index as written two contexts can send each other nothing |
| Graph.Search.constructor | crates/core/dytor/src/runtime/graph.rs:9-18 | The map built from the relations has their actors as nodes and exactly their edges, all unvisited |
| Graph.Search.Dfs | crates/core/dytor/src/runtime/graph.rs:42-59 | True only if there is a cycle; if false the node and all below it are visited, nodes being visited are as before, and each call is paid for by a node or an edge |
| Graph.Search.DfsChildren | crates/core/dytor/src/runtime/graph.rs:50-54 | The same for the loop over the children |
| Graph.Search.FromEveryNode | crates/core/dytor/src/runtime/graph.rs:20-25 | True if and only if the graph has a cycle, in any order of nodes and children, with at most one call a node and one an edge |
| Graph.HasCycles | crates/core/dytor/src/runtime/graph.rs:8-26 | True if and only if some actor reaches itself by a non-empty chain of relations, with at most as many calls as actors and distinct relations |
| Graph.NoReturn | crates/core/dytor/src/runtime/graph.rs:56-57 | An order with children first, as the visited nodes have, admits no walk that returns |
| AcyclicKeys.InitData.AcyclicLocalKey | crates/core/dytor/src/lookup.rs:163-190 | A key is granted if and only if exactly one place of the table has a wanted type and it holds another actor of this context; it leads to that actor and the dependence is recorded. Each refusal has its own condition on the table and records nothing |
| AcyclicKeys.InitData.CheckCycles | crates/core/dytor/src/runtime/mod.rs:260-262 | If the check passes every chain of nested calls stays in the context, visits distinct actors, and is no longer than their number |
| AcyclicKeys.NeverReentered | crates/core/dytor/src/lookup.rs:259-266 | Without a cycle of relations no chain of calls enters an actor twice |
| AcyclicKeys.CycleIsReentry | crates/core/dytor/src/runtime/mod.rs:260-262 | With one, some chain does: the check refuses nothing needlessly |
| Alignment.PaddingFormula | crates/core/dytor/src/arena.rs:27 | The formula for the padding is the distance to the next multiple |
| Alignment.WorstPadding | crates/core/dytor/src/arena.rs:23 | The most that an unknown address can cost at a coarser alignment, and when it costs that |
| Arena.ComputeSpaceRequired | crates/core/dytor/src/arena.rs:14-35 | The maximum over all start addresses of the extent of the layout: none exceeds it and some attains it; it fails only if some extent does not fit in 32 bits |
| Arena.GetOffsets | crates/core/dytor/src/arena.rs:37-48 | Each block lies at the first aligned address behind the ones before it |
| Arena.BlocksAreApart | crates/core/dytor/src/arena.rs:41-46 | Each block lies at the first aligned address behind the one before it; blocks are in order, disjoint and within the extent |
| Arena.LayoutFits | crates/core/dytor/src/arena.rs:65-74 | In the reserved arena they are within the capacity, from any address |
| Arena.FromLayouts | crates/core/dytor/src/arena.rs:65-74 | Reserves exactly the worst extent and lays the blocks out in it |
| Arena.AcceptsAllUnlessWorst | crates/core/dytor/src/arena.rs:51-59 | All blocks are handed out if and only if the layout from this address is shorter than the worst |
| Arena.AcceptsMeans | crates/core/dytor/src/arena.rs:51-59 | A block is handed out if and only if its address is a multiple of its alignment and all its bytes, and the one behind them, are in the arena |
| Arena.SomeAddressIsRefused | crates/core/dytor/src/arena.rs:54-57 | So for any non-empty list of layouts some address other than null makes handing one out fail |
| Arena.EmptyReservation | crates/core/dytor/src/arena.rs:66-68 | Size zero is requested from the allocator if and only if no layout takes any room, as in a context without actors |
| Setup.Distribute | crates/core/dytor/src/runtime/mod.rs:100-103 | Each context gets its actors in configuration order, or the first actor of no context is reported |
| Setup.AllocateActors | crates/core/dytor/src/runtime/mod.rs:180-207 | One context's actors in configuration order, each at the first aligned address behind the one before it, in an arena whose capacity is exactly the worst extent of their layouts; or the first actor of no registered type, or a size that does not fit |
| Setup.CreateContextArgs | crates/core/dytor/src/runtime/mod.rs:40-159 | Every configured actor appears exactly once, by context and in configuration order, at its exact place and overlapping no other; every arena's capacity is exactly the worst extent of its context's layouts. Each failure is the first there is, by context and in configuration order |
| Lookup.MatchingMembers | crates/core/dytor/src/lookup.rs:40-54 | A query yields exactly the actors of the wanted types |
| Lookup.MatchingCount | crates/core/dytor/src/lookup.rs:40-54 | Each as often as the table holds it |
| Lookup.MatchingConcat | crates/core/dytor/src/lookup.rs:40-54 | In the order of the table |
| Broadcast.BroadcastGroup | crates/core/dytor/src/lookup.rs:141-161 | A stable partition of the matching actors by context, in any order of the groups; its members are the table's actors of the wanted types, as often as the table holds them |
| Broadcast.PartitionKeepsEveryone | crates/core/dytor/src/lookup.rs:149-151 | Such a partition has the same actors with the same multiplicities |
| Broadcast.Send | crates/core/dytor/src/context.rs:310-341 | One message a group, to the local queue or the unsent messages; together they call the handler on every member |
| Broadcast.BroadcastAll | crates/core/dytor/src/context.rs:302-343 | The same calls as one message per matching actor: one on each actor of a wanted type for each place it has in the table |
| RegistryList.ListHoldsExactlyThePushed | crates/core/dytor/src/registry.rs:233-249 | In every interleaving, spurious failures included, the list is finite and holds exactly the nodes whose swap succeeded, once each |
| RegistryList.ListGrowsAtTheFront | crates/core/dytor/src/registry.rs:239-247 | A successful swap puts its node in front and moves no other |
| RegistryList.WalkRunsThePushed | crates/core/dytor/src/registry.rs:43-50 | A walk that has come to its end has run exactly the nodes whose swap had succeeded when it began, once each and newest first, whatever was pushed since |
| RegistryList.WalkRunsEachOnce | crates/core/dytor/src/registry.rs:43-50 | On the way it has run a first part of those, and it is at the end exactly if it has run them all |
| RegistryList.WalkEnds | crates/core/dytor/src/registry.rs:46-50 | From every state of a walk its own steps lead to the end |
| RegistryList.UndisturbedPush | crates/core/dytor/src/registry.rs:236-248 | From every state of a push at most four steps of its own put its node in front, if nobody interferes |
| RegistryList.WalkIsBounded | crates/core/dytor/src/registry.rs:46-50 | It takes no more steps than there are nodes |
| RegistryList.Get | crates/core/dytor/src/registry.rs:45-50 | The loop itself ends and runs the list in order |
| RegistryFold.BuildIsExact | crates/core/dytor/src/registry.rs:211-231 | Building succeeds if and only if types and names are distinct, and then answers every query according to the registrations |
| RegistryFold.FindIsFirst | crates/core/dytor/src/lookup.rs:70-73 | A type's entry for a trait is the first there is, and none only if there is none |
| RegistryFold.DeclaredIsFirst | crates/core/dytor/src/registry.rs:219-221 | Of several mentions of a trait in one registration the first counts |
| RegistryFold.OrderDoesNotMatter | crates/core/dytor/src/registry.rs:71-75 | Registrations in another order give the same answers by name and the same metadata for every trait and type |
| Registry.ScheduleDoesNotMatter | crates/core/dytor/src/registry.rs:37-70 | Two interleavings in which the same nodes had been pushed when the walk began, in whatever orders: both abort, or both build a registry of exactly those nodes, and the two answer every name and every trait query over any table of actors alike |
| Registry.TraitMatchingIsMatching | crates/core/dytor/src/lookup.rs:57-89 | A trait query yields, in table order, exactly the actors of the types registered for the trait, each with the metadata of its type's first entry |
| Registry.TraitMatchingCount | crates/core/dytor/src/lookup.rs:57-89 | Each as often as the table holds it |
| Registry.TraitMatchingConcat | crates/core/dytor/src/lookup.rs:67-74 | In the order of the table |
| Synchronizer.BackgroundTask | crates/examples/replay/src/synchronizer.rs:59-125 | Of the events that are next in their streams one is dispatched that no other exceeds in timestamp, nor in tie break at the same timestamp; each stream comes out completely, in order, through its own accessor, and nothing else does |
| Synchronizer.EveryStreamComesOut | crates/examples/replay/src/synchronizer.rs:94-123 | Whatever way ties are resolved, each stream is dispatched once and in order |
| Synchronizer.NothingElseComesOut | crates/examples/replay/src/synchronizer.rs:94-123 | The output is as long as the streams together |
| Synchronizer.LatestFirst | crates/examples/replay/src/synchronizer.rs:48-57 | If in every stream timestamps, and tie breaks at the same timestamp, never increase, they never do in the output |
| Synchronizer.ChronologicalIff | crates/examples/replay/src/synchronizer.rs:94-98 | For streams in which they never decrease, they never do in the output, whatever way ties are resolved, if and only if at most one stream has events or all events have one timestamp and one tie break |
| Synchronizer.OvertakingRun | crates/examples/replay/src/synchronizer.rs:48-57 | Otherwise this constructs a run that dispatches a later event before an earlier one |

## Left out

- Memory orderings and fences: atomic operations are single sequentially consistent steps, and channels are unbounded FIFO queues whose send fails only if the receiver is gone.
- The width of the counter: it is an unbounded integer, which is the program's counter as long as fewer than 2^32 tokens exist at a time.
- Address arithmetic: addresses and offsets are natural numbers without wrap-around; that a size fits in 32 bits is modelled, that an intermediate sum fits in the word size is not.
- Raw pointers, pointer metadata, vtable calls, transmutes and the allocator itself: a reservation answers with an arbitrary address, and only whether the counter block is freed is kept.
- What a handler computes: a message is the tree of what it sends. A handler that panics, and unwinding, are not modelled.
- Accessors are owned by the environment of the machine: each makes finitely many sends and is then dropped, at any time. One that an actor keeps for ever keeps the system running, as it does in the program.
- The cycle check runs in `AcyclicKeys.InitData.CheckCycles`; its panic, like that of a failing constructor, is not a step of the machine.
- Drain.ContextData.DrainLocal: a sequential method, without interference; the interleavings of its steps with other threads are those of the machine, and `Drain.DrainingIsARun` connects the two.
- Settle.Outbox.SettleAndFlush: sequential too, and connected by `Settle.FlushingIsARun`.
- WhoStops.EveryRunStopsEveryoneIff: a statement about the machine, in which a message handed astray runs where it arrives; for the program `GoodOrder.EveryRunEndsWellIff` takes its place. Both assume keys that name existing contexts, which the types guarantee, and nothing about the route.
- Leaks.SomeRunLeaksIff: likewise about the machine; for the program see `GoodOrder.SomeOrderlyRunLeaksIff`.
- What a closure does in an arena that does not hold its actor: that it was handed there is recorded, what follows is not modelled.
- Synchronizer.BackgroundTask: streams are finite sequences, and the heap is a set of entries of which some greatest one is removed.
- RegistryFold: resource constructors, which take no part in lookups; a registration that fails aborts the program, so nothing is said about the registry after it.
- `borrow_mut` of a direct key, resources and their lazy initialisation, the tuple and registration macros, configuration parsing, namespaces and scopes, dynamic loading, signals and the Tokio scheduler.
- Index and id conversions, `all_keys` and `exactly_one_key`.
