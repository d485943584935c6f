# Synclog verification model

Synclog is a cursor-based event-sync protocol: an append-only log per stream with retention, a commit
cursor per subscriber, a gateway that serves public targets from streams, and a client runtime that
keeps a durable projection. The promise is that a client never sees a gap, never applies an event twice,
and shows the right state after any mix of truncation, redelivery and crash. This project models that
system in Dafny and proves the promise, together with the exact conditions where the code needs one.

| file | what it models |
|---|---|
| `Types`, `StreamLog` | one stream: the retained suffix of a history that is never truncated, as a value and as a class run in place |
| `LogServer` | a stream with its cursors and snapshots, moved by the store's critical sections in any order |
| `MemoryStore` | the in-memory store, many streams in maps, proved against `LogServer` |
| `CoreEngine` | catch-up and ack, made of separately locked store calls |
| `Watchers` | waiting for a stream to advance |
| `Delivery` | what a subscribe stream keeps about one binding, and the raw subscribe loop |
| `GatewayEngine`, `GatewayPoll` | bindings, target state and one poll of the gateway engine |
| `LiveSubscriptions`, `GatewayLoop`, `GatewayServe` | the live target set, the gateway stream's delivery state, and the subscribe call as a whole |
| `Keys`, `KeyAmbiguity` | the string keys of targets, bindings and records, and exactly when one is unambiguous |
| `ClientRecord`, `ClientStore` | the client's durable record and the map it is kept in |
| `CatchUpLoop`, `SyncClient` | the client's catch-up loop, as a function and run in place |
| `EndToEnd` | server, network and client together: safety over every run |
| `Refinement`, `Convergence` | the sequential client as one of the machine's clients: right at every request, and at the head when it returns |
| `Scenarios` | runs that show where the guarantees end |

How it fits together. `StreamLog.Stream` is what a mutex-held method leaves behind, and `history` is
everything ever assigned; `Represents` ties the two. `LogServer.IsRun` is any interleaving of the store's
critical sections, so a call made of several sections may meet any of the run's states, in order.
`EndToEnd` adds a client whose every `await` is a step of its own, with batches and acks that are late,
repeated or lost and with crashes between any two steps. The classes carry out the same operations on
fields, maps and buffers and are proved equal to the functions the lemmas are about, and `Refinement` shows
that the client run in place only takes steps of the end-to-end machine.

Conventions. Sequence numbers are natural numbers. Time, product hooks and the resolver are parameters.
A resolver answers the same target in the same way. A snapshot that the client could be served, by type and
version cap, holds state folded from the log (`ClientRecord.Faithful`); snapshots of other types and newer
versions may hold anything. A subscriber has one durable store, and only its client acks for it.

## What the proofs found

- Two client flows that share one store, both told TOO_LONG, can store their snapshots in the opposite order
  to the one they were served in. Cursor, applied number and head then agree, a further catch-up has nothing
  to do, and the view misses an event, although the server's latest snapshot never went back
  (`Scenarios.TwoFlowsCanOpenAHole`). `EndToEnd.GuardIsExact` is the exact condition over whole runs: the last
  snapshot stored must not be older than where the stored events started. One flow at a time always meets it
  (`EndToEnd.EndToEndCorrect`).
- A catch-up answered TOO_LONG repeats for ever when the latest snapshot does not reach the retained part
  of the log or leaves more than the replay budget (`CatchUpLoop.CatchUpEndsExactly`); truncating past the
  latest snapshot brings a client there (`Scenarios.CatchUpCanRepeatForEver`).
- `max_in_flight` is compared with what one page can leave unacked. In the raw loop it can keep a batch back if
  and only if it is set and smaller than the batch limit (`Delivery.RawKeepsExactly`). The gateway reads the
  cursor twice per poll, so there a limit equal to the batch limit can do so too (`Delivery.GatewayKeepsExactly`).
  A TOO_LONG can be kept back, in either loop, if and only if the limit is set and no larger than the batch
  limit (`Delivery.NoticeKeptExactly`). The client's defaults, 1000 against pages of 100, keep nothing back.
- TOO_LONG is signalled again on every poll that finds the cursor caught up (`Delivery.TooLongRepeats`);
  `Delivery.NoticeExact` says exactly when it is signalled, and `GatewayServe.GatewaySignalsBinding` says it of
  each binding of a gateway stream.
- Keys are ambiguous for some names. Among the bindings the gateway accepts, whose namespace, id and binding are
  not empty, a delivery key belongs to one alone if and only if a '/' at most begins the namespace or is the
  whole id, the view holds no '/' and no '#', and a '#' at most ends the binding (`KeyAmbiguity.DeliveryKeyExact`).
  A client record key does if and only if, besides, a ':' at most begins the subscriber id or ends the namespace
  (`KeyAmbiguity.RecordKeyExact`). `clearTarget` forgets a record only with its own target if and only if the
  subscriber id holds no ':', the binding no '#', and namespace, id and view are as above
  (`KeyAmbiguity.ClearExact`). Within a set of names a weaker condition is enough (`Keys.DeliveryKeyInjective`,
  `Keys.RecordKeyInjective`).
- A target that is removed and added again between two iterations of the subscribe loop does not start over: its
  bindings keep what they had been sent (`GatewayServe.QuickReAddIsUnseen`, `GatewayLoop.ForgetsExactly`). The
  comment at `pkg/gateway/transport/grpc/server.go:230-232` promises a clean resume for a re-add; the code gives it
  when an iteration found the target absent. The model follows the code.
- The comment at `pkg/synclog/types.go:39` says that a retained start of zero means no retained events. In
  the code zero means that nothing was ever appended: a stream whose events were all removed has head + 1.
  The model follows the code.

## Model

| member | source | states |
|---|---|---|
| `Types.NormalizeLimit` | pkg/synclog/engine.go:145-153 | a page holds at least one and at most 1000 events whatever was asked |
| `Types.PageSizes` | pkg/synclog/engine.go:145-153 | 100 events for zero or less, the number asked up to 1000, and 1000 above that |
| `StreamLog.AppendKeepsRepresents` | internal/storage/memory/store.go:59-98 | an append keeps the stream the suffix of the history and the idempotency index in agreement with it, and the boundary never moves down |
| `StreamLog.TruncateKeepsRepresents` | internal/storage/memory/store.go:351-376 | so does truncation |
| `StreamLog.RetainKeepsRepresents` | internal/storage/memory/store.go:688-721 | so does retention |
| `StreamLog.DropKeepsSuffix` | internal/storage/memory/store.go:715-720 | cutting any number of oldest events leaves a suffix whose boundary names its first number, or head + 1 |
| `StreamLog.ReplayTooOldExact` | pkg/synclog/engine.go:155-162 | the boundary test fires if and only if the event after the cursor was assigned and is no longer held |
| `StreamLog.ReadIsNextPage` | internal/storage/memory/store.go:144-188 | a read is refused exactly when the next event is gone, and otherwise is the next page of the whole history with exact bounds and final flag |
| `StreamLog.TruncateReplayableExact` | internal/storage/memory/store.go:364-374 | truncation makes exactly the cursors below the cut (and below the head) unreplayable |
| `StreamLog.RetryNeverAssigns` | internal/storage/memory/store.go:67-97 | a key in the index is carried by exactly one history position; a retry changes nothing and returns that event or reports it compacted; a new key gets the next number |
| `StreamLog.RetentionExact` | internal/storage/memory/store.go:695-720 | retention removes the longer of the longest expired prefix and the overflow, no more, and MaxEvents holds afterwards |
| `StreamLog.RetentionByAge` | internal/storage/memory/store.go:695-720 | what is removed is as long as the overflow or the longest prefix of events stamped more than the days of the policy before now, whichever is longer |
| `StreamLog.OnlyOldEventsGo` | internal/storage/memory/store.go:696-702 | without overflow every removed event is that old, the first one kept is not, and without a time limit nothing is removed |
| `StreamLog.AppendIsBounded` | internal/storage/memory/store.go:78-95 | an assigned event is the newest one held unless retention removed everything, and MaxEvents holds at once |
| `StreamLog.AppendStoresRequest` | internal/storage/memory/store.go:78-97 | a request that is no retry is assigned the next number, the event holds the request's stream, payload, type, version, key and time, and the history ends in it |
| `StreamLog.StreamState.constructor` | internal/storage/memory/store.go:640-647 | a new stream is empty and valid |
| `StreamLog.StreamState.EventBySeq` | internal/storage/memory/store.go:733-740 | finds the retained event of a number or none |
| `StreamLog.StreamState.Assign` | internal/storage/memory/store.go:78-94 | in place: next number, boundary, index and history, all at once |
| `StreamLog.StreamState.CutAt` | internal/storage/memory/store.go:369-374 | in place: drops a prefix and moves the boundary |
| `StreamLog.StreamState.TruncateBefore` | internal/storage/memory/store.go:364-375 | in place: truncation and the number removed |
| `StreamLog.StreamState.CountRemovals` | internal/storage/memory/store.go:695-708 | the scan counts exactly what retention is to remove |
| `StreamLog.StreamState.ApplyRetention` | internal/storage/memory/store.go:688-721 | in place: retention as specified, nothing without a policy |
| `StreamLog.StreamState.AppendLocked` | internal/storage/memory/store.go:67-97 | in place: the append step, its outcome and its history; an assigned event has the next number and the request's own fields and ends the history |
| `StreamLog.StreamState.ReadAfter` | internal/storage/memory/store.go:159-187 | the scan and slice serve exactly the specified page |
| `LogServer.LatestIsUnique` | internal/storage/memory/store.go:539-547 | at most one snapshot is the greatest compatible one by (seq, version) |
| `LogServer.LatestExists` | internal/storage/memory/store.go:530-552 | if any snapshot is compatible, a greatest one exists and is not below it |
| `LogServer.LatestExact` | internal/storage/memory/store.go:530-552 | the selection is none exactly when nothing is compatible and otherwise the unique greatest entry |
| `LogServer.LatestServes` | internal/storage/memory/store.go:530-552 | the served snapshot has the requested type and a version within the cap, no stored one of that type within that cap is newer, and none is served if and only if none is stored |
| `LogServer.PutNeverLowersLatest` | internal/storage/memory/store.go:486-513 | storing a snapshot never lowers the number a client with fixed type and version cap is served |
| `LogServer.PutExact` | internal/storage/memory/store.go:486-513 | a snapshot of the same number, type and version stays if its checksum is equal and is replaced if not; every other one stays and nothing else appears |
| `LogServer.TakeKeepsInv` | internal/storage/memory/store.go:59-514 | every critical section keeps the server invariant and takes nothing durable back |
| `LogServer.RunInvariant` | internal/storage/memory/store.go:59-514 | in every state of every run the invariant holds; history, boundary and cursors only grow |
| `LogServer.GoneForGood` | pkg/synclog/engine.go:155-162 | an event that can no longer be read never comes back |
| `LogServer.RunHasSteps` | internal/storage/memory/store.go:59-514 | every run is the run of some sequence of critical sections |
| `LogServer.StepBalance` | internal/storage/memory/store.go:364-375 | a step changes the number held by what it assigns less what it counts as removed: the prefix under the cut, or what retention counts |
| `LogServer.Conservation` | internal/storage/memory/store.go:364-375 | over any run the head is the sum of what truncation and retention counted as removed plus the events held, and the boundary is one past those removed |
| `LogServer.KeyStaysForEver` | internal/storage/memory/store.go:67-94 | once a key is known it stands for the same position and the same event in every later state of the run |
| `LogServer.CompactionSafe` | internal/storage/memory/store.go:397-415 | with any steps between computing the minimum and cutting, exactly cursors below both minimum and head lose their replay, so no subscriber recorded at the minimum does |
| `MemoryStore.Store.constructor` | internal/storage/memory/store.go:49-57 | a new store is empty |
| `MemoryStore.Store.EnsureStream` | internal/storage/memory/store.go:640-647 | creating a missing stream changes no stream's value |
| `MemoryStore.Store.Append` | internal/storage/memory/store.go:59-98 | the append step on the named stream and its outcome; an assigned event has the next number and the request's fields and ends the stream's history; every other stream is unchanged |
| `MemoryStore.Store.GetHead` | internal/storage/memory/store.go:129-142 | head and boundary, zero for an unknown stream |
| `MemoryStore.Store.Read` | internal/storage/memory/store.go:144-188 | the specified page or refusal with the head seen in the same section |
| `MemoryStore.Store.GetCursor` | internal/storage/memory/store.go:190-210 | the committed cursor, zero without a record |
| `MemoryStore.Store.Ack` | internal/storage/memory/store.go:212-237 | a cursor and its metadata rise together or stay; no other cursor changes |
| `MemoryStore.Store.TruncateBefore` | internal/storage/memory/store.go:351-376 | the truncation step on one stream, the count removed, every other stream unchanged |
| `MemoryStore.Store.MinCursor` | internal/storage/memory/store.go:397-409 | the lowest cursor on record for the stream, in any map order |
| `MemoryStore.Store.CompactStream` | internal/storage/memory/store.go:389-420 | truncates just above the lowest cursor, or not at all |
| `MemoryStore.Store.SetStreamRetention` | internal/storage/memory/store.go:422-441 | the policy last set for a stream is the one appends apply, and it is applied at once to that stream only |
| `MemoryStore.Store.PutSnapshot` | internal/storage/memory/store.go:472-514 | the put step on the stream; an equal checksum under the same key changes nothing |
| `MemoryStore.Store.GetLatestSnapshot` | internal/storage/memory/store.go:516-553 | in any map order the loop returns a stored snapshot of the stream, of the type and within the cap, and none of these is newer |
| `MemoryStore.EngineCatchUp` | pkg/synclog/engine.go:77-120 | the call over the store equals the pure catch-up reply |
| `MemoryStore.EngineAck` | pkg/synclog/engine.go:122-143 | refuses exactly beyond the head and otherwise takes the ack step |
| `CoreEngine.InterleavedCatchUp` | pkg/synclog/engine.go:77-120 | with any steps between its three store calls: TOO_LONG if and only if the next event was gone at the read or the budget was exceeded at the head check, else the page of the history after the cursor |
| `CoreEngine.AckSafe` | pkg/synclog/engine.go:122-143 | with steps between check and commit, an accepted ack is exactly the raise to max, never past the head, and touches no other cursor |
| `Watchers.WaitingExact` | internal/storage/memory/store.go:657-664 | filtering keeps exactly the watchers whose number the head has not passed |
| `Watchers.Notify` | internal/storage/memory/store.go:652-670 | the in-place filter keeps the right watchers in order and closes exactly the others, once each |
| `Watchers.Remove` | internal/storage/memory/store.go:672-686 | the swap-remove drops exactly the one channel's watcher |
| `Watchers.SwapRemoveExact` | internal/storage/memory/store.go:674-680 | moving the last entry into a slot removes that slot's entry and nothing else |
| `Watchers.WatchedStream.Register` | internal/storage/memory/store.go:108-116 | returns at once exactly when the stream's head is past; otherwise joins; no watcher ever waits for a passed number |
| `Watchers.WatchedStream.Wake` | internal/storage/memory/store.go:652-670 | wakes exactly the watchers below the given head and keeps the others in order |
| `Watchers.WatchedStream.Append` | internal/storage/memory/store.go:67-97 | the append step on the stream, which wakes exactly the watchers its head has passed and loses none; a retry wakes nobody |
| `Watchers.WatchedStream.Cancel` | internal/storage/memory/store.go:121-125 | giving up removes one watcher and wakes nobody |
| `Delivery.FlowControl` | pkg/synclog/transport/grpc/server.go:200-254 | over any run: delivered stays within the head and one page of the cursor; batches are log stretches with strictly growing ends that with the acked prefix cover everything delivered |
| `Delivery.SendsAreBounded` | pkg/synclog/transport/grpc/server.go:240-254 | a stream sends at most one batch per event of the log |
| `Delivery.RawKeepsExactly` | pkg/synclog/transport/grpc/server.go:215-254 | some run and polls of the raw loop have a batch that only the in-flight limit keeps back, if and only if the limit is set and smaller than a page |
| `Delivery.GatewayKeepsExactly` | pkg/gateway/transport/grpc/server.go:263-304 | with the cursor read before the catch-up reads it again, if and only if the limit is set and no larger than a page |
| `Delivery.NoticeKeptExactly` | pkg/gateway/transport/grpc/server.go:269-287 | some run and polls have a TOO_LONG that only the limit keeps back, in either loop, if and only if it is set and no larger than a page |
| `Delivery.LargeLimitNeverThrottles` | pkg/synclog/transport/grpc/server.go:219-225 | in every run an in-flight limit above the page size never holds anything back |
| `Delivery.BatchGate` | pkg/synclog/transport/grpc/server.go:215-254 | a batch goes out if and only if there is room, the reply is a page and it ends past what was delivered; delivered then is its end |
| `Delivery.TooLongOnce` | pkg/gateway/transport/grpc/server.go:263-287 | while something delivered is unacked, TOO_LONG is signalled at most once |
| `Delivery.TooLongRepeats` | pkg/gateway/transport/grpc/server.go:265-287 | with the cursor caught up, every TOO_LONG poll signals again |
| `Delivery.NoticeExact` | pkg/gateway/transport/grpc/server.go:263-287 | at every poll TOO_LONG is signalled if and only if there is room, the reply is TOO_LONG, and it was not signalled before with something delivered unacked at every poll since |
| `Delivery.AtMostOneNotice` | pkg/gateway/transport/grpc/server.go:263-287 | across any stretch of polls at which something delivered is unacked at most one TOO_LONG goes out |
| `Delivery.DeliverIsPolls` | pkg/synclog/transport/grpc/server.go:200-254 | a stream over a run of the log is the machine the signalling results are about |
| `Delivery.RawLoopDelivers` | pkg/synclog/transport/grpc/server.go:200-254 | the raw loop over the replies of a run is that stream, so flow control and signalling hold of it |
| `Delivery.RawSubscription.Turn` | pkg/synclog/transport/grpc/server.go:215-268 | one turn of the raw loop is one poll of the machine and repeats at once exactly after a batch that is not final |
| `Delivery.RawSubscription.Subscribe` | pkg/synclog/transport/grpc/server.go:194-269 | the loop run in place keeps and sends what the machine keeps and sends over the same replies |
| `GatewayEngine.ResolveBindings` | pkg/gateway/engine.go:480-510 | refuses exactly an empty answer, an empty stream, an empty key among several and a key named twice; otherwise every binding keeps its stream and types, and its key unless that is empty |
| `GatewayPoll.JobIsAnswered` | pkg/gateway/engine.go:480-510 | every binding polled has the stream and types the resolver answered for its target, and the answer's key or "default" when that was empty |
| `GatewayPoll.AnswerIsJob` | pkg/gateway/engine.go:288-308 | every binding the resolver answered for a polled target is polled |
| `GatewayEngine.SelectBinding` | pkg/gateway/engine.go:599-612 | an empty request picks the only binding, a name its first bearer |
| `GatewayEngine.BindingRoundTrip` | pkg/gateway/engine.go:317-322 | the key on any result selects, in a later request, the binding it came from |
| `GatewayPoll.ResponseSelectsItsStream` | pkg/gateway/engine.go:308-333 | target and key of any polled response select, on a new resolution, the very binding and stream that was polled |
| `GatewayPoll.SelectStream` | pkg/gateway/engine.go:480-510 | resolving anew and selecting, as acks and snapshot requests do, answers exactly when the target resolves and the key selects |
| `GatewayEngine.SummarizeTarget` | pkg/gateway/engine.go:516-552 | lowest cursor, highest head, lowest boundary among streams that ever held an event |
| `GatewayEngine.BindingCursorIsOwn` | pkg/gateway/transport/grpc/server.go:539-549 | with distinct keys each binding is compared with its own cursor |
| `GatewayEngine.BindingCursorExact` | pkg/gateway/transport/grpc/server.go:539-549 | the first binding of the name is compared with, and the target's own cursor when there is none |
| `GatewayEngine.ShowBatch` | pkg/gateway/engine.go:554-597 | the shown batch is the whole core batch field by field with its bounds, or the call fails exactly when some event is off the binding's list or not exposed |
| `GatewayPoll.PollBinding` | pkg/gateway/engine.go:308-332 | one binding answered from its own stream and cursor with any steps between the store calls, or refused because of an event read in that very call |
| `GatewayPoll.ReportTarget` | pkg/gateway/engine.go:516-552 | the reported state holds for each binding a cursor, head and boundary that its own stream had during the poll, and their summary |
| `GatewayPoll.PollTarget` | pkg/gateway/engine.go:301-333 | every binding of a target answered in order, or refused because of an event read during the poll |
| `GatewayPoll.PollTargets` | pkg/gateway/engine.go:276-336 | every binding of every target answered once and in order, or the whole call fails: no target, one not valid, resolvable and permitted, or an event read during the poll that may not be shown |
| `GatewayPoll.PollAs` | pkg/gateway/engine.go:276-336 | the poll for the id the resolver answers, refused as well when the request or the answer names nobody |
| `GatewayPoll.ResponseExact` | pkg/gateway/engine.go:308-333 | a response is TOO_LONG if and only if the next event was gone at the read or more than a set budget lay ahead at the head check; otherwise it is the next page, all of it on the binding's list and exposed |
| `GatewayPoll.RefusalExact` | pkg/gateway/engine.go:566-586 | a refusal names an event of a page read in that call that is off the list or not exposed |
| `GatewayPoll.JobsAreDistinct` | pkg/gateway/engine.go:480-510 | no two answers of a poll share target and binding key |
| `LiveSubscriptions.LiveTargets.constructor` | pkg/gateway/transport/grpc/server.go:47-57 | starts with exactly the requested targets |
| `LiveSubscriptions.LiveTargets.RemoveAll` | pkg/gateway/transport/grpc/server.go:73-75 | removes exactly the named targets |
| `LiveSubscriptions.LiveTargets.AddAll` | pkg/gateway/transport/grpc/server.go:76-78 | adds exactly the named targets |
| `LiveSubscriptions.ChangedExact` | pkg/gateway/transport/grpc/server.go:69-81 | after a call what it adds is live, what it removes and does not add is not, and everything else is as before |
| `LiveSubscriptions.LiveTargets.Apply` | pkg/gateway/transport/grpc/server.go:69-81 | a key named in the adds is present, one named only in the removes is absent, any other is present as before and with its old target |
| `LiveSubscriptions.LiveTargets.Snapshot` | pkg/gateway/transport/grpc/server.go:59-67 | every active target exactly once, in any map order |
| `LiveSubscriptions.Registry.Register` | pkg/gateway/transport/grpc/server.go:90-98 | an id in use stays with its stream |
| `LiveSubscriptions.Registry.Unregister` | pkg/gateway/transport/grpc/server.go:100-108 | an ending stream frees its id only while it is still its own |
| `LiveSubscriptions.Registry.Modify` | pkg/gateway/transport/grpc/server.go:451-463 | succeeds exactly for a live id of the caller's subscriber; then adds are present, removes absent, everything else and every other stream as before |
| `GatewayLoop.PruneMap` | pkg/gateway/transport/grpc/server.go:414-431 | exactly the entries of active targets' prefixes stay, unchanged |
| `GatewayLoop.GatewayStream.Prune` | pkg/gateway/transport/grpc/server.go:406-432 | both maps pruned alike: a kept key's state is unchanged, any other reads as fresh |
| `GatewayLoop.GatewayStream.Handle` | pkg/gateway/transport/grpc/server.go:260-305 | one response is one poll of its own key's machine and touches no other key |
| `GatewayLoop.GatewayStream.Turn` | pkg/gateway/transport/grpc/server.go:229-318 | one iteration is, for every key, that key's own turn; it repeats at once exactly after a batch that is not final |
| `GatewayLoop.GatewayStream.TurnNext` | pkg/gateway/transport/grpc/server.go:260-305 | non-interference: after one more iteration every key's state and sends are still those of a machine serving this key alone |
| `GatewayLoop.ReAddStartsFresh` | pkg/gateway/transport/grpc/server.go:230-233 | when an iteration finds a key's target absent, what follows is what a new stream would send, whatever was sent before |
| `GatewayLoop.ForgetsExactly` | pkg/gateway/transport/grpc/server.go:230-233 | an iteration forgets a key's state if and only if it finds no active target of that key |
| `GatewayLoop.KeptExact` | pkg/gateway/transport/grpc/server.go:403-421 | with separable targets pruning keeps exactly the active targets' entries |
| `GatewayLoop.PollKeysDistinct` | pkg/gateway/transport/grpc/server.go:551-560 | within one poll no two bindings share a key and all are kept |
| `GatewayLoop.KeyRunIsDeliver` | pkg/gateway/transport/grpc/server.go:260-305 | a key's machine behind the gateway is the single-stream machine over the same looks |
| `GatewayLoop.GatewayFlowControl` | pkg/gateway/transport/grpc/server.go:263-305 | a key's machine that is polled once an iteration, in order, keeps the single-stream flow control and no-gap guarantee |
| `GatewayServe.ModifyAll` | pkg/gateway/transport/grpc/server.go:434-470 | after any calls the live keys are those the calls for this subscription add and remove, in order |
| `GatewayServe.LastCallDecides` | pkg/gateway/transport/grpc/server.go:69-81 | a key that a call removed and nothing added since is not live, one that a call added and nothing removed since is |
| `GatewayServe.CallsDecidePolls` | pkg/gateway/transport/grpc/server.go:229-256 | such a removed target is not among the targets an iteration polls, such an added one is |
| `GatewayServe.PollLive` | pkg/gateway/transport/grpc/server.go:229-256 | an iteration polls exactly the targets live at that point, each once |
| `GatewayServe.GatewaySubscribe` | pkg/gateway/transport/grpc/server.go:197-337 | the whole call: every iteration polls the live targets, every key's state and sends are those of a machine of its own, the registry ends as it began, and it ends early only for a taken id or a poll of the live targets that fails |
| `GatewayServe.PollIsFromPoll` | pkg/gateway/engine.go:276-336 | a successful poll meets what the subscribe loop relies on |
| `GatewayServe.PollObserves` | pkg/gateway/transport/grpc/server.go:252-267 | each binding of a poll is handled once, under its own key, with its own committed cursor |
| `GatewayServe.ChainTracks` | pkg/gateway/transport/grpc/server.go:219-305 | over iterations in which a target stays active each of its bindings is polled once an iteration, in order of time |
| `GatewayServe.AbsentIsFresh` | pkg/gateway/transport/grpc/server.go:230-233 | an iteration without the target leaves its bindings as never served |
| `GatewayServe.GatewayServesBinding` | pkg/gateway/transport/grpc/server.go:219-305 | of the frames the stream sent under a binding's key, those since its target was last added are log stretches with growing ends that with the acked prefix cover everything delivered, within one page of its own cursor, whatever the other targets do |
| `GatewayServe.GatewaySignalsBinding` | pkg/gateway/transport/grpc/server.go:219-305 | of a binding's frames since its target was last added, TOO_LONG is the one at exactly the polls where a notice is due, at most one across any stretch with something unacked, and there are at most as many batches as events, whatever the other targets do |
| `GatewayServe.QuickReAddIsUnseen` | pkg/gateway/transport/grpc/server.go:71-81 | a remove and an add between two iterations leave the live keys as they were |
| `Keys.DeliveryKeyInjective` | pkg/gateway/transport/grpc/server.go:551-560 | two bindings share a delivery key if and only if they are the same, when namespaces and ids hold no '/' and views no '#' |
| `Keys.RecordKeyInjective` | ts/synclog/src/target.ts:15-21 | record keys are equal if and only if the bindings are, for any subscriber ids, when namespaces hold no ':', ids and views no '/', bindings no '#' |
| `Keys.PrefixExact` | pkg/gateway/transport/grpc/server.go:410-421 | with separable targets a target's prefix matches a delivery key if and only if the key is that target's |
| `Keys.ClearMarkerExact` | ts/synclog/src/memory-store.ts:64-74 | for targets without separators and ids and bindings without '#', the marker occurs in a record key if and only if the record is the target's |
| `Keys.SeparatorsCollide` | ts/synclog/src/target.ts:15-21 | an example of each: two targets with one delivery key, two subscribers with one record key |
| `KeyAmbiguity.DeliveryKeyExact` | pkg/gateway/transport/grpc/server.go:551-560 | among accepted bindings a delivery key belongs to one alone if and only if a '/' at most begins the namespace or is the whole id, the view holds no '/' or '#', and a '#' at most ends the binding |
| `KeyAmbiguity.RecordKeyExact` | ts/synclog/src/target.ts:15-21 | among accepted bindings a record key belongs to one alone if and only if, besides, a ':' at most begins the subscriber id or ends the namespace |
| `KeyAmbiguity.ClearExact` | ts/synclog/src/memory-store.ts:64-74 | a record is forgotten by clearing its own target and no other accepted one if and only if the subscriber id holds no ':', the binding no '#', and the target is unambiguous |
| `ClientRecord.ApplySnapshotExact` | ts/synclog/src/memory-store.ts:28-45 | the record stays a log stretch, applied is the maximum, and there is no hole if and only if the snapshot reaches the stored events |
| `ClientRecord.ApplyEventsSlice` | ts/synclog/src/memory-store.ts:47-62 | applying any log stretch that starts no later than applied appends exactly what is new |
| `ClientRecord.AboveSlice` | ts/synclog/src/client.ts:311-312 | filtering a log stretch by the applied number leaves the contiguous rest |
| `ClientRecord.ViewIsFold` | ts/synclog/src/memory-store.ts:28-62 | a whole record shows exactly the fold of the log up to its applied number |
| `ClientRecord.JournalShowsHole` | ts/synclog/src/memory-store.ts:34-39 | for a journal projection the view is right if and only if there is no hole |
| `ClientStore.MemorySyncStore.constructor` | ts/synclog/src/memory-store.ts:22-22 | every key starts with an empty record |
| `ClientStore.MemorySyncStore.RecordAt` | ts/synclog/src/memory-store.ts:91-99 | creating a missing record changes no record's value |
| `ClientStore.MemorySyncStore.GetAppliedSeq` | ts/synclog/src/memory-store.ts:24-26 | the applied number, zero for a new key |
| `ClientStore.MemorySyncStore.ApplySnapshot` | ts/synclog/src/memory-store.ts:28-45 | the snapshot step on one record, all others unchanged |
| `ClientStore.MemorySyncStore.ApplyEvents` | ts/synclog/src/memory-store.ts:47-62 | the loop is the event step on one record, all others unchanged |
| `ClientStore.MemorySyncStore.ClearTarget` | ts/synclog/src/memory-store.ts:64-74 | removes exactly the records whose key holds the marker |
| `CatchUpLoop.ReplyExact` | pkg/synclog/engine.go:102-120 | in a coherent state the reply is TOO_LONG exactly when the client is too far behind, else the next page |
| `CatchUpLoop.PageTurn` | ts/synclog/src/client.ts:140-151 | after a page the record reached its end, the cursor follows the record, and the loop returns exactly at the head |
| `CatchUpLoop.RecoverTurn` | ts/synclog/src/client.ts:129-134 | after TOO_LONG the record takes the latest snapshot and the cursor rises to it |
| `CatchUpLoop.ReplayReachesHead` | ts/synclog/src/client.ts:116-152 | a replayable client reaches the head within as many requests as pages cover the distance |
| `CatchUpLoop.RecoveryEnds` | ts/synclog/src/client.ts:129-152 | a snapshot that reaches ends the loop at the head: one request plus the pages after it |
| `CatchUpLoop.RecoveryLoops` | ts/synclog/src/client.ts:129-134 | any other snapshot leaves a fixpoint after one request and the loop never ends |
| `CatchUpLoop.CatchUpEndsExactly` | ts/synclog/src/client.ts:107-153 | on a quiet server catch-up returns if and only if replay is possible or the latest snapshot reaches the retained part within budget, and fails if and only if it needs a snapshot and there is none |
| `CatchUpLoop.EndsIfAndOnlyIf` | ts/synclog/src/client.ts:116-152 | the loop is over after some number of requests if and only if replay is possible, there is no compatible snapshot, or the latest one reaches the retained part within budget |
| `CatchUpLoop.OneOutcome` | ts/synclog/src/client.ts:116-152 | where the loop is cut off never changes how it ended |
| `SyncClient.Client.SendAck` | ts/synclog/src/client.ts:332-340 | commits the number or fails beyond the head |
| `SyncClient.Client.RecoverFromSnapshot` | ts/synclog/src/client.ts:272-303 | stores the latest compatible snapshot and acks its number, or fails without one |
| `SyncClient.Client.StoreNew` | ts/synclog/src/client.ts:310-327 | stores exactly the events above the applied number and reports what the store reached |
| `SyncClient.Client.StoreBatch` | ts/synclog/src/client.ts:305-330 | acks what the store reached, never the batch's own end |
| `SyncClient.Client.OneRequest` | ts/synclog/src/client.ts:117-151 | one pass of the loop is one request step |
| `SyncClient.Client.CatchUpWithin` | ts/synclog/src/client.ts:107-153 | stopped after any number of requests, the loop run in place is the loop the termination lemmas are about |
| `SyncClient.Client.CatchUp` | ts/synclog/src/client.ts:107-153 | the unbounded loop, called in any coherent state in which it will end, returns or fails with the state some number of requests leads to |
| `EndToEnd.TheLogIsFree` | internal/storage/memory/store.go:59-514 | in every state of the machine anything may be appended, truncated or expired, others may ack up to the head, and snapshots of other types or above the version cap may hold anything |
| `EndToEnd.FilterKeepsStretch` | ts/synclog/src/client.ts:310-312 | however stale a batch is, what the filter leaves joins the record without a gap |
| `EndToEnd.StepKeepsSafe` | ts/synclog/src/client.ts:272-340 | every step of server, network and client keeps commit safety |
| `EndToEnd.CommitSafety` | ts/synclog/src/client.ts:324-328 | in every reachable state, for any number of flows: cursor <= applied <= head, the stored events are a log stretch, and every batch ever produced joins it |
| `EndToEnd.ProjectionCorrect` | ts/synclog/src/memory-store.ts:28-62 | for any number of flows, unless the last snapshot stored was older than where the stored events started, the view is the fold of the log up to the applied number |
| `EndToEnd.HoleExact` | ts/synclog/src/memory-store.ts:34-39 | in every reachable state the record has no hole if and only if the last snapshot stored reached the stored events' start |
| `EndToEnd.GuardIsExact` | ts/synclog/src/memory-store.ts:34-39 | over every run and any number of flows, the journal is right if and only if the last snapshot stored, if any, reached the stored events' start |
| `EndToEnd.StepKeepsSolo` | ts/synclog/src/client.ts:272-303 | with one flow that condition always holds, because the latest snapshot number never drops |
| `EndToEnd.EndToEndCorrect` | ts/synclog/src/client.ts:272-330 | with one flow at a time, in every reachable state the view is the fold of the log up to the applied number and cursor <= applied <= head |
| `Scenarios.TwoFlowsCanOpenAHole` | ts/synclog/src/memory-store.ts:34-39 | a run in which two flows, both told TOO_LONG, end idle with cursor, applied and head at 2 while the view shows only event 1, and catch-up has nothing left to do |
| `Scenarios.CatchUpCanRepeatForEver` | ts/synclog/src/client.ts:129-134 | a run that truncates past the latest snapshot and leaves an idle client whose catch-up neither returns nor fails |
| `Refinement.RequestIsPlayed` | ts/synclog/src/client.ts:117-151 | one pass of the sequential loop is a sequence of the machine's acts, ending with the flow idle |
| `Refinement.LoopRefinesMachine` | ts/synclog/src/client.ts:107-153 | from any state of any execution, a flow that starts over and runs the loop for any number of requests stays inside an execution of the machine |
| `Convergence.CatchUpIsAlwaysRight` | ts/synclog/src/client.ts:107-153 | after any number of requests from any reachable state the view is the fold of the log up to the applied number, and cursor <= applied <= head |
| `Convergence.CatchUpConverges` | ts/synclog/src/client.ts:107-153 | from any reachable state, a catch-up that returns on a quiet server leaves the view the fold of the entire log, with applied number and cursor at its head |

## Left out

- SyncClient.Client.CatchUp: asks that the call will end, which EndsIfAndOnlyIf shows to be the exact condition, since a call that never ends returns nothing; CatchUpWithin covers every request of a call that does not.
- EndToEnd.EndToEndCorrect: one flow at a time, because Scenarios.TwoFlowsCanOpenAHole refutes it for two; ProjectionCorrect and GuardIsExact cover any number of flows with the exact condition.
- CatchUpLoop.CatchUpEndsExactly: the server is quiet while the loop runs; against a server that keeps appending the safety lemmas hold but arrival is not claimed.
- Delivery.TooLongOnce: "at most once" does not hold at equality of cursor and delivered; NoticeExact is the exact condition.
- Watchers.WatchedStream.Register: a stream and its watchers are one object; the store's map from stream ids to watcher slices and the blocking receive are not modelled.
- ClientStore.MemorySyncStore.ApplyEvents: records are values in the map, so pushing to a record object shared with a caller (aliasing) is not captured; getRecord's copy is left out.
- GatewayPoll.PollTargets: a target's authorization is one predicate; authorization, payload policy and codec of an event are another. The subscriber resolver's answer is a parameter of PollAs, and GatewaySubscribe takes the same answer at every poll. The in-memory store's calls do not fail for non-empty ids, so failures of other stores are left out.
- GatewayServe.GatewaySubscribe: iterations and the calls that change targets alternate in one sequence; changes made while an iteration runs take effect in the next, as in the source, which reads the target set once an iteration. Which adds a call accepts is decided by resolution and authorization and is a parameter.
- EndToEnd.CommitSafety: flows carry core events; that the gateway's batch is their exact image is GatewayEngine.ShowBatch.
- GatewayLoop.GatewayStream.Turn: heartbeats, waiting and the wake channel are left out; no claim is made that a target change is seen promptly.
- Sequence numbers are unbounded: wrap-around at 2^64 of head, of minimum cursor + 1 and of a 64-bit retention duration is not modelled.
- DeleteStream, DeleteSnapshot and ResetCursor: admin overrides that break the hypotheses of the end-to-end run (numbers restart, the latest snapshot drops, a cursor passes applied state).
- Argument checks on missing requests and ids, except Append's, and the default creation time of an event.
- Listing, statistics, stream creation and codec registry calls: nothing beyond plumbing.
- Snapshot metadata other than number, type, version, checksum and payload.
- gRPC, protobuf conversion, actor extraction, reconnect back-off and abort signals.
- selectResult and matchesBinding: picking the client's own binding out of a reply; the client model has one binding.
- The counters in the client's catch-up summary.
- GatewayAck and GatewayGetLatestSnapshot as calls: their binding selection is BindingRoundTrip and SelectBinding, their core is AckSafe and GetLatestSnapshot.
- Other storage adapters than the in-memory store.
