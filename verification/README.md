# AppTraverse: a verified model

AppTraverse is an event-sourced object platform. A live object is a base snapshot with a journal ordered by
timestamp; journals replicate over a transport that loses, duplicates and delays packets; and a UI mirror is fed
through a lock-free channel. This project models those parts in Dafny and proves what they are for.
`dafny verify dfyconfig.toml` checks all of it.

| part | files |
|---|---|
| journal, replay, insertion, compaction | `EventJournal`, `Node`, `NodeRuns` |
| concrete nodes: chat workspace, chat room with its Share topology | `Workspace`, `ChatRoom`, `SharedNode`, `RoomRuns`, `RoomImport` |
| replication of a shared node among any number of replicas | `LinkSync`, `Replication`, `ReplicationInvariant`, `ReplicationSteps`, `ReplicationProgress`, `HandlerLaws`, `Provenance`, `Convergence`, `Delivery`, `SyncRuntime`, `Deployment` |
| publication to the UI | `Channel`, `Mirror`, `ModelRuntime` |
| presentation sizes, presenters, collection of live objects | `SizeQueue`, `Presenters`, `Reachability` |
| import of event graphs | `GraphImport` |
| wire formats | `WireBytes`, `SyncFrame`, `AetherFrame` |
| sending a message | `ChatCommands` |

Objects the code updates in place are classes whose methods carry the loops of the code and are proved against
functions on values. Concurrent parts are state machines whose steps are the atomic accesses or critical sections
of the code, and the theorems range over every sequence of steps.

## What turned out not to hold everywhere

Each of these is stated as an exact condition, most with an input that shows the other side.

- Insertion order is irrelevant up to equal timestamps, and there it matters (`EventJournal.SwapInsertions`).
- Compaction commutes with an insertion only above the collapsed timestamps (`Nodes.CompactionCommutesOnlyAbove`).
- A local commit fails exactly when the journal's last timestamp is 2^64-1, where the adjusted time wraps to zero, or
  when the journal is empty and the clock reads 0: insertion refuses time zero and the caller asserts
  (`Nodes.Node.CommitInto`). The same wrap reaches SubmitDraft (`ChatCommands.EffectiveTimeIsLater`).
- An identity that compaction has folded into the base can be inserted again, because only the journal is searched
  (`NodeRuns.InsertKeepsHistoryUniqueIff`).
- A room can be shared over the network only while the source's share stands in the journal: shares that stand in the
  base get no sync state from the replay, and the import refuses them (`RoomImports.AdmittedIff`). A destination's
  share that stands in the base is not looked at there and trips the assertion that follows.
- Sequence order is timestamp order within a room but not across rooms, because the counter is shared and the time
  is adjusted against one room only (`ChatCommands.SubmitKeepsOrderAcrossRoomsIff`, `ChatCommands.TwoRoomsSameInstant`).
- AttachNode marks nothing pending. A new node is shown only through a later change or the publication of a node whose
  graph reaches it, such as the parent it is added to (`Mirrors.NewNodeShownIff`); detaching a changed node and
  attaching it again leaves the mirror stale (`Mirrors.ReattachedShownIff`, `Mirrors.ReattachLosesChange`).
- An import that is cut short before the application has saved its reference to the node is lost for good: storage is
  occupied and refuses every redelivery, and no restart registers the node. This takes in deaths after node and
  state are saved, an import expected by node id alone, and one whose binding was refused
  (`Convergence.InterruptedImportRecoverableIff`, `Convergence.RecoverableIffReferenced`).
- A size-queue drain that the model queue refuses, as it does after a stop, leaves the schedule flag set for good, and
  nothing else does (`SizeQueues.StuckIffRefused`, `SizeQueues.PostedSizeStaysIffRefused`).
- Remapping a reference twice is harmless only while new ids are not wire ids; allocation does not look at wire ids
  (`GraphImport.RevisitsHarmlessIff`, `GraphImport.SwappedIdsMisdirect`).
- The publication channel needs two slots, not three, because nothing is published while a publication is unread
  (`Channels.SlotsNeeded`).

## Assumptions

- Generated object ids are fresh: packet ids, share ids and imported ids are new to the receiver when drawn.
- Saving an object is durable and atomic; a crash falls between two saves. Reservation, room and draft persist
  together when SubmitDraft persists.
- Atomic variables are sequentially consistent.
- `GenerationDistance(a, b) >= 0` means that b inherits from a, in a single-inheritance forest.
- A replica issues shared events only under its own endpoint uid and never reuses an identity.
- Journals of replicated nodes are not compacted, which is the default; base snapshots of replicas are equal.
- In the replication system the Share topology stands in unshared records of the journal, as an importable one must,
  and does not change; there is one Share per endpoint, so a relationship is named by the endpoint it leads to.
  Write access, allowed event classes and whether an event freezes alone are parameters.
- A replica's saved node is the node together with its own sync states. A restart registers a node exactly where the
  application's saved objects refer to it, as chat_session.cpp:1549-1555 does; the binding callback's answer is a
  parameter.
- The network snapshot of a room carries no sync states of its sender.
- Validity and domain checks on the references to node, base and event are one parameter (`usable`); `generation` is
  unbounded; each Apply notes one change.
- SubmitDraft is given a persist function.
- Start is not called while RequestStop is inside its critical section.

## Model

| member | source | states |
|---|---|---|
| `EventJournal.InsertionOrderIrrelevant` | include/apptraverse/node.h:411-457 | Two nodes with equal bases and journals that accept the same events in any two orders end with equal journals (retention stamps aside) and equal fields, when no two timestamps coincide |
| `EventJournal.SwapInsertions` | include/apptraverse/event_record.h:38-45 | Two insertions commute if and only if their timestamps differ or the records are equal; this is where order independence ends |
| `EventJournal.AcceptedKeepsOk` | include/apptraverse/node.h:411-457 | An accepted insertion keeps the journal sorted, its shared identities unique, its times positive and every record admissible at its replay point |
| `EventJournal.InsertAllKeepsOk` | include/apptraverse/node.h:411-457 | So does any sequence of accepted insertions |
| `EventJournal.InsertMembers` | include/apptraverse/node.h:436-440 | Insertion adds exactly the one record |
| `EventJournal.LowerBoundUnique` | include/apptraverse/node.h:436-437 | The insertion point is the only one that keeps order and puts the newcomer in front of equal timestamps |
| `EventJournal.StrictlySortedUnique` | include/apptraverse/event_record.h:38-45 | With distinct timestamps the set of events determines their order |
| `EventJournal.FoldConcat` | include/apptraverse/node.h:160-177 | Replay of two stretches is replay of the second from where the first ended, and admissible exactly when both are |
| `EventJournal.AdmissiblePrefix` | include/apptraverse/node.h:160-177 | Every prefix of an admissible journal replays, and the next record applies after it |
| `EventJournal.FoldOfFacts` | include/apptraverse/event_record.h:12-35 | Replay and admissibility depend on the events alone, not on retention stamps |
| `Nodes.Node.TryEnsureCurrentGeneration` | include/apptraverse/node.h:160-177 | Applies what the cursor has not passed; succeeds exactly when the rest is admissible and stops in front of the first record that is not; one change notification per applied record |
| `Nodes.Node.TryReplayJournal` | include/apptraverse/node.h:246-249 | From the base, succeeds exactly when the whole journal is admissible, leaving the fold |
| `Nodes.Node.TryRebuildFromBaseAndReplay` | include/apptraverse/node.h:263-277 | Same from a reloaded base; generation restarts; stashed local state sees only the replayed events |
| `Nodes.Node.TryInsertEvent` | include/apptraverse/node.h:411-457 | Succeeds exactly when the record is usable and the whole journal replays with it in place; append path and rebuild path both leave the journal with the record at its place and the fields at the fold; a rejected append leaves everything unchanged |
| `Nodes.Node.TryAppend` | include/apptraverse/node.h:442-454 | The append path: accepted exactly when the rebuild path would accept it, otherwise undone completely |
| `Nodes.Node.TryInsertInside` | include/apptraverse/node.h:454-456 | The mid-journal path |
| `Nodes.Node.FindSharedEvent` | include/apptraverse/node.h:221-231 | Finds a record with the identity exactly when the journal has one; an empty origin names none |
| `Nodes.Node.CommitInto` | include/apptraverse/node.h:467-493 | A local commit is appended last and applied; it fails if and only if the last timestamp is the largest there is, or the journal is empty and the clock reads 0 |
| `Nodes.CommitTimeIsLatest` | include/apptraverse/node.h:475-484 | The commit time is later than the whole journal unless it wraps, and moved off the clock only by need, to just past the last record |
| `Nodes.Node.TryCommitSharedInto` | include/apptraverse/node.h:496-513 | Succeeds exactly when the identity is shared, the event carries the same metadata and the journal accepts it at its own timestamp |
| `Nodes.Node.CollapsiblePrefixCount` | include/apptraverse/node.h:342-368 | The longest prefix that neither count nor age retention needs: zero when compaction is blocked, no record of it among the last max_events or within the age limit, and the next one is |
| `Nodes.RetentionByCountAlone` | include/apptraverse/node.h:342-368 | Without an age limit exactly the last max_events records are kept, all of them when unlimited |
| `Nodes.RetentionByAge` | include/apptraverse/node.h:342-368 | Nothing within the age limit is collapsed, nor anything behind it |
| `Nodes.CollapsibleIff` | include/apptraverse/node.h:342-368 | With a count and an age limit exactly the records in front of the first one are collapsed that is among the last max_events or not older than the limit, a negative limit counting as the unsigned number it wraps to |
| `Nodes.CollapsesNothing` | include/apptraverse/node.h:342-368 | Nothing is collapsed while compaction is blocked or every event is kept |
| `Nodes.Node.CompactJournalInto` | include/apptraverse/node.h:371-406 | New base is the fold of the old base with the collapsed prefix, the journal the exact rest; fields, generation and notifier untouched |
| `Nodes.Node.Rebase` | include/apptraverse/node.h:393-403 | The replay, capture and second replay of a partial compaction, neither of which can fail |
| `Nodes.CompactionCommutes` | include/apptraverse/node.h:371-457 | Compacting before or after a later insertion gives the same base, journal, fields and verdict |
| `Nodes.CompactionCommutesOnlyAbove` | include/apptraverse/node.h:371-457 | The journals agree if and only if the inserted timestamp is strictly above the collapsed ones |
| `NodeRuns.Run` | include/apptraverse/node.h:160-513 | Any sequence of commits, shared commits, replays, rebuilds, compactions and policy changes takes the object through exactly the lives of `RunLife`; the fields are always the fold of the original base over the whole history; no replay is ever refused; it stops only in front of a well-formed shared event, new to the journal, with which the journal does not replay at its place inside |
| `NodeRuns.Step` | include/apptraverse/node.h:160-513 | The same for one operation, and exactly that operation ends the object's life |
| `NodeRuns.RunKeepsHistory` | include/apptraverse/node.h:371-457 | Over any run collapsed prefix and journal together hold the records there were and exactly those the run added: nothing is lost, doubled or altered, and all of it replays from the original base |
| `NodeRuns.InsertKeepsHistoryUniqueIff` | include/apptraverse/node.h:221-231 | Only the journal is searched, so an identity stays unique over the whole history if and only if compaction has not folded it away |
| `Workspaces.ReservationsAreConsecutive` | examples/chat_demo/common/chat_model.cpp:118-128 | Every admissible history reserves consecutive sequences from the base's counter, none twice, and the counter neither wraps nor skips |
| `Workspaces.FieldsFollowTheJournal` | examples/chat_demo/common/chat_model.cpp:72-133 | Each field is the latest word of the journal on it, chats accumulate in order |
| `Workspaces.RoleIsDecidedOnce` | examples/chat_demo/common/chat_model.cpp:94-102 | A history decides the role at most once, only where it was open, and never changes it again |
| `Workspaces.HistoriesStaySound` | examples/chat_demo/common/chat_model.cpp:72-111 | The selected chat is one of the chats, host input stays within its bound and belongs to a client, chats only grow |
| `Workspaces.AdmittedNextIff` | examples/chat_demo/common/chat_model.cpp:72-133 | What a history admits next: a chat it has, the one sequence after those it reserved, a role while none is decided, host input of at most 128 characters once the role is Client, and everything else |
| `Workspaces.ReserveSequence` | examples/chat_demo/common/chat_commands.cpp:273-277 | Reserving succeeds exactly when the counter is neither 0 nor exhausted and the commit time does not wrap; the sequence is new to the whole history |
| `ChatRooms.LocateLink` | src/shared_node.cpp:165-172 | First share of the Link, or the length; shares without a valid Link are passed over |
| `ChatRooms.LocateShare` | src/shared_node.cpp:174-181 | First share with the relationship id, or the length |
| `ChatRooms.LocateSync` | src/shared_node.cpp:183-197 | First sync state of the relationship, or the length; absent entries are passed over |
| `ChatRooms.StashLocalPersistent` | src/shared_node.cpp:315-325 | Exactly the entries that are there are carried across a rebuild |
| `ChatRooms.RoomFields.Apply` | src/shared_node.cpp:235-286 | The Apply methods, with their finder loops and absent entries, compute the fold step of fields and sync states |
| `ChatRooms.ApplyTopology` | src/shared_node.cpp:235-286 | An applied event keeps share ids and Links distinct, opens only its own id and closes only the removed one |
| `ChatRooms.AssertedIff` | src/shared_node.cpp:248-286 | What the Apply methods assert: a share is opened under an id and a Link that no other has, and closed or changed only while it is there |
| `ChatRooms.TopologyKept` | src/shared_node.cpp:235-286 | So does any replay; only the base or an AddShare opens a relationship |
| `ChatRooms.RemovedStaysClosed` | src/shared_node.cpp:264-279 | A removed relationship is never open again, whatever is re-added over its Link |
| `ChatRooms.ApplyKeepsMatch` | src/shared_node.cpp:235-286 | Exactly one sync state per open share is kept; a new share gets a not-started one |
| `ChatRooms.RebuildKeepsSync` | src/shared_node.cpp:315-330 | A rebuild from base with the stash gives back exactly the stashed sync states |
| `ChatRooms.RebuildStep` | src/shared_node.cpp:248-262 | During the replay of a rebuild the stash is never touched and created states belong to relationships that are open then |
| `ChatRooms.ReplayFromBaseStates` | src/shared_node.cpp:235-330 | Replay from base leaves a not-started state for every share it opened and still has; a share standing open in the base keeps exactly the state it came with, or none |
| `ChatRooms.ReplayKeepsMatch` | src/shared_node.cpp:235-330 | States that match the base's shares, replayed, match the replayed shares |
| `ChatRooms.ImportedStates` | src/shared_node.cpp:315-325 | Without states to start from, exactly the shares the journal opens get one; every open share has one if and only if none stands in the base |
| `ChatRooms.MessageTransparent` | examples/chat_demo/common/chat_model.cpp:30-43 | A message anywhere in the journal disturbs neither the topology nor its assertions |
| `ChatRooms.MessagesAreTheJournal` | examples/chat_demo/common/chat_model.cpp:40-43 | The room's messages are the base's followed by the journal's message events in journal order |
| `SharedNodes.AddShare` | src/shared_node.cpp:199-209 | Idempotent for a shared Link; otherwise one new share under the event's own id with a not-started sync state behind the others |
| `SharedNodes.RemoveShare` | src/shared_node.cpp:211-220 | Closes exactly the Link's relationship and its sync state |
| `SharedNodes.SetShareAccess` | src/shared_node.cpp:222-233 | Changes the access of exactly that share; sync states stay |
| `SharedNodes.CommitTopology` | src/shared_node.cpp:235-286 | A topology commit whose assertions hold keeps the room sound |
| `SharedNodes.InsertMessage` | include/apptraverse/node.h:496-513 | A message is accepted exactly when well-formed and new, on either insertion path, and leaves topology and sync states exactly as they were; a rejected one changes nothing, unless it is malformed and its place is inside the journal |
| `SharedNodes.AcceptedIff` | examples/chat_demo/common/chat_model.cpp:30-38 | No reachable room refuses a well-formed new message at any position of its history |
| `SharedNodes.Compact` | include/apptraverse/node.h:371-406 | Compaction keeps a room sound, its fields and its sync states |
| `SharedNodes.Rebuild` | include/apptraverse/node.h:263-284 | A rebuild from base gives back the room, sync states included |
| `SharedNodes.Create` | include/apptraverse/runtime_node.h:18-43 | A new room is sound: no shares, no states, an empty journal |
| `SharedNodes.CollapseKeepsHistory` | include/apptraverse/node.h:371-406 | The rest of a history is sound on the collapsed base |
| `RoomRuns.RunRoom` | src/shared_node.cpp:165-330 | Any sequence of room operations keeps the room sound: no assertion of a replay fails and each open share has exactly one sync state; base, journal and history are those of `RunRoomLife`; it stops only in front of a malformed new message inside the journal |
| `RoomRuns.RunNewRoom` | src/shared_node.cpp:165-330 | The same from creation on: every reachable room is sound |
| `RoomRuns.StepRoom` | src/shared_node.cpp:199-286 | The same for one operation |
| `RoomRuns.EndsRoomIff` | include/apptraverse/node.h:496-513 | Only a malformed message, new and with its place inside the journal, discards a room |
| `RoomRuns.TopologyShares` | src/shared_node.cpp:199-286 | What a topology operation makes of the shares: a new one behind the others unless the Link has one, all but the Link's, or the same with the Link's access changed |
| `RoomRuns.NothingToChange` | src/shared_node.cpp:199-233 | Opening a shared Link, closing one that is not, or giving it the access it has leaves no event behind |
| `RoomRuns.StepKeepsUnused` | src/shared_node.cpp:235-262 | An id no share has had stays so whatever the room does, compactions included, until a share is opened under it |
| `RoomImports.ImportRoom` | src/shared_sync_runtime.cpp:72-113 | The scratch candidate is admitted exactly when its times are positive, its journal replays, its shares have ids and addresses of their own, it is addressed to this replica, and the source has exactly one share, with a sync state; then it is the replayed room |
| `RoomImports.SourceShare` | src/shared_sync_runtime.cpp:547-565 | The counting loop finds the source's share exactly when it is the only one |
| `RoomImports.AddressedToThisReplica` | src/shared_sync_runtime.cpp:43-68 | The named relationship ends here and another participant of the same topology sends |
| `RoomImports.AdmittedIff` | src/shared_sync_runtime.cpp:547-604 | A sound room addressed to this replica is refused exactly when the source's share stands in the base; if admitted, the state for the receipt exists exactly when the destination's share does not stand there |
| `RoomImports.ImportedRoomOkIff` | src/shared_sync_runtime.cpp:590-604 | The imported room has exactly one sync state per open share if and only if no open share stands in the base |
| `RoomImports.ImportedStatesAreReplayed` | src/shared_sync_runtime.cpp:590-668 | The states an imported node has in the replication system are those replay makes, with the receipt noted |
| `SharedNodes.RoomsAgree` | examples/chat_demo/common/chat_model.cpp:30-43 | In every run, two replicas with nothing left to send show the same messages in the same order, when issued timestamps differ |
| `LinkSync.SyncMovesForward` | src/shared_node.cpp:51-163 | Over any protocol events the phase only moves forward, delivered identities only grow without duplicates, and an event packet is outstanding only after the initial exchange |
| `LinkSync.LinkSyncState.Apply` | src/shared_node.cpp:51-163 | The Apply methods compute the transition of the sync state |
| `LinkSync.LinkSyncState.Deliver` | src/shared_node.cpp:66-77 | The shared loop appends each identity once, in order |
| `LinkSync.LinkSyncState.HasDelivered` | src/shared_node.cpp:134-141 | Membership in the delivered list |
| `LinkSync.AddDelivered` | src/shared_node.cpp:66-77 | The list grows at the end by exactly the missing identities |
| `LinkSync.SyncOutcomes` | src/shared_node.cpp:51-163 | What each event leaves of the state it meets, field by field, with delivered identities appended once |
| `SyncRuntime.SharedSyncRuntime.SyncInitialState` | src/shared_sync_runtime.cpp:318-369 | Freezes, saves the node and then the state, and only then sends; at whichever of these points the process dies, storage is what the stage says and nothing is sent; a retry sends the persisted bytes; complete sends nothing |
| `SyncRuntime.SharedSyncRuntime.SyncNextEvent` | src/shared_sync_runtime.cpp:371-432 | Resends the outstanding packet, or freezes the next undelivered event, saves node and state in turn and only then sends, with the state of storage given for a death at each point |
| `SyncRuntime.SharedSyncRuntime.NextUndeliveredSharedEvent` | src/shared_sync_runtime.cpp:181-202 | First shared record that is not delivered, not pending and not from the destination itself |
| `SyncRuntime.SharedSyncRuntime.CoveredEventIds` | src/shared_network_graph.cpp:135-158 | The identities a frozen snapshot covers |
| `SyncRuntime.SharedSyncRuntime.OnAck` | src/shared_sync_runtime.cpp:707-742 | Only the relationship's endpoint completes the initial or the event packet it names; saved at each point as its stage says |
| `SyncRuntime.SharedSyncRuntime.OnEvent` | src/shared_sync_runtime.cpp:744-834 | Only events of an allowed class from a participant with write access are looked at; known ones are acknowledged again only if identical; new ones only after they fit the history, are inserted and saved, never before the save |
| `SyncRuntime.SharedSyncRuntime.OnBytes` | src/shared_sync_runtime.cpp:440-469 | Each frame type goes to its handler, with the outcome the replication system gives it at every persist point |
| `SyncRuntime.SharedSyncRuntime.ImportNode` | src/shared_sync_runtime.cpp:471-604 | Imports an awaited, admissible snapshot into empty storage; storage first, then states, registration, binding, acknowledgement |
| `SyncRuntime.SharedSyncRuntime.IntroduceNode` | src/shared_sync_runtime.cpp:676-704 | While the expectation is open the acknowledgement waits for the saved binding |
| `SyncRuntime.SharedSyncRuntime.OnRepeat` | src/shared_sync_runtime.cpp:618-705 | Re-acknowledges only the recorded snapshot, trying the binding again while it is wanted |
| `SyncRuntime.SharedSyncRuntime.ExpectInitialNodeFromEndpoint` | src/shared_sync_runtime.cpp:260-278 | Records class and node id expected from the endpoint, replacing what was expected before; no endpoint or class 0 is ignored |
| `SyncRuntime.SharedSyncRuntime.ForgetInitialNodeFromEndpoint` | src/shared_sync_runtime.cpp:280-292 | Forgets the endpoint; an empty one is ignored |
| `HandlerLaws.OutstandingEventIsResent` | src/shared_sync_runtime.cpp:393-396 | While an event packet is outstanding a send puts exactly the frozen bytes on their way again and changes nothing, in memory or in storage |
| `HandlerLaws.FirstOwedIsSent` | src/shared_sync_runtime.cpp:398-432 | With none outstanding, the first event owed to the destination is frozen under the packet id, recorded as outstanding, saved and sent |
| `HandlerLaws.NothingToSend` | src/shared_sync_runtime.cpp:390-412 | Nothing is sent before the initial exchange is complete, when nothing is owed, or when the first event owed is of a class not allowed or does not freeze: it is not passed over |
| `HandlerLaws.SnapshotIsFrozen` | src/shared_sync_runtime.cpp:350-369 | The first send freezes base and journal as they are then, covering what the journal holds, saves and sends |
| `HandlerLaws.OutstandingSnapshotIsResent` | src/shared_sync_runtime.cpp:341-345 | While the snapshot is outstanding a send puts exactly the frozen bytes on their way again and changes nothing |
| `HandlerLaws.CompleteSendsNoSnapshot` | src/shared_sync_runtime.cpp:339-340 | Once it is acknowledged no snapshot is sent any more |
| `HandlerLaws.SnapshotAckCompletes` | src/shared_sync_runtime.cpp:729-735 | The acknowledgement of the outstanding snapshot, from the relationship's endpoint, completes the exchange with the covered identities delivered, saved |
| `HandlerLaws.EventAckCompletes` | src/shared_sync_runtime.cpp:736-741 | That of the outstanding event marks exactly its event delivered and frees the relationship, saved |
| `HandlerLaws.OtherAckIsDropped` | src/shared_sync_runtime.cpp:707-742 | Every other acknowledgement is dropped without a trace |
| `HandlerLaws.UnwelcomeEventIsDropped` | src/shared_sync_runtime.cpp:744-811 | An event not addressed here, from a sender without write access, of a class not allowed, under a known identity with other content, or one that does not fit, is dropped without a trace |
| `HandlerLaws.KnownEventIsAcknowledged` | src/shared_sync_runtime.cpp:788-802 | A welcome event that is in the journal already is acknowledged again, and only that |
| `HandlerLaws.NewEventIsTaken` | src/shared_sync_runtime.cpp:804-834 | A welcome new event that fits is inserted at its timestamp's place, saved, and acknowledged |
| `HandlerLaws.UnexpectedSnapshotIsDropped` | src/shared_sync_runtime.cpp:471-588 | A snapshot is dropped without a trace unless the node was expected by id or its source by endpoint, for this root class and, if an id was named, this id, storage has nothing of it, and it is addressed here and replays |
| `HandlerLaws.ExpectedSnapshotIsImported` | src/shared_sync_runtime.cpp:588-704 | Otherwise it becomes the node, registered and saved, and is acknowledged unless its source was expected and the binding failed; a binding that succeeded ends the expectation |
| `HandlerLaws.RepeatedSnapshotIsAnswered` | src/shared_sync_runtime.cpp:618-705 | For a node the replica has, exactly a repeat of the packet it was made from is acknowledged, after the binding that is still wanted; the node never changes |
| `HandlerLaws.DeathLeaves` | src/shared_sync_runtime.cpp:366-368 | Where a handler dies decides whether storage has nothing of it, its journal with the old sync states, or all of it; nothing is sent |
| `HandlerLaws.ImportDeathLeaves` | src/shared_sync_runtime.cpp:588-704 | Where an import dies decides how much of it storage has: objects of the node, the node with its states, or the binding as well |
| `HandlerLaws.DeathSendsNothing` | src/shared_sync_runtime.cpp:318-834 | Whatever it was about, a handler that dies sends nothing |
| `HandlerLaws.Commits` | include/apptraverse/node.h:467-513 | A commit is at hand exactly when the event is of its class, its identity unused, its metadata its own and it fits; then it is in the live journal at its timestamp's place |
| `Provenance.EventsWereBrought` | src/shared_sync_runtime.cpp:744-790 | In every run a shared event of another origin is in a replica's journal only because an event frame of an allowed class came from a participant with write access, or an expected snapshot had it |
| `SyncRuntime.MemoryNetwork.Enqueue` | src/memory_transport.cpp:95-102 | A send into a direction that is down is lost, otherwise queued last |
| `SyncRuntime.MemoryNetwork.DeliverNext` | src/memory_transport.cpp:31-49 | Hands over the head unless the direction is down, empty or unattached |
| `SyncRuntime.MemoryNetwork.DropNext` | src/memory_transport.cpp:51-58 | Loses the head |
| `SyncRuntime.MemoryNetwork.DuplicateNext` | src/memory_transport.cpp:60-68 | Queues the head again at the end |
| `Deployments.Deployment.Execute` | src/shared_sync_runtime.cpp:318-834 | One step of the runtime objects and the network is the step of the replication system, at every persist point |
| `Deployments.Operate` | src/shared_sync_runtime.cpp:318-834 | From creation on, any run of the objects is a run of the replication system and keeps its invariant, so its theorems hold of the objects |
| `Replication.NextUndelivered` | src/shared_sync_runtime.cpp:181-202 | None exactly when every record is skipped; otherwise the first that is not |
| `Replication.IdentitySeq` | src/shared_network_graph.cpp:135-158 | Lists exactly the shared identities of the journal |
| `ReplicationSteps.StepKeepsInv` | src/shared_sync_runtime.cpp:318-834 | Every step (commit, send, deliver, drop, duplicate, disconnect, crash at any persist point, restart) keeps the invariant of the replicated system |
| `ReplicationSteps.RunKeepsInv` | src/shared_sync_runtime.cpp:318-834 | Hence every state of every run has it |
| `ReplicationSteps.EventOk` | src/shared_sync_runtime.cpp:744-834 | An event handler that saves and acknowledges has the event in storage and a sound journal |
| `ReplicationSteps.AckOk` | src/shared_sync_runtime.cpp:707-742 | What an acknowledgement marks delivered is in the acknowledging peer's storage |
| `ReplicationSteps.ImportedOk` | src/shared_sync_runtime.cpp:471-604 | An admitted snapshot becomes a sound node whose source counts as having everything in it |
| `ReplicationProgress.StepAdvances` | src/shared_sync_runtime.cpp:318-834 | A step loses no stored event, moves no phase back, forgets no delivered identity and replaces an outstanding packet only after delivery |
| `ReplicationProgress.OneOutstandingEvent` | src/shared_sync_runtime.cpp:388-432 | Two event packets of one relationship that are sent and undelivered are the same packet |
| `ReplicationProgress.RunKeepsAccounts` | src/shared_sync_runtime.cpp:318-432 | Every packet ever sent is delivered or still the one the sender holds |
| `Convergence.AckSoundness` | src/shared_sync_runtime.cpp:606-742 | Every identity counted as delivered to a peer is in that peer's saved journal, in every state of every run |
| `Convergence.PacketsAreFrozen` | src/shared_sync_runtime.cpp:338-369 | All bytes ever sent under one packet id are identical |
| `Convergence.QuietReplicasAgree` | src/shared_sync_runtime.cpp:371-432 | Two replicas complete, without pending packet and without a next undelivered event hold the same shared events with the same timestamps and payloads, and in the same order when issued timestamps differ |
| `Convergence.QuietIncludes` | src/shared_sync_runtime.cpp:181-202 | A quiet direction has carried everything over |
| `Convergence.RepeatedEventIsHarmless` | src/shared_sync_runtime.cpp:788-802 | A repeated event frame is acknowledged again and changes nothing; the mismatch branch is never taken for frames really sent |
| `Convergence.RepeatedSnapshotIsHarmless` | src/shared_sync_runtime.cpp:655-704 | A snapshot frame never changes the node of a replica that has it, in memory or storage; it is acknowledged exactly when it is the recorded one and a wanted binding succeeds, which then is saved |
| `Convergence.AwaitedAckCompletes` | src/shared_node.cpp:66-77 | The awaited acknowledgement completes the relationship with exactly the covered identities added, and touches no other |
| `Convergence.SnapshotAdmittedIffUnoccupied` | src/shared_sync_runtime.cpp:473-588 | A snapshot really sent is imported if and only if storage holds nothing of the node and the replica waits for it, by node id or by source, and from its source only for a root of this class and, if an id was named, of this id |
| `Convergence.RecoverableIffReferenced` | src/shared_sync_runtime.cpp:577-588 | A replica whose storage holds the node can get it back, by any run at all, if and only if its saved objects refer to the node |
| `Convergence.InterruptedImportRecoverableIff` | src/shared_sync_runtime.cpp:590-704 | An import cut short at one of its persist points, or by a crash right after it, can be made good if and only if its source was expected by endpoint and the binding succeeded and was saved |
| `Convergence.CrashStrandsIff` | examples/chat_demo/runtime/chat_session.cpp:1549-1566 | A crash loses a stored node for good exactly where no saved object refers to it: restart registers the rooms that are bound to a chat |
| `Convergence.StrandedForever` | src/shared_sync_runtime.cpp:577-588 | No later step of any kind, redelivery included, gives the node to a stranded replica |
| `Delivery.UndisturbedBootstrap` | src/shared_sync_runtime.cpp:318-742 | If nothing disturbs it, three steps share the node: equal base and journal on both sides, both quiet |
| `Delivery.ImportedSnapshotIsRecorded` | src/shared_sync_runtime.cpp:655-668 | A repeat of the imported snapshot, and of no other, is acknowledged again; relationships with third parties start fresh |
| `Delivery.UndisturbedExchangeDelivers` | src/shared_sync_runtime.cpp:371-834 | If nothing disturbs it, three steps carry the next undelivered event over: delivered for the sender, in the receiver's journal once, at its place |
| `Delivery.OutstandingEventRecovers` | src/shared_sync_runtime.cpp:393-396 | Recovery: whatever was lost or crashed, once both directions are clear and the receiver would take the event, a send and two deliveries finish an outstanding event packet |
| `Delivery.OutstandingSnapshotRecovers` | src/shared_sync_runtime.cpp:341-345 | The same for an outstanding snapshot, with a receiver that still waits for it or has it: a send and two deliveries complete the initial exchange |
| `Channels.ProducerOwnsItsSlot` | include/apptraverse/publication_channel.h:48-79 | Under every interleaving the producer's buffer is neither waiting nor being read, a slot is found and the publishing exchange succeeds |
| `Channels.TakenInOrder` | include/apptraverse/publication_channel.h:48-116 | Contents are taken once, in order, none skipped, at most one waiting; a held slot keeps its bytes |
| `Channels.ChannelRefinesMailbox` | include/apptraverse/publication_channel.h:48-116 | Each atomic step is a step of a one-place mailbox or invisible to it |
| `Channels.SlotsNeeded` | include/apptraverse/publication_channel.h:48-60 | No run exhausts the channel if and only if it has at least two slots |
| `Channels.RunKeepsInv` | include/apptraverse/publication_channel.h:48-116 | The invariant of every run |
| `Channels.UninterruptedTake` | include/apptraverse/publication_channel.h:84-103 | An uninterrupted take gets the waiting content or changes nothing |
| `Channels.UninterruptedPublish` | include/apptraverse/publication_channel.h:48-79 | An uninterrupted acquire clears the first free slot |
| `Channels.UninterruptedPublication` | include/apptraverse/publication_channel.h:48-79 | An uninterrupted publication leaves exactly its content waiting in the slot that was free, or changes nothing while one is unread |
| `Channels.HoldingConsumer` | include/apptraverse/publication_channel.h:84-116 | A second take while a slot is held gives up without effect; releasing frees the slot |
| `Channels.FirstFree` | include/apptraverse/publication_channel.h:48-60 | The first slot that is neither waiting nor being read |
| `Channels.FirstFreeIs` | include/apptraverse/publication_channel.h:48-60 | The slot found is the first of 0, 1 and 2 that is neither waiting nor being read |
| `Channels.PublicationChannel.AcquireProducer` | include/apptraverse/publication_channel.h:48-60 | The search loop returns and clears that slot; none only with at most two buffers |
| `Channels.PublicationChannel.PublishProducer` | include/apptraverse/publication_channel.h:73-79 | Never overwrites an unread publication |
| `Channels.PublicationChannel.TakePublished` | include/apptraverse/publication_channel.h:84-103 | Takes exactly when something waits and nothing is held |
| `Channels.PublicationChannel.TakePublishedCopy` | include/apptraverse/publication_channel.h:106-114 | The content comes out and the slot is free again |
| `Mirrors.MirrorShowsModel` | src/ui_mirror.cpp:110-143 | After any run, with nothing pending or in flight, every node mapped to the root has its current value in the mirror, unless neither a change nor a publication has reached it since it was attached |
| `Mirrors.RunKeepsAgreement` | src/model_runtime.cpp:41-105 | After any run each mapped node is pending, or was published with its current value, or is owed since its attachment |
| `Mirrors.AgreesIffTended` | src/model_runtime.cpp:97-105 | A mapped node comes to agree exactly when it changes or a publication reaches it |
| `Mirrors.LatestIsLastSent` | src/ui_mirror.cpp:110-143 | Mailbox, reader and mirror together hold what was published last, under every interleaving |
| `Mirrors.NewNodeShownIff` | examples/model_ui_runtime_demo/common/demo_commands.h:87-97 | A node created and attached is shown in the end if and only if it changes again or a publication reaches it: the commit of the parent that holds it, before or after |
| `Mirrors.ReattachedShownIff` | src/model_runtime.cpp:41-91 | A node detached and attached again is shown in the end if and only if it is tended to afterwards or its value then is the one sent last; it suffices that it was not pending and was left alone meanwhile |
| `Mirrors.ReattachLosesChange` | src/model_runtime.cpp:41-91 | Detaching a changed node and attaching it again leaves a drained, mapped, stale mirror |
| `Mirrors.DrainReaches` | src/model_runtime.cpp:227-240 | Applying, publishing and applying again drains from any state |
| `Mirrors.UiMirror.ApplyPublished` | src/ui_mirror.cpp:145-230 | Every record is applied exactly once, the root's first when it exists, and the UI domain ends with exactly the carried values on top |
| `Mirrors.UiMirror.ApplyReachable` | src/ui_mirror.cpp:193-210 | The passes end with only records whose object does not exist left |
| `Mirrors.UiMirror.Sweep` | src/ui_mirror.cpp:197-209 | One pass; without progress nothing applicable is left |
| `Mirrors.UiMirror.ApplyExisting` | src/ui_mirror.cpp:173-188 | Applies a record exactly when it is new and its object exists |
| `Mirrors.UiMirror.ApplyWithShell` | src/ui_mirror.cpp:212-225 | Creates a shell only for an object no earlier graph brought |
| `ModelRuntimes.ModelRuntime.OnMaterializedChange` | src/model_runtime.cpp:97-105 | A changed node becomes pending for exactly the roots it is mapped to |
| `ModelRuntimes.ModelRuntime.AttachNode` | src/model_runtime.cpp:41-60 | Maps and binds; nothing becomes pending |
| `ModelRuntimes.ModelRuntime.DetachNode` | src/model_runtime.cpp:62-91 | Drops mapping and pending entry of one root; the notifier goes with the last mapping |
| `ModelRuntimes.ModelRuntime.PublishChanged` | src/model_runtime.cpp:227-240 | Publishes whole pending sets, keeps exactly those whose channel is unread |
| `ModelRuntimes.AcceptedRunsExactlyOnce` | src/model_runtime.cpp:137-215 | Under every interleaving the executed work is a prefix of the accepted work, once each in order; rejected work never runs; when the thread has ended everything accepted has run |
| `ModelRuntimes.FinalDrainShrinks` | src/model_runtime.cpp:176-193 | Nothing is added during the last drain, so it ends |
| `ModelRuntimes.DrainRunsQueue` | src/model_runtime.cpp:202-215 | An undisturbed drain runs the whole queue in order; the last one ends the thread, any other goes on to publish |
| `ModelRuntimes.PostedItemRuns` | src/model_runtime.cpp:162-215 | An item posted in an open window while the thread waits runs in the next round, behind those queued before |
| `ModelRuntimes.ShutdownRunsQueue` | src/model_runtime.cpp:144-193 | After a stop request a waiting thread runs what is queued and ends, and what is posted meanwhile is rejected |
| `ModelRuntimes.RestartOpensWindow` | src/model_runtime.cpp:137-160 | A thread that has ended can be started again, with the window open and the stop flag down |
| `ModelRuntimes.StepKeepsInv` | src/model_runtime.cpp:137-215 | The invariant behind it |
| `ModelRuntimes.ModelRuntime.Post` | src/model_runtime.cpp:162-174 | Queued last, or dropped after the window closed |
| `ModelRuntimes.ModelRuntime.DrainWork` | src/model_runtime.cpp:202-215 | Runs everything queued, front first |
| `ModelRuntimes.ModelRuntime.Shutdown` | src/model_runtime.cpp:144-193 | After the window closes later posts are dropped and everything queued runs |
| `SizeQueues.FilledSlotIsCovered` | src/surfaces/surfaces_presentation_size_queue.cpp:40-134 | A filled slot has the one outstanding drain, a running drain that covers it, or a poster about to schedule |
| `SizeQueues.NoSizeIsLost` | src/surfaces/surfaces_presentation_size_queue.cpp:40-134 | When idle the slots are empty and every surface that still exists has its last posted size, unless a drain was refused |
| `SizeQueues.SlotsDoNotVanish` | src/surfaces/surfaces_presentation_size_queue.cpp:68-111 | The lookups that allow for a vanished slot always find it |
| `SizeQueues.StuckIffRefused` | src/surfaces/surfaces_presentation_size_queue.cpp:40-49 | At every point of every run the flag is up with no drain to take it down if and only if a drain was refused |
| `SizeQueues.RefusedDrainIsForever` | src/surfaces/surfaces_presentation_size_queue.cpp:40-49 | After a refusal, once no drain runs, none ever runs again and every filled slot stays filled |
| `SizeQueues.PostedSizeStaysIffRefused` | src/surfaces/surfaces_presentation_size_queue.cpp:40-134 | A size posted with no drain running is still in its slot when all has settled if and only if a drain was refused before |
| `SizeQueues.StepKeepsInv` | src/surfaces/surfaces_presentation_size_queue.cpp:40-134 | The invariant behind these |
| `SizeQueues.Posted` | src/surfaces/surfaces_presentation_size_queue.cpp:120-134 | A post puts the size in its slot and one drain on its way to the model thread, unless one is scheduled already |
| `SizeQueues.UndisturbedDrain` | src/surfaces/surfaces_presentation_size_queue.cpp:40-117 | A drain that nothing interrupts sets every existing surface to the size in its slot, empties the slots and takes the flag down |
| `SizeQueues.LaterSizeIsPickedUp` | src/surfaces/surfaces_presentation_size_queue.cpp:84-97 | A size posted between the two readings of a slot is the one that is set |
| `SizeQueues.OvertakenDrain` | src/surfaces/surfaces_presentation_size_queue.cpp:98-115 | A different size posted between the setting and the comparison stays in its slot, and the drain hands back one more |
| `SizeQueues.SurfacesPresentationSizeQueue.Drain` | src/surfaces/surfaces_presentation_size_queue.cpp:49-117 | A drain sets each existing surface to the size it read, leaves filled exactly the slots a different size overtook in between, and schedules another drain exactly then |
| `SizeQueues.SurfacesPresentationSizeQueue.Post` | src/surfaces/surfaces_presentation_size_queue.cpp:120-134 | Overwrites the slot and leaves one drain scheduled |
| `GraphImport.ValidateClassChain` | src/shared_network_graph.cpp:174-253 | Accepted exactly when the layers form an inheritance chain of known classes with a creatable top; the result is that top |
| `GraphImport.PairwiseRelated` | src/shared_network_graph.cpp:202-217 | The nested loops decide relatedness of every pair |
| `GraphImport.LastIsTop` | src/shared_network_graph.cpp:219-253 | The last class of the sorted chain is the one every other inherits to, so the final check cannot fail |
| `GraphImport.TopIsUnique` | src/shared_network_graph.cpp:234-240 | There is at most one such class |
| `GraphImport.ClassChainIff` | src/shared_network_graph.cpp:174-253 | With single inheritance, stored layers are accepted exactly when their classes are known, have a version, and one of them is creatable and inherits from all the others |
| `GraphImport.ValidateStoredClassChains` | src/shared_network_graph.cpp:160-265 | Accepts exactly when every object has such a chain and no id is empty |
| `GraphImport.ValidateClosedEventGraphStorage` | src/shared_network_graph.cpp:361-446 | Accepts exactly the closed graphs rooted at an event of the expected class |
| `GraphImport.ValidateLinks` | include/apptraverse/operation_storage.h:142-198 | Accepts exactly when every local reference is empty and every shared one is empty or is loaded and leads to an object of the graph whose class inherits from the declared one |
| `GraphImport.ImportableIffClosed` | src/shared_network_graph.cpp:361-446 | The importable graphs, spelled by the fields of their objects and references, are exactly those that pass validation |
| `GraphImport.OneMoreLink` | include/apptraverse/operation_storage.h:142-198 | One more reference in any object leaves a graph importable if and only if it is empty, or shared, loaded and leading to an object of a class that inherits from the declared one |
| `GraphImport.EmptyLinkIsHarmless` | include/apptraverse/operation_storage.h:147-160 | An empty reference never stands in the way |
| `GraphImport.Receiver.AllocateUniqueReceiverObjId` | src/shared_network_graph.cpp:60-80 | Terminates with an id unused in domain, storage and reserved set |
| `GraphImport.Receiver.AllocateAll` | src/shared_network_graph.cpp:462-468 | One new id per object, injectively, all reserved |
| `GraphImport.RevisitHarmlessIff` | include/apptraverse/operation_storage.h:236-262 | Visiting a remapped reference again leaves it alone if and only if its new id is not a wire id that is renamed away |
| `GraphImport.RevisitsHarmlessIff` | include/apptraverse/operation_storage.h:199-303 | Any number of visits is one visit if and only if a second one is |
| `GraphImport.RemapNeverFails` | include/apptraverse/operation_storage.h:228-280 | A reference into the graph is never turned away, however often it is visited |
| `GraphImport.SwappedIdsMisdirect` | include/apptraverse/operation_storage.h:228-280 | Two objects that swap ids: a second visit leads back to the wrong one |
| `GraphImport.Receiver.RemapObject` | include/apptraverse/operation_storage.h:199-303 | Leaves every reference as its number of visits does, and fails exactly when a visit fails |
| `GraphImport.Receiver.ImportClosedEventGraph` | src/shared_network_graph.cpp:448-535 | Imports exactly the graphs with an event at the root, every object instantiable and every reference empty or leading to a fitting object, and refuses the others without effect; a graph arrives under an injective renaming to unused ids, every reference as its visits leave it, and nothing else changes; isomorphic when no new id is a wire id or nothing is visited twice |
| `GraphImport.CopyIsClosed` | src/shared_network_graph.cpp:505-535 | Every reference of an imported object leads to an imported object or nowhere |
| `GraphImport.EmptyLinkArrives` | include/apptraverse/operation_storage.h:199-227 | A shared reference that was empty arrives as it was, a local one empty and without flags |
| `GraphImport.AliasesKept` | include/apptraverse/operation_storage.h:263-280 | References are aliases after the import exactly when they were before |
| `Reachability.CollectReachableObjectsFromLiveFields` | src/object_serialization.cpp:334-360 | Terminates with exactly the reachable objects, once each, minus the bases of reachable nodes |
| `Reachability.Walk` | src/object_serialization.cpp:334-358 | The worklist yields exactly the reachable objects, once each |
| `Reachability.RemoveDistilledBaseObjects` | src/object_serialization.cpp:160-178 | Removes exactly the bases of collected nodes, keeping the rest |
| `Reachability.ClosedContains` | src/object_serialization.cpp:334-358 | A set closed under edges contains everything reachable from it |
| `Presenters.PresenterHost.InitializeNewPresenters` | src/object_serialization.cpp:1068-1110 | Terminates though live presenters, readiness and creation are asked anew in each pass; each presenter loaded was live, ready and created in some pass and comes after what it waited on then; in a steady environment the closing assertion holds if and only if the waiting relation is acyclic within the live presenters and creation succeeds |
| `Presenters.PresenterHost.Pass` | src/object_serialization.cpp:1072-1092 | One pass; without progress no live presenter is ready and creatable |
| `Presenters.Completeness` | src/object_serialization.cpp:1098-1109 | In a steady environment everything live is loaded exactly when a rank of the waiting relation exists; the load order is one |
| `Presenters.PresenterHost.UnloadPresentersDescending` | src/object_serialization.cpp:1052-1064 | Unloads exactly the loaded ones, strictly descending in load order |
| `Presenters.UnloadedBeforeDependencies` | src/object_serialization.cpp:1052-1064 | Each goes down before everything it waits on |
| `SyncFrames.FramesAreBytes` | src/sync_frame.cpp:102-217 | Each decoder accepts exactly the encodings of valid frames, and no byte string is accepted by two |
| `SyncFrames.EventRoundTripIff` | src/sync_frame.cpp:175-217 | An event frame survives encoding and decoding if and only if it is valid |
| `SyncFrames.EventCanonical` | src/sync_frame.cpp:192-217 | Accepted bytes are the encoding of what they decode to |
| `SyncFrames.AckLayout` | src/sync_frame.cpp:155-162 | Byte positions of an acknowledgement's fields |
| `SyncFrames.EventLayout` | src/sync_frame.cpp:175-190 | Byte positions of an event frame's fields and its length |
| `SyncFrames.NodeStateLayout` | src/sync_frame.cpp:122-131 | Byte positions of a snapshot frame's fields and its length |
| `SyncFrames.NodeStateSpelled` | src/sync_frame.cpp:122-131 | One snapshot frame byte for byte |
| `SyncFrames.AckSpelled` | src/sync_frame.cpp:155-162 | One acknowledgement byte for byte |
| `SyncFrames.EventSpelled` | src/sync_frame.cpp:175-190 | One event frame byte for byte |
| `SyncFrames.EventBytesInjective` | src/sync_frame.cpp:175-190 | Different valid frames have different bytes |
| `SyncFrames.NodeStateRoundTrip` | src/sync_frame.cpp:122-154 | Snapshot frames survive exactly when ids are non-zero and the payload is below 2^32 bytes |
| `SyncFrames.NodeStateCanonical` | src/sync_frame.cpp:133-153 | Accepted snapshot bytes are canonical |
| `SyncFrames.AckRoundTrip` | src/sync_frame.cpp:155-173 | Acknowledgements survive exactly when their ids are non-zero |
| `SyncFrames.AckCanonical` | src/sync_frame.cpp:164-173 | Accepted acknowledgement bytes are canonical |
| `SyncFrames.EncodeEventFrame` | src/sync_frame.cpp:175-190 | The pushes spell the frame's layout |
| `SyncFrames.DecodeEventFrame` | src/sync_frame.cpp:192-217 | The reads parse that layout |
| `SyncFrames.EncodeNodeStateFrame` | src/sync_frame.cpp:122-131 | The pushes spell the frame's layout |
| `SyncFrames.DecodeNodeStateFrame` | src/sync_frame.cpp:133-153 | The reads parse that layout |
| `SyncFrames.EncodeAckFrame` | src/sync_frame.cpp:155-162 | The pushes spell the frame's layout |
| `SyncFrames.DecodeAckFrame` | src/sync_frame.cpp:164-173 | The reads parse that layout |
| `SyncFrames.PeekSyncFrameType` | src/sync_frame.cpp:102-120 | Names the only decoder that can accept |
| `SyncFrames.ReadBoundedBytes` | src/sync_frame.cpp:68-78 | Reads a string of 1 to the bound bytes that is really there |
| `WireBytes.BeRoundTrip` | src/sync_frame.cpp:12-35 | Four bytes read back the 32-bit value they were written from |
| `WireBytes.BeValue` | src/sync_frame.cpp:27-39 | Reading four bytes and writing the value gives the same bytes |
| `WireBytes.BeDigits` | src/sync_frame.cpp:12-25 | The four bytes are the digits to base 256, the highest first |
| `AetherFrames.AetherRoundTrip` | examples/chat_demo/aether/aether_stream_frame.cpp:7-72 | A payload survives exactly when its length is allowed for its kind, otherwise the frame is refused |
| `AetherFrames.AetherCanonical` | examples/chat_demo/aether/aether_stream_frame.cpp:28-72 | Accepted bytes are the encoding of what they decode to |
| `AetherFrames.AetherLayout` | examples/chat_demo/aether/aether_stream_frame.cpp:7-26 | Magic, version and kind, the payload's length with its lowest byte first, the payload |
| `AetherFrames.AetherFramesAreBytes` | examples/chat_demo/aether/aether_stream_frame.cpp:7-72 | Accepted byte strings are exactly the encodings of allowed payloads |
| `AetherFrames.NestedEventRoundTrip` | examples/chat_demo/aether/aether_stream_frame.cpp:7-72 | An event frame inside an application frame arrives if and only if it is valid and at most 16 MiB |
| `AetherFrames.NestedNodeStateRoundTrip` | examples/chat_demo/aether/aether_stream_frame.cpp:7-72 | A snapshot frame likewise, up to 16 MiB less its 18 header bytes |
| `AetherFrames.HeartbeatRoundTrip` | examples/chat_demo/aether/aether_stream_frame.cpp:74-94 | Nonces and eight-byte payloads correspond one to one |
| `AetherFrames.EncodeAetherFrame` | examples/chat_demo/aether/aether_stream_frame.cpp:7-26 | The buffer written by index is the frame's layout |
| `AetherFrames.DecodeAetherFrame` | examples/chat_demo/aether/aether_stream_frame.cpp:28-72 | The checks parse that layout |
| `AetherFrames.EncodeHeartbeatNonce` | examples/chat_demo/aether/aether_stream_frame.cpp:74-80 | The loop writes the nonce least significant byte first |
| `AetherFrames.DecodeHeartbeatNonce` | examples/chat_demo/aether/aether_stream_frame.cpp:82-94 | The loop reads it back; a short payload is zero |
| `ChatCommands.SequencesAreNotReused` | examples/chat_demo/common/chat_commands.cpp:269-346 | Across crashes at any persist point no sequence is given to two sent messages |
| `ChatCommands.RoomOrderIsTimeOrder` | examples/chat_demo/common/chat_commands.cpp:288-297 | Within a room sequence order is strictly timestamp order |
| `ChatCommands.SubmitKeepsOrderAcrossRoomsIff` | examples/chat_demo/common/chat_commands.cpp:286-302 | Across rooms a submission keeps that order if and only if its time is past every message the device has anywhere |
| `ChatCommands.TwoRoomsSameInstant` | examples/chat_demo/common/chat_commands.cpp:286-302 | Two rooms and one clock reading give equal timestamps to different sequences |
| `ChatCommands.EffectiveTimeIsLater` | examples/chat_demo/common/chat_commands.cpp:286-297 | The time is past the author's messages in the room, moved off the clock only by need and then by one past one of them; it wraps to zero exactly when one of them has the largest timestamp |
| `ChatCommands.DraftIsAcceptable` | examples/chat_demo/common/chat_commands.cpp:314-331 | The built message meets everything the room asks, except for that wrapped time |
| `ChatCommands.UndisturbedSubmission` | examples/chat_demo/common/chat_commands.cpp:269-346 | An uninterrupted submission puts the draft's text under the next sequence at its time's place, clears the draft and has everything saved; where its time has wrapped it ends at the commit with only the sequence used up |
| `ChatCommands.BeginsIff` | examples/chat_demo/common/chat_commands.cpp:269-285 | A submission begins exactly with a known author, a room, a non-empty draft, a clock and an unexhausted counter |
| `ChatCommands.TimelineInsert` | examples/chat_demo/common/chat_model.cpp:40-43 | Inserting a shared message into the journal inserts it into the timeline at its timestamp's place |
| `ChatCommands.StepKeepsInv` | examples/chat_demo/common/chat_commands.cpp:269-346 | The invariant over every step and crash |
| `ChatCommands.AdjustTime` | examples/chat_demo/common/chat_commands.cpp:288-297 | The reverse search and adjustment compute that time |
| `ChatCommands.ChatWorkspace.SubmitDraft` | examples/chat_demo/common/chat_commands.cpp:269-346 | Refuses without effect, or runs through its persist points and leaves message, counter and cleared draft saved |

## Left out

- Filesystem and checkpoint storage, statistics, diagnostics: storage is a map and a save a copy.
- Aether client, streams, presence and heartbeat timing: the transport is the in-memory network.
- The binary archive, plain object references, registry and domain internals: only references that go through
  `HandlePointerSeri` are remapped, and registry answers are parameters.
- Layer bytes of stored objects: an object is its class, its references and opaque data; loading is a parameter.
- Win32, GTK and web presenters, layout, scroll and localization; presenters are what they wait on and whether
  creation succeeds, both asked anew in each pass but not within one.
- Delivery liveness under loss: the code waits on lost peers and stops at the first disallowed class, so agreement is
  stated for quiet replicas, and delivery for undisturbed exchanges.
- Several presentation roots sharing nodes in the mirror theorem; `ModelRuntimes.ModelRuntime` keeps the general maps.
- Orderings weaker than sequential consistency, and the manually called `SetInitialSyncPhase`.
- Chat commands other than SubmitDraft, chat entries' bindings and scroll anchors: single guarded commits.
- Changes of the Share topology while replication runs; `SharedNodes` covers them on one replica.
- SyncRuntime.SharedSyncRuntime.ImportNode: the snapshot's addressing by endpoint stands for its topology;
  `RoomImports.ImportRoom` has the checks on shares and Links. Class chains of its objects are in `GraphImport`.
- SizeQueues.PostedSizeStaysIffRefused: leaves out a refusal between the post and the end, after which the size may or
  may not be among those the last drain took.
- Mirrors.UiMirror.ApplyPublished: a record's graph is the values it carries; objects are not constructed field by field.
- std::sort, std::lower_bound and container iteration order: sorting is by insertion, iteration order arbitrary.
- A failed decoder's partly filled out-parameter: a refused frame is simply none.
- Bytes of the frames exchanged in the replication system: the wire format is proved separately.
