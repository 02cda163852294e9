# A replicated key-value store, verified

This project models the code around the decided log of a key-value store built on OmniPaxos: how a
server applies decided entries, answers the ones it coordinates, saves its map, crashes and starts
again; how the client process beside each server hands out request ids and matches answers to callers;
the connection tables of both; and the compaction of log pieces. It proves properties of that model over
every input, run and interleaving, up to linearizability of the whole system.

## How it is laid out

| file | content |
|---|---|
| `Commands.dfy` | commands, messages, the map and the answers a log determines; last-writer reasoning; overlapping replay |
| `Compaction.dfy` | `KVSnapshot` with `create` and `merge`, the exact meaning of a delta, when merging is exact |
| `Storage.dfy` | the snapshot file as a multi-step update, power cuts, the `Database` object |
| `Replica.dfy` | one server in small steps (a crash fits between any two) and its invariant |
| `ReplicaRuns.dfy` | theorems over all runs of one server |
| `Calls.dfy` | a whole call of the apply loop equals its small steps; batching |
| `UnreadableSnapshot.dfy` | concrete runs in which a save does not raise the index on disk, and exactly when the index goes back |
| `OmniPaxosServer.dfy` | the server as an object, its loops and handlers, proved against the above |
| `ServerNetwork.dfy` | the server's connection tables and their whole life |
| `ClientModel.dfy`, `ClientRuns.dfy` | the client's request table as a state machine; conservation laws over its runs |
| `TestClient.dfy` | the client as objects, each handler proved to take exactly the model's step |
| `History.dfy` | histories and linearizability, defined without servers or logs |
| `Cluster.dfy`, `ClusterInvariant.dfy` | N servers, their clients, messages, proposals and the log as one transition system; its invariant |
| `Linearizability.dfy` | the theorems about the whole system |
| `ResentAnswer.dfy` | one concrete run with a crash, a replay and a repeated answer |

A run is a list of moves tried one after another; a move that is not possible at its turn changes
nothing, so a statement about all lists is a statement about all interleavings. Objects (`class`) carry
the fields their Rust counterparts update in place. Fields and parameters called history variables
(`answers`, `issued`, `history`, `marks`, ...) only record what happened; no step reads them to decide.

## What is assumed of the surroundings

- The consensus library decides one append-only log common to all servers. Each appended command is
  decided at most once, and nothing else is. Within one incarnation the index a server knows never
  decreases; after a start it may be anything up to the length of the log.
- Reading the decided suffix from `i` returns exactly the entries from `i` to the decided index.
- A request put on a connection is delivered at most once, possibly never, possibly late. An answer a server
  has sent may arrive any number of times, in any order, or never.
- A rename is atomic and a synced file keeps its content; an unsynced file may hold anything after a power
  cut. Decoding inverts encoding of a snapshot.
- Every new connection has a socket of its own, and what is read from a socket is what came in on it.
- Each server has one client process for the whole run. Servers crash and start any number of times.

The number of servers, the snapshot interval, keys and values are arbitrary, except that how far the snapshot
lags and when it goes back is stated for an interval of at least 1, that `Calls.BatchingKeepsDisk` is about
interval 1, where alone the file does not depend on the batching, and that the concrete runs fix their
parameters.

## Results worth reading first

- `Linearizability.EveryRunLinearizable` and `Linearizability.LinearizationOnlyExtends`.
- `Compaction.MergeExactIff` and `Compaction.ChunkedCompactionExactIff`: the code's compaction is not always
  exact (`Compaction.PutDeleteResurrects`), and these say precisely when it is.
- `ReplicaRuns.SaveRaisesDiskIff`: a save that gets through raises the index on disk unless the server could not read
  the snapshot when it started, has not replaced it since, and is itself no further than that file. The
  same proviso decides how far the snapshot lags (`ReplicaRuns.SnapshotLag`). Both failures happen
  (`UnreadableSnapshot.SaveNeedNotRaiseDisk`, `DiskCanGoBack`, `SnapshotCanBeAhead`). The answers and the
  linearizability do not depend on it.
- `Servers.AnswersReturnToTheirRequests`: an answer is queued on the socket its request came in on, or nowhere.

Two texts a caller sees are ambiguous in the code itself: a stored value may read `Key not found`.
Linearizability is stated over the text a caller gets, as the code gives it
(`History.StaleReadLinearizableIff` shows the effect). A reply standing for a failure is kept apart from an
answer of the server by its constructor, although both are plain strings in the code.

The report (`report/report.md:145-147`) says that a dropped connection is found by polling every two
seconds. In the code the polled slot is emptied only by a failed send or by reconnecting, so a connection
nobody sends on is never found dropped. The model follows the code.

## Model

| member | source | states |
|---|---|---|
| Linearizability.EveryRunLinearizable | report/report.md:104-133 | Every history of calls, of any number of servers under any interleaving, loss, repetition, crash, failed save and restart, answers each call at most once and is linearizable against a plain map |
| Linearizability.LinearizationOnlyExtends | report/report.md:65-65 | The order found for a run is never revised later: continuing the run only appends calls to it |
| Linearizability.ExplainedIsLinearized | src/server/server.rs:207-258 | Log order is a linearization: complete, respecting real time, each call once, each answer what a sequential map gives |
| Linearizability.AcknowledgedPutIsDurable | src/server/server.rs:231-246 | An acknowledged Put has a log position decided before it was acknowledged, in every continuation the only one that is its own, and every server that ever applies that far holds its value until the key is written again |
| Linearizability.ReplicasAgree | src/server/server.rs:207-258 | Of any two running servers the one further on holds the other's map with exactly the log entries between them applied |
| Linearizability.LateAnswersHarmless | src/client/test_client.rs:78-91 | Any answer ever sent, arriving at any time, completes exactly the call of its own log entry, and just when the client listens and that call has had no reply; otherwise nobody is told anything |
| Linearizability.PendingIsUnanswered | src/client/test_client.rs:55-91 | In every run a client's pending maps hold exactly the requests whose callers have had no reply, puts and gets apart |
| Linearizability.IdsAreNeverReused | src/client/test_client.rs:227-238 | Every id on the wire, proposed, decided or answered is below the next one; the tables of every client are consistent and no client panics |
| Linearizability.RefusedNeverExecuted | src/client/network.rs:203-225 | A call refused because nothing could be sent is executed in no continuation of the run |
| Linearizability.FailedCallsAreTold | src/client/test_client.rs:119-132 | In every run failing a pending request tells the one caller it was made for |
| Linearizability.OwnLogsCompactExactly | src/client/shim.rs:20-23 | The system's own logs hold no Delete, so compacting them in any pieces gives the applied map |
| ClusterInvariant.DoKeepsInv | src/server/server.rs:303-313 | Every move of the whole system keeps its invariant: each request in one place only, each answer placed at its entry, calls made before and answered after their entry is decided |
| ResentAnswer.ResentAnswerHarmless | src/server/server.rs:231-256 | A concrete run: an answer sent, a crash before the save, the entry replayed and answered again, the call completed once and counted twice |
| Linearizability.EveryGetIsRecent | report/report.md:104-133 | In every run, a Get made after a Put of its key had completed is answered with the value of that Put or of one not over when that Put was made |
| History.NoStaleRead | report/report.md:104-133 | The same of every linearizable history whatever: no Get misses a Put that had completed |
| History.StaleReadLinearizableIff | src/client/test_client.rs:84-88 | The history of one Put, completed, and one Get answered as absent is linearizable only if the value is the very text that stands for absence |
| Replica.NextKeepsInv | src/server/server.rs:207-258 | Every small step of a server, crash and recovery included, keeps the recovery invariant |
| ReplicaRuns.RecoveryInvariant | src/server/server.rs:74-85 | In every reachable state the map in memory is the fold of the log up to the applied position, between calls the later of the two cursors, and the snapshot on disk the fold up to its own index |
| ReplicaRuns.CrashThenRecover | src/server/server.rs:41-86 | A crash anywhere followed by a start restores the fold up to the restored index, or the empty map at 0 if the file cannot be read, and leaves the snapshot as it was |
| ReplicaRuns.AnswersReplayConsistently | src/server/server.rs:238-246 | Every answer ever sent for a log position, in any incarnation, is the same: Write, or Read with what the last earlier write left at the key |
| ReplicaRuns.NoSilentSkip | src/server/server.rs:226-256 | Every coordinated position a server is past was answered in some incarnation; in one incarnation answers go out in log order, each at most once, none for a position its snapshot covers |
| ReplicaRuns.SnapshotLag | src/server/server.rs:249-256 | Between calls `entries_since_snapshot` is below the interval and at most the distance from the snapshot the server knows of; with saves succeeding it is that distance, and the distance from the file on disk exactly unless a file the server could not read at its start is still there |
| UnreadableSnapshot.SnapshotCanBeAhead | src/server/server.rs:46-55 | A concrete run with every save succeeding that ends one entry behind the file while counting one entry |
| ReplicaRuns.SaveRaisesDiskIff | src/server/server.rs:249-256 | In every run, with any failures: only a save that gets through its rename changes the index on disk, to the applied position, and raises it exactly unless the server started without reading the file, has not replaced it since and is no further than it |
| ReplicaRuns.DiskNeverGoesBackIff | src/server/database.rs:71-117 | Over a whole run with its restarts the index on disk never decreases, exactly if no such save is behind the file it replaces |
| ReplicaRuns.ReadableNeverBlind | src/server/database.rs:33-64 | Where every start can read the file, every save that gets through raises the index and none sets it back |
| UnreadableSnapshot.DiskGoesBackIff | src/server/database.rs:59-63 | For any interval and any failing step, a start that cannot read the snapshot and one call put the index on disk back exactly when the save succeeds and the server knew enough entries to save but fewer than the file stood for |
| UnreadableSnapshot.DiskCanGoBack | src/server/server.rs:46-55 | A concrete run in which the index on disk falls from two to one |
| UnreadableSnapshot.SaveNeedNotRaiseDisk | src/server/server.rs:249-256 | A concrete run in which a save completes and the index on disk stays at two |
| Calls.CallIsItsSteps | src/server/server.rs:207-258 | The small steps taken without a crash make exactly the whole call: cursor, map, answers, counter and disk |
| Calls.BatchingDoesNotMatter | src/server/server.rs:207-217 | However the decided index climbs through repeated calls, cursor, map and the sequence of answers are those of one call at its highest value |
| Calls.BatchingKeepsDisk | src/server/server.rs:249-256 | With interval 1 and saves succeeding the snapshot file does not depend on the batching either |
| Servers.OmniPaxosServer.constructor | src/server/server.rs:41-86 | A new server starts in exactly the recovered state: cursor 0, counter 0, map and index from the snapshot or empty |
| Servers.OmniPaxosServer.ApplyEntries | src/server/server.rs:230-247 | The loop leaves the fold up to its end, the count of newly applied entries, and exactly the owed answers; each open connection takes those for its client, in order, and no other connection changes |
| Servers.OmniPaxosServer.HandleDecidedEntries | src/server/server.rs:207-258 | A call makes exactly the specified next state and touches only its snapshot files; each open connection takes exactly the answers owed to its client between the old and new applied positions, and no other connection changes |
| Servers.SendsAreDelivered | src/server/server.rs:238-246 | For any connections and any answers: an open connection stays and takes its client's answers in order at the end of its queue, a closed one stays as it was if there are none and goes otherwise, and none appears |
| Servers.OmniPaxosServer.PersistIfDue | src/server/server.rs:249-256 | A save happens once enough entries have gathered and resets the counter whether or not it succeeds |
| Servers.OmniPaxosServer.HandleClientMessages | src/server/server.rs:269-278 | Every request becomes one proposal, in order, under the connection it arrived on and this server as coordinator |
| Servers.OmniPaxosServer.HandleClusterMessages | src/server/server.rs:280-301 | After a batch of messages the server, its counter and snapshot file are what the messages make of them in order, and the client connections took exactly what was sent; the answers are those of one walk, and nothing known is left after a look at the log; the result says whether a start signal was among the messages |
| Servers.BatchInParts | src/server/server.rs:285-298 | Any batch cut in two: the second part goes on from where the first led, and sends after it |
| Servers.OmniPaxosServer.SendClientStartSignals | src/server/server.rs:323-329 | Every open connection of a client with an id from 1 to the configured number takes the start signal with its time, once, at the end of its queue; no other connection changes |
| Servers.AnswersReturnToTheirRequests | src/server/server.rs:303-313 | Wherever the proposal made for a request is decided, its answer is queued on the connection on the socket the request came in on, or nowhere, whatever happened to the connections meanwhile |
| Storage.SaveIsAtomic | src/server/database.rs:73-117 | Whatever step of a save fails and wherever power is lost, recovery finds exactly the old snapshot or exactly the new one, the new one just when all five steps were done |
| Storage.Database.SaveSnapshot | src/server/database.rs:73-117 | What both files hold after a save that gets through and after one that fails at each step; the snapshot file is replaced only by the former, no other file is touched, and without a path nothing happens |
| Storage.Database.Recover | src/server/database.rs:33-64 | Recovery returns exactly the decoded snapshot, and nothing if the file is missing, unreadable or does not parse |
| Storage.Database.HandleCommand | src/server/database.rs:119-131 | A command changes the map and reads from it as specified |
| Commands.ReplayConverges | src/server/database.rs:119-131 | Replaying a piece of the log on a map already ahead of its start gives the map at the piece's end |
| Commands.StateAtAfterWrite | src/server/database.rs:119-131 | A key holds what its last write left, for as long as nothing writes it again |
| Compaction.DeltaMeaning | src/common.rs:77-100 | A delta holds the keys whose last write is a Put, with that value, and records as deleted exactly the keys whose last write is a Delete and whose first write or two writes in a row are Deletes; the parts are disjoint |
| Compaction.MergeExactIff | src/common.rs:102-110 | Merging a delta equals applying its commands one by one exactly when no key of the base has writes beginning with Put, ending with Delete and without two Deletes in a row |
| Compaction.PutDeleteResurrects | src/common.rs:85-90 | The smallest failure: a key put and deleted inside one delta keeps its old value |
| Compaction.ChunkedCompactionExactIff | src/common.rs:77-110 | Compacting a log in chunks gives the applied map exactly when no chunk ending with a Put of a key is followed only by chunks silent or lossy for it, one of them lossy |
| Compaction.DeleteFreeCompaction | src/common.rs:77-110 | Without Deletes any cut into chunks compacts exactly |
| Compaction.MergeAssociativeIff | src/common.rs:102-110 | Merging is associative exactly when the left delta holds no key the right one deletes, and none the middle one deletes and the right one does not put back |
| Compaction.CreatedMergeAssociativeIff | src/common.rs:77-110 | For deltas made by `create` this holds without any proviso |
| Compaction.DeleteFreeMergeAssociative | src/common.rs:77-110 | Merging the deltas of two delete-free logs onto anything is associative |
| Compaction.KVSnapshot.Create | src/common.rs:77-100 | The scan and the retain compute exactly the specified delta |
| Compaction.KVSnapshot.Merge | src/common.rs:102-110 | The merge loops compute the specified map whatever order the hash map is walked in, and clear the deleted keys |
| ServerNetwork.Network.ApplyConnection | src/server/network.rs:125-140 | A new client connection is filed under its id, a new peer connection takes its peer's slot, one of an unknown peer goes nowhere, and nothing else changes |
| ServerNetwork.Network.Register | src/server/network.rs:196-201 | A registering client gets the next id, which no connection in the table has |
| ServerNetwork.Network.SendToCluster | src/server/network.rs:276-289 | An open connection in the peer's slot queues the message and is otherwise left as it is, a closed one is dropped, and no other slot changes |
| ServerNetwork.Network.SendToClient | src/server/network.rs:291-301 | A message is queued on the client's open connection, or its closed connection is removed, or nothing happens |
| ServerNetwork.Network.Shutdown | src/server/network.rs:305-317 | All client connections go, every slot is empty, the slots still match the peers and ids are not reset |
| ServerNetwork.Network.ClusterIdToIdx | src/server/network.rs:319-322 | The loop finds the first position of a peer id, or none if it is absent |
| ServerNetwork.SlotsStayWithTheirPeers | src/server/network.rs:125-135 | Through a whole incarnation slot i holds only connections to peer i |
| ServerNetwork.ClientIdsAreNeverReused | src/server/network.rs:196-209 | A new id was never given before, and applying a registered connection displaces no other |
| ServerNetwork.AnswersGoBackOrNowhere | src/server/network.rs:291-301 | However the incarnation goes on after a request came in, a message to its id is taken by the connection on that very socket if open and by no other, and no other connection is on that socket |
| ServerNetwork.PeerMessagesStayInTheirSlot | src/server/network.rs:276-289 | Through a whole incarnation a message for a peer changes nothing but that peer's slot, whose open connection stays as it is with the message at the end of its queue |
| ServerNetwork.PeerMessagesKeepOrder | src/server/network.rs:276-284 | Two messages to a peer with an open connection both wait on it, in order |
| ServerNetwork.AppliedConnectionIsFiled | src/server/network.rs:136-138 | A registered connection that is applied is in the table under its id as it is, displaces none, and changes nothing else |
| ServerNetwork.PeerConnectionIsFiled | src/server/network.rs:127-134 | A new connection to a peer is in that peer's slot, whatever was there, and changes nothing else |
| ServerNetwork.NewClientIsServed | src/server/network.rs:196-209 | A client that registers on a new socket gets the next id, and once its connection is applied it takes what is sent to that id |
| ServerNetwork.SocketsAreForLife | src/server/network.rs:196-201 | The connection an id was given to never changes for the rest of the incarnation |
| ClientModel.StepKeepsTable | src/client/test_client.rs:55-132 | Every action keeps the request table consistent: ids without gaps, write flags right, each pending map only its own kind under the right caller |
| ClientRuns.CallersConserved | src/client/test_client.rs:53-132 | Every call accepted is waiting in exactly one pending map or has been told exactly once, and counts add up; once failing has emptied the maps everybody was told |
| ClientRuns.ResponsesCounted | src/client/data_collection.rs:39-47 | The response count is the number of requests with a response time plus the number of repeated answers |
| Clients.TestClient.Dispatch | src/client/test_client.rs:54-74 | If the connection is open, the request is at the end of its queue under the next id, recorded and pending, and nobody is told; if not, nothing is queued or recorded, the caller is told the server is disconnected, and the connection is gone. In both cases it is the accepting step of the model |
| Clients.TestClient.SendRequestManual | src/client/test_client.rs:227-238 | Only a request the connection took is recorded and uses up an id; a failed one leaves the id for the next |
| Clients.TestClient.HandleServerMessage | src/client/test_client.rs:76-91 | An answer takes its id out of its own pending map, tells the caller found there if any, records its time and is counted; it is the receiving step of the model |
| Clients.TestClient.FailAllPending | src/client/test_client.rs:119-132 | Exactly the callers of the pending puts, then exactly those of the pending gets, are told once each that the connection was lost, in whatever order the maps are drained |
| Clients.TestClient.CheckConnection | src/client/test_client.rs:106-112 | If the server's slot is empty everybody pending is told, once each; otherwise nobody is told anything and nothing changes |
| ClientRuns.RefusalIsFoundOut | src/client/network.rs:205-212 | In every run, after a refused call and until the client has reconnected it knows its connection is lost, so whenever it runs the periodic check finds the loss |
| Clients.TestClient.TryReconnect | src/client/test_client.rs:136-147 | One turn of the reconnection loop is the reconnecting step of the model |
| Clients.Network.Send | src/client/network.rs:203-225 | A send succeeds exactly on an open connection; a failure never queued the message and leaves the slot empty |
| Clients.Network.Reconnect | src/client/network.rs:148-193 | Reconnecting drops the old connection and succeeds exactly for a known and resolvable server |
| Clients.Network.Shutdown | src/client/network.rs:228-238 | All slots are emptied and their number is kept |
| Clients.ClientData.NewRequest | src/client/data_collection.rs:30-37 | A request is appended with its time and flag and no response time |
| Clients.ClientData.NewResponse | src/client/data_collection.rs:39-43 | A response time is set at its id and the count goes up by one |

## Left out

- OmniPaxos itself (ballots, elections, storage of the log): not in the repository; its decided log is an abstract sequence.
- Leader establishment, ticks and the wait for start signals (src/server/server.rs:94-205, src/client/test_client.rs:151-172): they only decide when things start.
- Servers.OmniPaxosServer.HandleClusterMessages: its loop body is the method `HandleClusterMessage`, which the source writes inline; taking and sending the library's outgoing messages afterwards is left out.
- Servers.OmniPaxosServer.HandleDecidedEntries: its loop and its saving tail are the methods `ApplyEntries` and `PersistIfDue`, which the source writes inline; the filter that panics on an undecided entry is the assumption about the suffix.
- Clients.TestClient.TryReconnect: models one turn; that the reconnection loop ever ends depends on the network.
- Storage.SaveIsAtomic: takes a rename as durable once it has returned; the code does not sync the directory.
- Sockets, framing, tasks, channel capacities, retry timing and closing of replaced connections: a connection is a queue that is open or closed.
- The HTTP side (src/client/shim.rs): a caller is a one-shot reply slot; its own timeout only means it stopped listening.
- Answers routed to a connection of an earlier incarnation with the same id: every answer sent may reach the server's one client, which covers this.
- A client process that restarts, or several clients sharing a server across its restart: ids and connection ids begin again, outside the assumptions.
- `send_request`, `run_finished`, `save_results` and the output files: never called by the event loop, or plain output.
- Configuration, logging, timestamps beyond being recorded, scripts, containers and the fault-injection harness.
- Liveness: that requests are eventually answered and connections eventually restored.
