# MegaCache in Dafny

MegaCache is a cache server whose hard logic lives in plain dictionaries, sequences and
counters under locks. This project models that logic and proves what it is for. Every
component has the same two layers:

- a **specification**: a state (a datatype) with one pure transition per operation, including
  the error paths, and lemmas about single steps, invariants and whole runs;
- the **code's own form**: a class whose methods change their fields step by step, with the
  loops, checkpoints and rollbacks of the original. Where the specification is a transition,
  each method is proved equal to it (`ensures (State(), r) == Transition(old(State()), ...)`),
  so what the lemmas say about the transitions holds of the methods. `LocalCache`,
  `DependencyGraph`, `AgingPriorityQueue` and the buckets and budgets have no separate
  transition: their contracts state the property itself.

Concurrent code is a state machine whose steps are the stretches that run under one lock.

| files | component |
|---|---|
| `HashRing` | the consistent-hash ring |
| `ClusterModel`, `ClusterInvariant`, `ClusterSteps`, `ClusterDeletes`, `ClusterSnapshots`, `ClusterRuns` | the replicated store as transitions, its invariants, and runs |
| `ClusterMoves`, `ClusterCollected`, `ClusterRebalance`, `ClusterSwitch`, `ClusterStale`, `ClusterUndo` | online rebalancing: moves and what they collect, the result, the invariants and the reads after the switch, and failure |
| `ClusterAnswers`, `ClusterUpkeep`, `ClusterDeleteAnswers`, `ClusterRebalanceAnswers` | when each operation of the replicated store succeeds, what it answers and which cells it leaves, told without the operations' own helpers |
| `ClusterWitness`, `ClusterForgotten`, `ClusterRetired` | reached states in which a condition fails |
| `ClusterReplicas`, `ClusterBurial`, `ClusterTransfers`, `ClusterCleaning`, `ClusterStorage`, `ClusterStart` | the coordinator object, what its loops add up to, and how it is opened |
| `Snapshot`, `SnapshotSession` | chunked snapshot transfer |
| `OrderedDict`, `EngineModel`, `EngineInvariant`, `EngineRuns`, `EngineAnswers`, `EngineCounters`, `EngineJournal`, `CacheEngine` | the cache engine, its leases and its undo journal |
| `ClientProtocol`, `ClientReplies`, `LocalCache` | the client's local cache under concurrent threads |
| `ByteStrings`, `Resp`, `RespRoundTrip`, `RespInline`, `RespStream` | the RESP2 wire format, sections "Simple strings", "Bulk strings", "Arrays" and "Integers" of the Redis protocol specification |
| `EventModel`, `EventRuns`, `EventAnswers`, `EventIngestor`, `DependencyPaths`, `DependencyGraph` | event ingestion and the dependency graph |
| `AuditModel`, `AuditChain`, `AuditReload`, `AuditRuns`, `AuditAnswers`, `AuditLog` | the tamper-evident audit log |
| `TokenBucket`, `Admission`, `Coalescing`, `AgingQueue` | quotas, origin admission, coalescing and the refresh queue |

`dafny verify dfyconfig.toml` checks everything.

Conventions. Hashes, digests, tokens, sizes and the JSON encoding of records are opaque
functions or parameters; where a proof needs it, fresh tokens are distinct and an encoded
record is one nonempty line that decodes to the record. The clock is read once per operation
and is an argument. What the outside may do (which node fails and how, whether a state is
saved, which files a crash has removed, in what order threads run) is an argument or a step,
so the lemmas hold for every choice.

Where the code and its documentation disagree, or a property needs a hypothesis that the code
does not enforce, the model follows the code:

- A `delete`, `expire` or `invalidate` that the server answers with zero returns without
  clearing the local cache (src/megacache/client.py:359-367, 375-385, 517-526), so a key that
  another client has removed can still be a local hit after this client's own `delete` of it
  has returned. `ClientReplies.HitsAfterReply` states what holds: hits are as new as the
  state the caller has seen if the reply was not zero or the generation has moved since.
  `ClientReplies.OlderHitsAfterZero` and `ClientReplies.PendingCanBeHit` say exactly which older hits
  a zero reply leaves possible, and `ClientReplies.RemovedKeyStaysCached` is a reached run.
- A dead-lettered event is only sure to be kept when event ids are distinct.
  `EventRuns.FailureKeepsEvent` and, over whole runs, `EventRuns.NeverLostIff` say exactly
  when it is kept without that, and `EventRuns.ReusedIdLosesEvent` shows the loss: an id that
  has left the bounded duplicate history and is reused by another event makes that event's
  failure update the old letter.
- A rebalance that fails puts back stores, metadata, statuses and the ring, but neither the key
  catalogue nor the collection watermark, and a node outside the affected ones loses the
  metadata of a collected key. `ClusterUndo.FailureForgets` says exactly what is lost, from the
  state before the moves: of the keys of the moves that were made, those whose newest version
  is a tombstone that every owner is up for and has, or was sent by these moves, leave the
  catalogue, and the watermark stays if and only if it covers all these tombstones.
  `ClusterForgotten.FailureForgetsTombstone` is a reached run. The quorum invariants do not depend
  on either: they hold over failed rebalances (`ClusterUndo.FailureKeeps`).
- A rebalance that succeeds moves and verifies catalogued keys only. It keeps the quorum
  invariants if and only if every other key is in order (`ClusterSwitch.RebalanceKeepsIff`): no
  owner to be has a copy without metadata, and more than half of the owners to be have the
  newest version. The next quorum read of a key can return something other than its last
  write if and only if the key was not catalogued and an owner to be has a stale copy that a
  quorum of the new owners do not beat (`ClusterStale.RebalanceMisleadsIff`).
  `ClusterWitness.UntidyRebalanceResurrects` is a reached run in which a copy that a bootstrap left
  on a node that was not an owner is returned after its key was deleted and that node became
  the owner.
- A flush passes over removed nodes. After it a key is in order if and only if no removed node
  had metadata of it, and the invariants hold if and only if no removed node had any
  (`ClusterRuns.FlushKeyIff`, `ClusterRuns.FlushKeepsIff`). `ClusterRetired.RemovedNodeKeepsFlushed` is a
  reached run in which two snapshots of a record are taken, the first is installed on a removed
  node, and the second, installed on the owner after the flush, brings the record back.
- What a flush and a successful rebalance must find is the hypothesis `ClusterRuns.CarefulRun` of
  the results over runs; every run on one ring satisfies it, failed rebalances included
  (`ClusterRuns.OneRingIsCareful`).
- A node that is being drained and misses its heartbeats goes down and stays a member: the
  rebalance does not take it out of the ring, and its next heartbeat makes it active again
  (src/megacache/cluster.py:524-538, 2669-2682). `ClusterRebalanceAnswers.LeaverLeaves` says exactly when
  a member that was told to leave is gone.
- A simple string reaches the client exactly when it holds no line feed; a carriage return
  inside it is harmless. `RespRoundTrip.ResponseRoundTrip` is an if-and-only-if with that
  condition and the parser's limits.

## Model

| member | source | states |
|---|---|---|
| `HashRing.AddingNodeMovesNothing` | src/megacache/cluster.py:154-197 | For every key and replica count, the owner list with the new node taken out is a prefix of the old owner list, also when tokens collide |
| `HashRing.OwnersAreDistinctMembers` | src/megacache/cluster.py:180-197 | Owners are distinct ring members, exactly min(replicas, members) of them |
| `HashRing.OwnersAreNearest` | src/megacache/cluster.py:180-197 | Each owner is the node of the first point clockwise of the key's token that belongs to none of the owners before it, points after the token coming first: this decides the owners completely |
| `HashRing.Build` | src/megacache/cluster.py:136-178 | The sorted points are exactly every node's virtual points |
| `HashRing.Grow` | src/megacache/cluster.py:136-178 | The two rings that are built before and after a node is added are ones to which this applies, for every key and replica count |
| `HashRing.BisectRight` | src/megacache/cluster.py:180-197 | The binary search finds the split between tokens up to and after the key's token |
| `HashRing.OwnersWalk` | src/megacache/cluster.py:180-197 | The clockwise walk with early exit returns the first distinct nodes of the full walk |
| `ClusterRuns.QuorumReadsAreCurrent` | src/megacache/cluster.py:1762-1854 | After any careful run of quorum puts and deletes, reads, failures, recoveries, repairs, collections, evictions, flushes, bootstraps, joining and leaving nodes, and rebalances that succeed or fail, a successful quorum read is a miss or the value of the key's last acknowledged change, never an older or deleted one |
| `ClusterRuns.OneRingReadsAreCurrent` | src/megacache/cluster.py:1762-1854 | The same with no condition on the run except that the ring stays: whatever snapshots are installed where, and whatever rebalances fail |
| `ClusterRuns.OneRingIsCareful` | src/megacache/cluster.py:613-727 | A run in which no rebalance succeeds never has a removed node, so it is careful |
| `ClusterRuns.RebalanceKeeps` | src/megacache/cluster.py:613-727 | A rebalance that fails, or succeeds on a tidy state, keeps the store's invariants, never lowers the watermark or the term |
| `ClusterRuns.BootstrapNeverResurrects` | src/megacache/cluster.py:2396-2489 | In every state that a careful run reaches, at any consistency profile, a node accepts a record of any earlier snapshot only if it is the newest acknowledged change of its key, also after its tombstone is collected or the store flushed |
| `ClusterRuns.WatermarkCovers` | src/megacache/cluster.py:2307-2341 | After a careful run a key's newest metadata is its newest change ever acknowledged, or the key has no metadata and the collection watermark is at least that change |
| `ClusterRuns.StampsIncrease` | src/megacache/cluster.py:2718-2720 | Acknowledged stamps strictly increase over every run, careful or not, although a failed write's number is used again |
| `ClusterRuns.OneLeaderPerTerm` | src/megacache/cluster.py:2684-2698 | Terms never fall, and while a term lasts its leader stays |
| `ClusterSnapshots.AcceptedIsNewest` | src/megacache/cluster.py:2396-2489 | A record that a bootstrap accepts is the newest acknowledged change of its key, whatever snapshot it is from |
| `ClusterSnapshots.BootstrapKeeps` | src/megacache/cluster.py:2396-2489 | Installing the accepted records, all or none, on any node keeps the store's invariant |
| `ClusterUpkeep.AcceptedIff` | src/megacache/cluster.py:2396-2489 | A node takes a snapshot record if and only if it is the last acknowledged change of its key, some node still has metadata of the key, and the node lacks it |
| `ClusterUpkeep.SnapshotHolds` | src/megacache/cluster.py:1472-1510 | A snapshot has a record of exactly the keys of which the node has anything, equal to its cell |
| `ClusterUpkeep.BootstrapSucceedsIff` | src/megacache/cluster.py:2396-2489 | A bootstrap succeeds if and only if the node is known, the snapshot is of this ring and leadership with distinct keys and stamps within it, and the node's engine does not fail a record that it has to take; a refused one changes nothing |
| `ClusterUpkeep.BootstrapLeaves` | src/megacache/cluster.py:2396-2489 | It installs exactly the records that the node had to take, leaves every other cell, and then sweeps the keys of those that are tombstones |
| `ClusterRuns.FlushKeepsIff` | src/megacache/cluster.py:1110-1135 | A refused flush keeps the invariants; one that succeeds raises the watermark over everything acknowledged and keeps them, so that nothing flushed can come back, if and only if no removed node had metadata before it |
| `ClusterRuns.FlushKeyIff` | src/megacache/cluster.py:1110-1135 | Key by key: after a flush a key is in order if and only if no removed node had metadata of it |
| `ClusterUpkeep.FlushSucceedsIff` | src/megacache/cluster.py:1110-1135 | A flush succeeds if and only if every member of the ring is in service |
| `ClusterUpkeep.FlushLeaves` | src/megacache/cluster.py:1110-1135 | It leaves the copies of removed nodes, nothing else and nothing catalogued, behind a watermark that is the next stamp |
| `ClusterRuns.HeartbeatKeeps` | src/megacache/cluster.py:524-538 | A heartbeat, with the sweep of a recovered node, keeps the invariant |
| `ClusterUpkeep.HeartbeatIs` | src/megacache/cluster.py:524-538 | A heartbeat marks the node seen, returns it from down to active or joining, changes no other node, settles leadership, and sweeps |
| `ClusterUpkeep.ElectIs` | src/megacache/cluster.py:2684-2698 | An election replaces only a leader that is not in service or not a member, in a new term, by the least member in service if there is one |
| `ClusterUpkeep.DetectElects` | src/megacache/cluster.py:2669-2698 | Failure detection elects if and only if some node has timed out |
| `ClusterUpkeep.NodeDownIs` | src/megacache/cluster.py:544-549 | A node reported down is down, no other node changes, and leadership is settled again |
| `ClusterSteps.PutKeeps` | src/megacache/cluster.py:915-950 | An acknowledged put adds its change to the history and stamps a majority of owners; a refused one leaves no trace, not even its sequence number |
| `ClusterAnswers.PutSucceedsIff` | src/megacache/cluster.py:1762-1854 | A put succeeds if and only if its fence fits, no owner that is up rejects it or fails for good, and the owners that are up and take it are at least one at ONE, more than half at MAJORITY, all at ALL |
| `ClusterAnswers.PutRefuses` | src/megacache/cluster.py:1762-1854 | A refused put leaves the state as failure detection left it, and its error tells which of these failed first |
| `ClusterAnswers.WrittenCells` | src/megacache/cluster.py:1762-1854 | A put that succeeds writes the value with the next stamp on exactly the owners that are up and take it, and changes no other cell |
| `ClusterAnswers.PutThenGet` | src/megacache/cluster.py:903-950 | After a put at a quorum profile, a quorum read at any later time answers the value put if enough owners answer, whichever they are, and raises the quorum error otherwise |
| `ClusterAnswers.DetectIs` | src/megacache/cluster.py:2669-2682 | Failure detection takes exactly the nodes in service whose heartbeat is older than the timeout out of service, and changes no other node |
| `ClusterSteps.ReadReturnsLast` | src/megacache/cluster.py:2056-2132 | A read whose answers overlap the write quorum answers with the last change of its key |
| `ClusterAnswers.ReadSucceedsIff` | src/megacache/cluster.py:2056-2132 | A read succeeds if and only if the owners that are up and answer are enough for its profile |
| `ClusterAnswers.ReadAtOne` | src/megacache/cluster.py:2056-2132 | At profile ONE the first owner that answers decides, and nothing changes |
| `ClusterAnswers.ReadAnswersExactly` | src/megacache/cluster.py:2056-2132 | At a quorum profile a read is a hit with the last acknowledged write if and only if an owner that answers still has its entry |
| `ClusterAnswers.ReadLeaves` | src/megacache/cluster.py:2146-2183 | Read repair: a quorum read that collects nothing leaves every owner that answered and did not break with the newest answer's metadata and entry (none for a tombstone), and every other cell as it was |
| `ClusterAnswers.ReadCollects` | src/megacache/cluster.py:2307-2341 | A deleted key whose owners are all up, answer and can be repaired is a miss, and the read collects its tombstone behind the watermark |
| `ClusterSteps.ReadKeeps` | src/megacache/cluster.py:2146-2183 | Read repair only copies acknowledged changes and keeps the quorum of the newest one |
| `ClusterSteps.CollectKeeps` | src/megacache/cluster.py:2307-2341 | Dropping a tombstone that every owner holds raises the watermark and keeps the invariant |
| `ClusterUpkeep.SweepIs` | src/megacache/cluster.py:2307-2341 | A sweep forgets exactly those of its keys whose newest version is a tombstone that every owner has, all of them up, takes just them out of the catalogue, and changes no other cell |
| `ClusterUpkeep.SweepMark` | src/megacache/cluster.py:2307-2341 | It leaves the watermark alone or sets it to the version of a tombstone that it collected |
| `ClusterUpkeep.SweepCovers` | src/megacache/cluster.py:2307-2341 | Afterwards the watermark covers every tombstone collected |
| `ClusterDeletes.DeleteKeeps` | src/megacache/cluster.py:1035-1052 | A delete of any set of keys is all or nothing: acknowledged, each distinct key gets its own tombstone on a majority of owners; refused, the state is that before it |
| `ClusterDeleteAnswers.DeleteSucceedsIff` | src/megacache/cluster.py:1890-2054 | Told from the state after failure detection and the first sweep: a delete succeeds if and only if its fence fits, for every key enough owners answer and enough take the tombstone, none that is up refuses it, and neither the tombstones that some owner may miss nor those that stay at the end pass the limit; it returns how many of the distinct keys were found; one that fails leaves that state, with the error of the first check that fails |
| `ClusterDeleteAnswers.DeleteLeaves` | src/megacache/cluster.py:1890-2054 | After a delete every owner that took the tombstone has it, stamped by the key's position, in place of the entry; no other entry of the key has changed; the key is forgotten, and leaves the catalogue, exactly if all its owners took it; no other key is touched |
| `ClusterDeleteAnswers.DeleteNothing` | src/megacache/cluster.py:1890-2054 | A delete of no keys only checks the fence |
| `ClusterInvariant.Overlap` | src/megacache/cluster.py:68-75 | Two majorities of the same owners share a member |
| `ClusterInvariant.LatestIsLast` | src/megacache/cluster.py:2738-2746 | The newest metadata on any node is the key's last acknowledged change |
| `ClusterStorageClass.ClusterStorage.constructor` | src/megacache/cluster.py:378-490 | A new cluster is empty, at term one, with a healthy ring member leading |
| `ClusterStart.Open` | src/megacache/cluster.py:378-490 | Opening a cluster builds the ring of the active, draining and down nodes, fails exactly when no active or draining node can lead, and otherwise gives a state from which the runs of `ClusterRuns` start, unless a node starts as removed or removing |
| `ClusterStorageClass.ClusterStorage.AddNode` | src/megacache/cluster.py:551-577 | A new node joins empty, with no metadata |
| `ClusterStorageClass.ClusterStorage.LeaveNode` | src/megacache/cluster.py:579-607 | A member, unless it is the last, is marked to be drained or removed |
| `ClusterStorageClass.ClusterStorage.AvailableOwners` | src/megacache/cluster.py:2653-2660 | The owners that are up, in ring order |
| `ClusterStorageClass.ClusterStorage.ElectLeader` | src/megacache/cluster.py:2684-2698 | A new term exactly when the leader is no healthy ring member, led by the least candidate |
| `ClusterStorageClass.ClusterStorage.DetectFailures` | src/megacache/cluster.py:2669-2682 | Nodes past the heartbeat timeout go down, and only then is a leader elected |
| `ClusterStorageClass.ClusterStorage.MarkNodeDown` | src/megacache/cluster.py:544-549 | The node is down and leadership is settled again |
| `ClusterStorageClass.ClusterStorage.LatestMetadata` | src/megacache/cluster.py:2738-2746 | The metadata with the greatest stamp over all nodes |
| `ClusterStorageClass.ClusterStorage.NodeHasRecord` | src/megacache/cluster.py:2748-2761 | Whether a node holds that version, as an entry or as a tombstone |
| `ClusterStorageClass.ClusterStorage.ReplicatePut` | src/megacache/cluster.py:1762-1854 | Writing replica by replica, with per-replica undo and full rollback below quorum or on a hard error, equals one all-or-nothing installation; the sequence number is reused after a rollback |
| `ClusterStorageClass.ClusterStorage.Put` | src/megacache/cluster.py:915-950 | Failure detection, fence, replication and catalogue, as the transition |
| `ClusterStorageClass.ClusterStorage.CollectKey` | src/megacache/cluster.py:2307-2341 | A tombstone is dropped exactly when the key's newest metadata is one and every owner is up and holds it |
| `ClusterStorageClass.ClusterStorage.CollectTombstones` | src/megacache/cluster.py:2307-2341 | Sweeping the keys one by one equals the transition's fold |
| `ClusterStorageClass.ClusterStorage.RepairReplicas` | src/megacache/cluster.py:2146-2183 | Exactly the stale or inconsistent replicas that answered are rewritten with the winner's record |
| `ClusterStorageClass.ClusterStorage.Read` | src/megacache/cluster.py:2056-2132 | The quorum read with winner selection, repair and collection, or the quorum error |
| `ClusterStorageClass.ClusterStorage.Get` | src/megacache/cluster.py:903-913 | Failure detection, then the quorum read |
| `ClusterStorageClass.ClusterStorage.Delete` | src/megacache/cluster.py:1035-1052 | Failure detection, fence, first occurrences of the keys, then the transaction |
| `ClusterStorageClass.ClusterStorage.DeleteKeys` | src/megacache/cluster.py:1890-2054 | Reads, node-by-node deletion with per-node undo, quorum checks, collection and the tombstone limit equal the all-or-nothing transition |
| `ClusterStorageClass.ClusterStorage.UndoDelete` | src/megacache/cluster.py:2032-2051 | Putting back the checkpoints not yet used up and the selected keys' metadata restores the exact state before the transaction, repairs and collections made by its reads included |
| `ClusterStorageClass.ClusterStorage.BuryNodes` | src/megacache/cluster.py:1971-2003 | After any number of nodes, succeeded nodes hold the tombstones, failed ones are as at the checkpoint, and only the latter have lost their checkpoint |
| `ClusterBurial.UndoneIsBefore` | src/megacache/cluster.py:2032-2051 | A state that differs only in checkpointed stores and in the selected keys' metadata is undone exactly |
| `ClusterStorageClass.ClusterStorage.Heartbeat` | src/megacache/cluster.py:524-538 | Recovery of a failed node, election and the sweep, as the transition |
| `ClusterStorageClass.ClusterStorage.Flush` | src/megacache/cluster.py:1110-1135 | All stores cleared behind a new watermark, only when every member is up |
| `ClusterStorageClass.ClusterStorage.CreateSnapshot` | src/megacache/cluster.py:1472-1510 | The node's records with their stamps, tombstones included, bound to ring and fence |
| `ClusterStorageClass.ClusterStorage.BootstrapNode` | src/megacache/cluster.py:2396-2489 | Fence and ring checks, selection of acceptable records, installation or full undo, and burial of deleted keys, as the transition |
| `ClusterStorageClass.ClusterStorage.ApplyRebalance` | src/megacache/cluster.py:613-727 | Fence, version and plan checks, moves, verification, switch, cleaning, and on any failure in them the restoring of ring, stores, metadata and statuses, equal the transition: it succeeds exactly when every move can be made, every new owner is verified and no deletion raises |
| `ClusterRebalance.SuccessIsCurrent` | src/megacache/cluster.py:613-727 | If it succeeds, every owner under the new ring holds the newest version of every catalogued key that still has metadata, former owners hold nothing of it and no newest version is lost, except behind the watermark |
| `ClusterRebalanceAnswers.RebalanceSucceedsIff` | src/megacache/cluster.py:613-727 | In any state with the invariant, told before any move: a rebalance succeeds if and only if the plan is of this leadership and ring and fits, every move can be made in its turn (source and target up, the source has the newest version or earlier moves brought it, nothing collected it, and a target whose engine fails has the entry already), and no member that raises on deletes has a catalogued copy to give up; the final verification then never fails |
| `ClusterRebalanceAnswers.RunBound` | src/megacache/cluster.py:2684-2720 | Its second hypothesis holds in every run: stamps of the current term are of the current leader |
| `ClusterRebalanceAnswers.RebalanceLeaves` | src/megacache/cluster.py:681-714 | After success joining nodes are active, draining ones drained, removing ones removed, no other status or heartbeat has changed, the ring is the plan's, and leadership is settled |
| `ClusterRebalanceAnswers.NoneLeftToCollect` | src/megacache/cluster.py:2307-2341 | Its final sweep leaves no tombstone that every owner has, all of them up |
| `ClusterRebalanceAnswers.AddedServes` | src/megacache/cluster.py:551-727 | A node that was added becomes an active member by the next rebalance that succeeds if and only if it has not timed out by then |
| `ClusterRebalanceAnswers.LeaverLeaves` | src/megacache/cluster.py:579-727 | A member told to leave is out after the next rebalance that succeeds, with no copy of a catalogued key, if and only if it is being removed or has not timed out; a drained node that has timed out stays a member, down |
| `ClusterUndo.FailedRebalance` | src/megacache/cluster.py:716-723 | If it fails (and, as draining and removal ensure, only members are leaving), the ring, order, term, leader and sequence are as failure detection left them, the catalogue is no larger and the watermark no lower; every affected node's store, metadata and status are as before, and another node may only lose metadata, behind a watermark |
| `ClusterUndo.FailureForgets` | src/megacache/cluster.py:716-723 | What a failure does not put back, exactly, told from the state before the moves when the first so many were made: a key leaves the catalogue if and only if its newest version is a tombstone, one of these moves is of it, and every owner is up and has the tombstone or is the target of one of these moves of it; the watermark stays if and only if it covers all these tombstones |
| `ClusterUndo.FailureForgetsNothing` | src/megacache/cluster.py:716-723 | So a failed rebalance whose plan moves no tombstone puts back catalogue and watermark too |
| `ClusterForgotten.FailureForgetsTombstone` | src/megacache/cluster.py:716-723 | The loss is reached: a tombstone is back in a replica's metadata, its key no longer in the catalogue, and the watermark has risen |
| `ClusterUndo.FailureKeeps` | src/megacache/cluster.py:613-727 | A rebalance that fails keeps the store's invariant and every key's quorum, whatever its completed moves collected |
| `ClusterSwitch.RebalanceKeepsIff` | src/megacache/cluster.py:613-727 | After a rebalance that succeeded the store's invariant and every key's quorum hold if and only if each key was catalogued, or no owner to be had a copy of it without metadata and more than half of them had its newest version |
| `ClusterStale.RebalanceMisleadsIff` | src/megacache/cluster.py:2056-2132 | After a rebalance that succeeded, the next quorum read of a key, at any time and whichever nodes are up and answer, can return something other than its last acknowledged write if and only if the key was not catalogued and, before the rebalance, a node that it makes an owner had a stale copy that a quorum of the new owners that are up do not beat |
| `ClusterStale.MisleadIff` | src/megacache/cluster.py:2056-2132 | In any state whose metadata is acknowledged a quorum read can be stale if and only if an owner that is up has a stale copy and a quorum of the owners that are up do not beat it |
| `ClusterSwitch.MovesSettle` | src/megacache/cluster.py:641-665 | After all moves each target has the newest version of its key or no copy of it, also when the tombstone was collected on the way |
| `ClusterCollected.MovesTrack` | src/megacache/cluster.py:641-665 | After moves that are all made a key has no metadata if its tombstone has reached all owners, each being up, and otherwise still has its tombstone exactly where it was or was sent |
| `ClusterCollected.MovesWatermark` | src/megacache/cluster.py:2307-2341 | The moves leave the watermark alone if and only if it covers every tombstone they collect |
| `ClusterWitness.UntidyRebalanceResurrects` | src/megacache/cluster.py:613-727 | The condition can fail: a reached state in which a quorum read after a successful rebalance returns a deleted value |
| `ClusterRetired.RemovedNodeKeepsFlushed` | src/megacache/cluster.py:1110-1135 | The condition of the flush can fail: a reached state, each snapshot installed once, in which a quorum read returns a flushed value |
| `ClusterStorageClass.ClusterStorage.RunPlan` | src/megacache/cluster.py:641-665 | Streaming the planned records one by one, up to the first that fails, equals the transition |
| `ClusterStorageClass.ClusterStorage.VerifyTargets` | src/megacache/cluster.py:667-680 | The check passes if and only if every target owner holds the newest version of every catalogued key |
| `ClusterStorageClass.ClusterStorage.DropFormerCopies` | src/megacache/cluster.py:693-700 | Deleting key by key and node by node is stopped exactly when some former owner's deletion raises, touches old members only, and otherwise leaves the old members with no catalogued key they do not own |
| `ClusterStorageClass.ClusterStorage.PutBackAll` | src/megacache/cluster.py:716-723 | The stores, metadata and statuses of the affected nodes and the ring are exactly as saved, whatever they held when the failure came |
| `ClusterRebalance.DropKeeps` | src/megacache/cluster.py:693-700 | Dropping the former owners' copies changes neither what the owners hold nor which version is newest |
| `ClusterRebalance.InstallLatest` | src/megacache/cluster.py:2396-2489 | Installing a copy of the newest version keeps it the newest |
| `Snapshot.TransferExact` | src/megacache/cluster.py:263-340 | For every record list, chunk size and window, and every order of asks, deliveries (repeated or reordered) and acknowledgements: never more than the window is outstanding, and a complete transfer yields exactly the records sent |
| `Snapshot.RecordsExact` | src/megacache/cluster.py:322-340 | The receiver returns the records sent if it holds every chunk and reports an incomplete snapshot otherwise |
| `Snapshot.DecodePayload` | src/megacache/cluster.py:2351-2394 | Splitting the payload into lines and decoding gives the records back |
| `Snapshot.JoinChunks` | src/megacache/cluster.py:2351-2394 | Chunk boundaries that ignore line boundaries lose nothing |
| `Snapshot.ReceiveNew` | src/megacache/cluster.py:304-320 | An offered chunk that is new is always accepted: the byte limits never refuse what the sender offered |
| `Snapshot.OfferIff` | src/megacache/cluster.py:2351-2394 | A snapshot is offered if and only if its encoded records fit the limit, with one chunk for every multiple of the chunk size below its length |
| `Snapshot.ChunkIs` | src/megacache/cluster.py:2351-2394 | Chunk number i is the payload from i times the chunk size, cut at the next multiple or the end |
| `Snapshot.NeverOtherRecords` | src/megacache/cluster.py:322-340 | If the digest tells bytes apart, a receiver that has taken any chunks whatever returns the records that were sent or an error |
| `Snapshot.TakenIsOffered` | src/megacache/cluster.py:304-320 | A chunk that carries the checksum offered for its index is taken if and only if it is that chunk and new; refused, it changes nothing |
| `Snapshot.OverrunIsFinal` | src/megacache/cluster.py:304-320 | Bytes that passed a limit stay counted, so no later chunk is ever taken |
| `SnapshotClasses.SnapshotSession.AskChunk` | src/megacache/cluster.py:263-274 | The next chunk, the end, or backpressure; outstanding chunks stay within the window |
| `SnapshotClasses.SnapshotSession.Confirm` | src/megacache/cluster.py:276-280 | Only an outstanding chunk can be acknowledged, once |
| `SnapshotClasses.SnapshotReceiver.Accept` | src/megacache/cluster.py:304-320 | Identity, range, duplicate, checksum and size checks in order, as the transition |
| `SnapshotClasses.SnapshotReceiver.Finish` | src/megacache/cluster.py:322-340 | Count, length, checksum and decoding checks in order, as the transition |
| `SnapshotClasses.Pull` | src/megacache/cluster.py:2409-2415 | The bootstrap transfer loop ends for every session, and returns the records sent exactly when the session is new and its window admits a chunk |
| `EngineRuns.EveryRunIsValid` | src/megacache/engine.py:146-212 | After every operation of every run, used bytes are the sum of entry and lease sizes, the tag index is the exact inverse of the entries' tags without empty sets, and entry, byte and lease limits hold |
| `EngineRuns.StaleTokenNeverWrites` | src/megacache/engine.py:589-669 | Once a put, delete or flush of a key has completed, no put with a token issued for the key before it succeeds, whatever renewals, releases and expiries lie between |
| `EngineRuns.TokenWritesOnce` | src/megacache/engine.py:173-180 | A lease token authorises at most one write |
| `EngineRuns.RestoreKeeps` | src/megacache/engine.py:400-449 | The capacity computed before loading a snapshot is exactly what loading leads to, so the limits hold after it |
| `EngineAnswers.GetAnswers` | src/megacache/engine.py:953-988 | A get is fresh if and only if the entry is there and now is before its fresh deadline, stale if from there to before its stale deadline, a miss otherwise |
| `EngineAnswers.GetLeaves` | src/megacache/engine.py:953-988 | A hit becomes the most recent entry with its access counted, an expired entry goes, and nothing else changes |
| `EngineAnswers.PutWindow` | src/megacache/engine.py:146-212 | Over runs: after an accepted put with a time to live and a stale time, while no operation changes or evicts the entry, a get is fresh until the first is over, stale until the second is over, and a miss after |
| `EngineAnswers.ExpireWindow` | src/megacache/engine.py:298-310 | Over runs: after a successful expire the value is fresh until the new time and gone after |
| `EngineAnswers.PutAnswers` | src/megacache/engine.py:146-212 | A put is refused for size, for a lease that is not running, for another token, or for bytes that leases hold, in this order, and otherwise stores and answers the entry |
| `EngineAnswers.EvictMinimal` | src/megacache/engine.py:1025-1047 | Eviction takes no more than it must: with the last entry it took, a limit would be passed |
| `EngineAnswers.ExpireAnswers` | src/megacache/engine.py:298-310 | Expire succeeds exactly for an entry whose time is not over, moves both its deadlines, and leaves all others |
| `EngineAnswers.AcquireAnswers` | src/megacache/engine.py:589-641 | Acquire answers a fresh hit unless forced, leaves a key with a running lease to it, refuses when lease count or bytes have no room, and otherwise grants, with the stale value if there is one: so a stale entry is refreshed without force |
| `EngineAnswers.AcquireLeaves` | src/megacache/engine.py:589-641 | A grant runs for the lease time; other leases are kept exactly if they are running |
| `EngineAnswers.RenewAnswers` | src/megacache/engine.py:655-669 | Renewal succeeds exactly for the token of a running lease and moves its end |
| `EngineAnswers.ReleaseAnswers` | src/megacache/engine.py:643-653 | Release succeeds exactly for the lease's token and removes just that lease |
| `EngineAnswers.RestoreSucceedsIff` | src/megacache/engine.py:400-449 | A snapshot is loaded if and only if the entries it leads to are within both limits |
| `EngineAnswers.LoadedAnswers` | src/megacache/engine.py:400-449 | Every loaded entry then answers with its own window |
| `EngineCounters.CountersExact` | src/megacache/engine.py:953-988 | In every run the counters of hits, stale hits and misses are the numbers of gets and lease requests that found the key fresh, stale or not at all, whatever writes, expiries, evictions and restores lie between |
| `EngineInvariant.PutKeeps` | src/megacache/engine.py:146-212 | A put keeps every limit, and what it stored is found fresh by the lookup that ends it |
| `EngineInvariant.EvictKeeps` | src/megacache/engine.py:1025-1047 | Eviction ends inside both limits and keeps the most recently used entries, in order and unchanged |
| `EngineInvariant.NewestSurvives` | src/megacache/engine.py:1025-1047 | The key just written survives its own eviction pass |
| `EngineInvariant.InvalidateExact` | src/megacache/engine.py:576-587 | Exactly the entries that carry one of the tags are removed, and counted |
| `EngineInvariant.AcquireKeeps` | src/megacache/engine.py:589-641 | Granting a lease keeps bytes and limits exact |
| `EngineInvariant.TagsDetermined` | src/megacache/engine.py:990-1009 | The entries determine the tag index |
| `EngineJournal.UndoRestoresEverything` | src/megacache/engine.py:460-544 | After any sequence of puts, gets, expiries and deletes of the journalled key, with any evictions, undo gives back the entries in their exact LRU order, the tag index, leases, byte counts and metrics |
| `EngineJournal.ReinstateRebuilds` | src/megacache/engine.py:501-544 | Putting evicted entries back at the front, last first, rebuilds their order |
| `EngineJournal.InsertRestores` | src/megacache/engine.py:501-544 | Re-inserting the entry after its saved predecessor restores its exact place |
| `CacheEngineClass.CacheEngine.Put` | src/megacache/engine.py:146-212 | Checks, replacement, tag index, lease removal, eviction and lookup, as the transition, keeping the invariant |
| `CacheEngineClass.CacheEngine.Get` | src/megacache/engine.py:141-144 | The counted lookup, as the transition |
| `CacheEngineClass.CacheEngine.Lookup` | src/megacache/engine.py:953-988 | Miss, expiry, fresh and stale hits with their moves and counters |
| `CacheEngineClass.CacheEngine.RemoveEntry` | src/megacache/engine.py:990-1009 | Removal with byte count, tag index and journal |
| `CacheEngineClass.CacheEngine.EvictIfNeeded` | src/megacache/engine.py:1025-1047 | The loop terminates and ends inside both limits |
| `CacheEngineClass.CacheEngine.Delete` | src/megacache/engine.py:275-282 | Entry and lease removed, as the transition |
| `CacheEngineClass.CacheEngine.Expire` | src/megacache/engine.py:298-310 | New deadline for a live entry, as the transition |
| `CacheEngineClass.CacheEngine.Flush` | src/megacache/engine.py:335-344 | Everything dropped, as the transition |
| `CacheEngineClass.CacheEngine.AcquireLease` | src/megacache/engine.py:589-641 | Purge, lookup, coalescing, capacity and grant, as the transition |
| `CacheEngineClass.CacheEngine.ReleaseLease` | src/megacache/engine.py:643-653 | Only the holder of the token releases |
| `CacheEngineClass.CacheEngine.RenewLease` | src/megacache/engine.py:655-669 | Only a running lease with the right token is extended |
| `CacheEngineClass.CacheEngine.InvalidateTags` | src/megacache/engine.py:576-587 | Removal by tag, as the transition |
| `CacheEngineClass.CacheEngine.RestoreEntries` | src/megacache/engine.py:400-449 | Purge, capacity check and load, as the transition |
| `CacheEngineClass.CacheEngine.BeginCheckpoint` | src/megacache/engine.py:460-491 | The journal with the entry, its predecessor, lease, counts and metrics; refused while one is active |
| `CacheEngineClass.CacheEngine.RestoreCheckpoint` | src/megacache/engine.py:501-544 | Undo as the transition; refused without an active journal |
| `ClientProtocol.EntriesAreRecent` | src/megacache/client.py:586-752 | At every point of every interleaving, each local entry was read from the server after the latest generation bump, or is the very value that the mutation which made that bump wrote under its key |
| `ClientProtocol.NoHitBeforeMutation` | src/megacache/client.py:799-830 | Once a mutation whose reply reported a change has returned, every local hit shows a value the server held in the state that mutation made, or later |
| `ClientProtocol.ReadYourWrites` | src/megacache/client.py:799-830 | While the server has not changed since a client's own mutation, a local hit is the value it wrote, and a key that it removed is no local hit |
| `ClientReplies.HitsAfterReply` | src/megacache/client.py:359-385 | Once any mutation has returned, every local hit shows a value the server held in the state its caller has seen, or later, if the reply was not zero or the generation has moved since |
| `ClientReplies.ZeroReplyClearsNothing` | src/megacache/client.py:359-385 | A mutation answered with zero leaves local cache and generation as they were |
| `ClientReplies.OlderHitsAfterZero` | src/megacache/client.py:517-526 | An older hit after a zero reply is a value the client had cached, or was about to admit, when the reply came, and no bump has come since |
| `ClientReplies.PendingCanBeHit` | src/megacache/client.py:517-526 | And every such value can be a hit in some continuation of the run |
| `ClientReplies.RemovedKeyStaysCached` | src/megacache/client.py:359-367 | The condition can fail: a reached run in which the removal of a key has returned zero and the key is still in the local cache |
| `ClientProtocol.NextKeeps` | src/megacache/client.py:754-782 | Every step of a reader, mutator or poller keeps the provenance invariant |
| `LocalCaches.LocalCache.Put` | src/megacache/client.py:154-180 | The value becomes the newest entry, only least recently used ones are dropped and no more than must be, and both limits hold; a value over the memory limit changes nothing |
| `LocalCaches.LocalCache.Get` | src/megacache/client.py:138-152 | Miss, fresh and stale exactly by the deadlines; a hit moves to the newest place, an expired entry goes |
| `LocalCaches.LocalCache.Evict` | src/megacache/client.py:154-180 | Eviction ends inside the limits without dropping the newest entry, and with the last entry it dropped a limit would be passed |
| `RespRoundTrip.ResponseRoundTrip` | src/megacache/client.py:951-1024 | The client reads back the value the server encoded, leaving all following bytes, if and only if it is within the nesting, array, bulk, line and total limits |
| `RespRoundTrip.ErrorRoundTrip` | src/megacache/resp.py:1514-1517 | A server error reaches the client as a command error with its text if and only if its line is short enough |
| `RespRoundTrip.CommandRoundTrip` | src/megacache/resp.py:280-309 | The server reads back the arguments the client printed, leaving all following bytes, if and only if there are 1 to 1024 of them within the body limit |
| `RespInline.InlineRoundTrip` | src/megacache/resp.py:280-309 | An inline command is read back as its words, however they are spaced, unless its line is too long or blank |
| `RespInline.SplitFindsWords` | src/megacache/resp.py:280-309 | Splitting at white space finds the words, whatever white space lies before, between and after them |
| `RespInline.EveryLineIsSpread` | src/megacache/resp.py:280-309 | And every line is its words with white space around them |
| `RespRoundTrip.ReadEncoded` | src/megacache/resp.py:1495-1511 | Reading an encoded value at any depth counts exactly its bytes against the budget |
| `RespRoundTrip.ReadFits` | src/megacache/client.py:951-990 | Whatever bytes arrive, a value that is returned lies within every limit and every byte taken was counted |
| `RespRoundTrip.ParseDecimal` | src/megacache/resp.py:318-322 | Parsing undoes printing for every integer |
| `RespRoundTrip.ShortestDecimal` | src/megacache/client.py:951-990 | The printed form is the shortest that parses to the number, whatever white space, signs and underscores the parser admits |
| `RespStreams.ResponseReader.ReadResponse` | src/megacache/client.py:951-990 | The recursive reader over a consumed stream and budget equals the pure parser |
| `RespStreams.ResponseReader.TakeBulk` | src/megacache/client.py:992-1010 | Bulk strings, as the pure parser |
| `RespStreams.ResponseReader.TakeLine` | src/megacache/client.py:1012-1018 | Lines within the length limit, ended by CR LF |
| `RespStreams.RequestReader.TakeRequest` | src/megacache/resp.py:280-309 | The request reader, inline commands included, equals the pure reader |
| `RespStreams.RequestReader.TakeArguments` | src/megacache/resp.py:291-308 | The argument loop with its running total equals the pure reader |
| `DependencyGraphs.DependencyGraph.AddDependency` | src/megacache/events.py:440-461 | An edge is added exactly when it is new, within the node, edge and fanout bounds and closes no cycle; the graph stays acyclic with exact counts |
| `DependencyGraphs.DependencyGraph.Expand` | src/megacache/events.py:463-486 | Exactly the nodes reachable from the seeds, refused precisely when they exceed the node bound or one with children lies at shortest distance at least the depth bound |
| `DependencyGraphs.DependencyGraph.IsReachable` | src/megacache/events.py:500-511 | The stack search answers whether a path exists, and ends |
| `DependencyPaths.AddKeepsAcyclic` | src/megacache/events.py:440-461 | A new edge keeps an acyclic graph acyclic if and only if its target does not reach its source |
| `DependencyPaths.WithinIsDistance` | src/megacache/events.py:463-486 | The search levels are distances: their members are the ends of paths of at most that many edges from a seed |
| `DependencyPaths.ReachableIsPath` | src/megacache/events.py:463-486 | Reachable means that some path from a seed ends there |
| `DependencyGraphs.Visit` | src/megacache/events.py:463-486 | Visiting the head of the queue keeps the levels of the search exact |
| `EventRuns.AcceptedOnce` | src/megacache/events.py:1211-1303 | Over every run of ingest and retry, whatever the ids, accepted positions strictly increase per stream, so none is accepted twice however short the duplicate history |
| `EventAnswers.IngestAnswers` | src/megacache/events.py:1211-1268 | In any run, told from the events accepted: a duplicate is an event whose id is among the last remembered number of distinct ids, else a replay one at or behind an accepted position of its stream, else a new stream beyond the limit, a refusing effect and an unsaved state raise, and else the effect decides between processed and dead letter |
| `EventAnswers.AnswerChanges` | src/megacache/events.py:1211-1268 | What each answer changes: a duplicate or replay nothing, a processed event is accepted and applied, a failed one accepted and filed once, its letter updated if its id has one, and what raises changes no stored state |
| `EventAnswers.RetryIs` | src/megacache/events.py:1270-1303 | A retry pass tries the first due letters up to the limit, in order: those that work are applied and gone, those that fail wait longer, all others stay |
| `EventAnswers.RetryStops` | src/megacache/events.py:1270-1303 | A retry that is not written ends the pass, and only the application of its event remains of it |
| `EventAnswers.BackoffDoubles` | src/megacache/events.py:716-761 | A letter waits a second after its first failure, twice as long after each further one, and never more than an hour |
| `EventRuns.NeverLost` | src/megacache/events.py:1211-1303 | With distinct ids every accepted event was applied or is still a dead letter |
| `EventRuns.NeverLostIff` | src/megacache/events.py:1211-1303 | With no assumption on ids, nothing accepted is lost at any point of a run if and only if every filed failure finds no letter with its id, or its own, or an event applied before |
| `EventRuns.FailureKeepsEvent` | src/megacache/events.py:716-761 | With no assumption on ids, a dead-lettered event is kept if and only if no letter carries its id yet, one is its own, or it was applied before |
| `EventRuns.ReusedIdLosesEvent` | src/megacache/events.py:716-761 | The condition can fail: a reached state in which a reused id loses the new event |
| `EventIngestors.EventIngestor.IngestEvent` | src/megacache/events.py:1211-1268 | Duplicate, replay, capacity, failure and completion, written together or not at all |
| `EventIngestors.EventIngestor.FileLetter` | src/megacache/events.py:716-761 | Letter, checkpoint and history change together, within the letter limit |
| `EventIngestors.EventIngestor.RetryDeadLetters` | src/megacache/events.py:1270-1303 | The retry loop over a snapshot of the letters, with limit, due times and interruption by a failed save |
| `EventIngestors.EventIngestor.Settle` | src/megacache/events.py:1038-1065 | Checkpoint moved and id remembered, keeping the newest ids |
| `AuditRuns.ReloadReproduces` | src/megacache/controlplane.py:1281-1374 | Any log made by appends, rotations, prunes, restarts and crashes inside prunes is accepted by reload, which yields the same records, anchor, segments and ranges |
| `AuditRuns.CrashCompletesPrune` | src/megacache/controlplane.py:1171-1250 | After a crash between writing the anchor and any of the unlinks, reload gives exactly the log of the completed prune |
| `AuditRuns.PruneKeeps` | src/megacache/controlplane.py:1171-1250 | A prune leaves a log whose chain starts at the new anchor and whose files, segments and ranges agree |
| `AuditAnswers.PruneSucceedsIff` | src/megacache/controlplane.py:1171-1250 | For a good log a prune succeeds if and only if some record has the sequence number and the hash given; a refused one leaves log, files and anchor as they were |
| `AuditAnswers.PruneRemoves` | src/megacache/controlplane.py:1171-1250 | One that succeeds removes exactly the segments whose last record is at or before it, leaves the others unchanged, and returns their number |
| `AuditAnswers.PruneAnchors` | src/megacache/controlplane.py:1171-1250 | The chain then starts at the last record removed |
| `AuditRuns.PruneDropsConfirmed` | src/megacache/controlplane.py:1171-1250 | A prune drops a front part of the chain and nothing after the confirmed record |
| `AuditChain.AppendKeeps` | src/megacache/controlplane.py:1033-1113 | An append extends the chain by one linked record, rotating within the segment limit; a refused one changes nothing |
| `AuditAnswers.AppendSucceedsIff` | src/megacache/controlplane.py:1033-1113 | An append succeeds if and only if the record is small enough and the last file has room or another may be opened |
| `AuditAnswers.AppendWrites` | src/megacache/controlplane.py:1033-1113 | It writes the record that follows the chain's head at the end of the last file, or alone in a new one when that is full |
| `AuditChain.SegmentFits` | src/megacache/controlplane.py:1252-1279 | The chosen segment stays within the size and count that reload accepts |
| `AuditReload.ReloadGives` | src/megacache/controlplane.py:1281-1374 | Reload of a good log's files, with any files behind the anchor still there, gives that log and removes the leftovers |
| `AuditAnswers.ReloadAcceptsIff` | src/megacache/controlplane.py:1281-1374 | Reload accepts any files if and only if they are few and small enough and, past the anchor, form an unbroken chain of records that each carry their predecessor's hash and their own digest; those records are then the log |
| `AuditLogs.AuditLog.AppendRecord` | src/megacache/controlplane.py:1033-1113 | Append as the transition |
| `AuditLogs.AuditLog.PruneExported` | src/megacache/controlplane.py:1171-1250 | Confirmation, eligible segments, new anchor and unlinking, as the transition |
| `AuditLogs.AuditLog.ChooseSegment` | src/megacache/controlplane.py:1252-1279 | First, current, next or no segment by size and count |
| `AuditLogs.AuditLog.Restart` | src/megacache/controlplane.py:1281-1374 | The verifying reload loop equals the pure reload |
| `TokenBuckets.WindowBound` | src/megacache/controlplane.py:1827-1849 | In any time window of any run with a monotone clock, at most burst plus rate times the window's length is granted |
| `TokenBuckets.LevelIs` | src/megacache/controlplane.py:1827-1849 | At every point of every run the bucket holds exactly what it held when it last ran full, or at the start, and all that has accrued since, less what was granted since |
| `TokenBuckets.RefusedWhenSpent` | src/megacache/controlplane.py:1827-1849 | So a request is refused only when, since then, all but less than one of what there was and has accrued was granted |
| `TokenBuckets.RunBounds` | src/megacache/origin.py:620-636 | The bucket never goes below zero or above capacity |
| `TokenBuckets.TenantRuntime.BeginOperation` | src/megacache/controlplane.py:1827-1849 | An admitted operation is one the bucket grants; refusal by a flag leaves the bucket alone |
| `TokenBuckets.RetryBudget.ConsumeRetry` | src/megacache/origin.py:620-636 | A retry is one the bucket grants |
| `Admission.AlwaysExact` | src/megacache/origin.py:483-532 | Under every interleaving of acquire, wait, wake, timeout, release and close, active and waiting equal the holders and waiters and stay within their limits |
| `Admission.AdmissionBudget.Enter` | src/megacache/origin.py:495-522 | The first stretch of acquire: closed, admitted, queue full or queued |
| `Admission.AdmissionBudget.Resume` | src/megacache/origin.py:495-522 | A return from the wait: closed, admitted, timed out or waiting on |
| `Coalescing.FollowersExact` | src/megacache/origin.py:1420-1487 | At every point of every interleaving the follower total is the sum over all flights, finished ones included, each flight counts exactly its followers, and neither exceeds the widest limit that a caller of the key, or of the registry, has brought |
| `Coalescing.OneLoaderPerKey` | src/megacache/origin.py:1420-1487 | At most one loader per key runs |
| `Coalescing.FlightRegistry.Enter` | src/megacache/origin.py:1420-1452 | Lead a new flight, follow the open one, or be shed at the limits of the requesting origin and service |
| `Coalescing.FlightRegistry.Complete` | src/megacache/origin.py:1480-1487 | The key is freed unless another flight has taken it |
| `AgingQueues.NoStarvation` | src/megacache/origin.py:69-97 | Once a job is overdue it is served after at most as many dequeues as there are earlier jobs and shutdown sentinels queued, plus sentinels added since, whatever priorities arrive later and whatever puts were shed |
| `AgingQueues.OverdueAdvances` | src/megacache/origin.py:80-97 | While an overdue job waits, every dequeue takes something ahead of it |
| `AgingQueues.AgingPriorityQueue.Pop` | src/megacache/origin.py:80-97 | A sentinel first, else the overdue job queued first, else the least; every other item stays |

## Left out

- Hot replicas, refresh leases and tags at cluster level, `mset`, `expire` and `restore_entries` of the cluster: they repeat the single-key write with more bookkeeping.
- Plan computation and catalogue reconciliation of a rebalance: a plan is an argument. Instead of recomputing it and comparing digests, `ClusterModel.Fits` asks for what a plan equal to the recomputed one has: its members, its moves' keys, sources and targets, and a move for every new owner that needs one. Every plan that the original applies passes, and some that it would not. Reconciliation (src/megacache/cluster.py:2187, 2275-2305) takes keys without metadata out of the catalogue and deletes catalogued keys whose copies are gone from a quorum; in a run that is a `DeleteOp` before the `RebalanceOp`, and it stays when the plan check then fails.
- A rebalance reports one error for whatever exception ends its guarded part.
- Storage that a new node brings with it: nodes start and join empty.
- Consistency profile ONE in the quorum-read theorem: it deliberately allows stale reads.
- ClusterStorageClass.ClusterStorage.Flush: the number of removed keys is not returned, because it comes from a separate read of the stores' sizes.
- Cost-based eviction and its scores: floating-point heuristics; under that policy undo restores contents but not order.
- EngineJournal.UndoRestoresEverything: restoring a snapshot inside a journal is not one of its operations, because expired entries purged there come back at the front and the exact order is lost.
- RespRoundTrip.ParseDecimal: the limit that Python sets on the number of digits of an integer conversion is not modelled; server integers are far below it.
- AuditLogs.AuditLog.AppendRecord: an append that raises while it opens a new segment can leave that segment in the list of segments; the model's refused append changes nothing.
- Entry and lease sizes, value copying, key and tag validation in the engine: parameters of the operations.
- Freshness windows that the client computes for local entries, and results shared with callers that joined a load in flight: only local hits are claimed to be current.
- RespRoundTrip.ResponseRoundTrip: text is modelled by its UTF-8 bytes, and truth values, which print like integers without being parsed back, are not values of the model.
- Rule matching, schema preparation and the effect of an event on the storage: one of three outcomes chosen by the environment; partial effects of a failed application are not modelled.
- Replay-token claims, state migration and file locking of the checkpoint store, and the check that rules are configured.
- Audit log: a write torn by a crash inside an append, file permissions and links, the anchor's own signature (an opaque digest checked like a record's), and export.
- The circuit breaker, request retries and the maintenance drain.
- Admission: that a waiter is eventually woken; only safety is stated.
- AgingQueues.AgingPriorityQueue.Heapify: the heap is modelled by what the standard library promises of it, a rearrangement with the least item first.
- HTTP and TLS transport, configuration, metrics text, the control plane's tenants, users, artifacts and billing, cache intelligence, and the Go, Node and Java clients.
