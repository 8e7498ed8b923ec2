# Verified core of the distributed-systems repository

A Dafny model, with proofs, of three parts of the repository:

- **Raft** (`src/raft1/raft.go`, with `src/tester1/persister.go` and the service in `src/raft1/server.go`): election,
  replication with fast backup, persistence, log compaction, InstallSnapshot and the applier goroutine, for any
  number of peers, over a network that loses, delays, reorders and duplicates, with crashes at any point.
- **The versioned key/value server** (`src/kvsrv1`): server, retrying clerk and distributed lock, for any number of
  concurrent clients and any pattern of lost requests and replies.
- **The shard rebalancer** (`src/shardkv1/shardcfg/shardcfg.go`), for any number of groups and any number of shards
  below the sentinel 257.

`dafny verify dfyconfig.toml` checks everything.

## How the files fit together

Raft is modelled at three levels. `RaftProtocol` is the protocol on whole logs with history variables;
`RaftInvariant` and `RaftPreservation` state and keep its invariant (reigns, votes, acknowledgements), from which
Log Matching, Election Safety and Leader Completeness follow. `RaftPeer` holds the step functions of one peer as the
code has it: a sentinel entry, an index offset and a disk. `RaftNode` is the imperative object, each of whose methods
is proved to do what its step function says. `RaftCluster` puts any number of peers, a grow-only set of messages, the
appliers and the services together, one critical section per step. `RaftRefinement` and `RaftSimulation` show that
every cluster step is a sequence of protocol actions, and `RaftSafety` and `RaftCompaction` draw the conclusions for
all runs of a cluster whose services snapshot what they were handed, at any index.

`RaftService` is the repository's own service, and `RaftSystem` the cluster with one such service per peer, which is
busy in `Raft.Snapshot` from the command that makes it ask until the call is done. `RaftShadow` shows that Raft never
looks into a snapshot: up to the contents of snapshots, every run of the system is a run of the cluster.
`RaftSystemSafety` states the safety theorems for the system: in every run where snapshot contents do not matter, and
in every run without a stale delivery where they do. `RaftDelivery` and `RaftStaleness` say which snapshots are
delivered stale, `RaftStaleRun` and `RaftBackupRun` are concrete runs, and `RaftSystemCompaction` is log compaction in the
system. Safety alone would be kept by peers that never vote, store or commit; `RaftAnswers` says outright what each
handler answers, and `RaftSystemAnswers` that it does so in every run.

`KvServer`, `KvClerk` and `KvModel` are the server, one clerk operation and the sequential specification. `KvLinear`
runs any number of clerk operations concurrently; `LockProtocol` runs any number of lock objects, `LockProgress` shows
that they get and free their locks, and `LockObject` is the imperative lock object.

`ShardBalance` is the rebalancer as a function with its balance and one-way properties, `ShardMinimal` the optimality
results, `ShardConfig` the in-place object. `Sums` and `Quorums` are mathematics.

## What does not hold of the code

Three properties one would expect are false; each comes with an input that shows it and the exact condition under
which it holds.

- *No two deliveries disagree, snapshots included.* InstallSnapshot compares only with `lastIncludedIndex`
  (`src/raft1/raft.go:386`), so it can queue a snapshot that ends before what the service already has. The service of
  `src/raft1/server.go` then forgets commands, reports the next one as out of order, and every snapshot it makes until
  it ingests another has holes (`RaftService.StaleLosesCommands`), which Raft saves, ships and delivers.
  `RaftStaleRun.SafetyFails` is a run of three peers and their services that ends so: a snapshot of nine commands
  arrives while command ten is blocked on the apply channel, and a snapshot of nineteen commands without the tenth is
  saved and delivered. `RaftStaleness.ServicesInSync` shows that all services stay in step over a run exactly if no
  delivery is stale; then the run is a run of the cluster and all theorems hold, snapshots included
  (`RaftSystemSafety.StateMachineSafety`, `DeliveredIsCommitted`, `SavedIsCommitted`). A delivery is stale only after a
  stale install (`FreshInstallsNeverStale`), which the applier alone turns into one (`StaleInstallDelivers`), and an
  accepted snapshot is stale exactly if it ends before `lastApplied`, or at `lastApplied` while the next command is in
  flight (`StaleInstallExactly`). Elections, logs, commitment and the order and contents of delivered commands do not
  depend on this: those theorems of `RaftSystemSafety` hold in every run.
- *Every handler does on the compacted log what it does on the whole log.* The whole log is the run's own: the log of
  that peer in the protocol states that the run goes through. Elections, votes, Start, replies to InstallSnapshot, stored
  entries with the commit search, and service snapshots agree in every field and reply (`RaftCompaction`). There are six
  differences, each with its exact condition: a conflict index stops at the follower's snapshot
  (`AppendEntriesCompacted`); a leader whose follower needs compacted entries sends its snapshot instead of them
  (`ReplicateCompacted`); fast backup does not find a conflicting term that the leader has only under its snapshot
  (`AppendReplyCompacted`); a snapshot at or under the boundary is ignored, where the uncompacted peer would install and
  queue it again (`InstallSnapshotCompacted`); a waiting snapshot is delivered in place of its commands
  (`TakeCompacted`); and a restart begins at the boundary with the snapshot waiting, instead of at 0 (`MakeCompacted`).
  `RaftBackupRun.BackupShowsCompaction` and `InstallShowsCompaction` are runs that show the third, fourth and sixth.
  `RaftSystemCompaction` carries all of it to every run of the system.
- *Every history of the key/value server is linearizable with respect to `KvModel`.* `KvModel` never accepts ErrNoKey
  from a Put, but the server answers it to a Put that names a version other than 0 of an absent key
  (`KvLinear.NoKeyHappens`). `KvLinear.LinearizableExactly` shows that a history has an accepted order exactly if no
  Put on the key was answered so, that is, exactly if every returned Put on it named version 0 or found the key there
  when it last ran.

A comment in Acquire (`src/kvsrv1/lock/lock.go:34`) says that a first Get may show the client's own id after an earlier
ErrMaybe that succeeded; `LockProtocol.AcquireReturnsToOwner` shows it happens only to a client that already holds the
lock.

## Model

| member | source | states |
|---|---|---|
| `RaftSystemSafety.StateMachineSafety` | src/raft1/raft.go:704-749 | in a run of the system without a stale delivery, no two deliveries to any peers in any incarnations, as commands or inside snapshots, disagree about the command at an index |
| `RaftSystemSafety.CommandsAgree` | src/raft1/raft.go:704-749 | in every run, no two commands delivered at one index differ, whatever the snapshots hold |
| `RaftSystemSafety.CommandIsCommitted` | src/raft1/raft.go:704-749 | in every run, a delivered command is the entry of every peer that knows its index committed and has not compacted it |
| `RaftSystemSafety.SavedIsCommitted` | src/raft1/raft.go:112-122 | without a stale delivery, logs and saved snapshots of any two peers have the same command at every index both know to be committed |
| `RaftSystemSafety.RequestIsCommittedPrefix` | src/raft1/server.go:151-165 | without a stale delivery so far, the service does not complain and what it asks Raft to save is exactly the committed prefix it was handed |
| `RaftSystemSafety.CommittedAgree` | src/raft1/raft.go:675-700 | in every run of the system, any two peers have, in log or under snapshot, every index both know to be committed, with the same entry where neither has compacted it |
| `RaftSystemSafety.LeadersHoldCommitted` | src/raft1/raft.go:488-532 | in every run of the system, every leader of a later term has each committed index, with the same entry where neither has compacted it |
| `RaftSystemSafety.CommittedNeverLost` | src/raft1/raft.go:320-333 | in every run of the system, a peer keeps what it knew to be committed |
| `RaftSystemSafety.ElectionSafety` | src/raft1/raft.go:488-532 | in every run of the system, at most one leader per term |
| `RaftSystemSafety.LogMatching` | src/raft1/raft.go:308-333 | in every run of the system, the same term at an index means the same earlier uncompacted entries |
| `RaftSystemSafety.IndexBounds` | src/raft1/raft.go:606-609 | in every run of the system, lastIncludedIndex <= commitIndex <= lastLogIndex, lastApplied <= commitIndex, and leader indices in range |
| `RaftSystemSafety.NeverPanics` | src/raft1/raft.go:727-733 | in every run of the system, no enabled step indexes or slices out of range |
| `RaftSystemSafety.ClampIsSafe` | src/raft1/raft.go:276-347 | in every run of the system, the commit clamp commits nothing beyond what a request carries |
| `RaftSystemSafety.FastBackupProgress` | src/raft1/raft.go:644-668 | in every run of the system, a rejection handled in its term sets nextIndex between 1 and the rejected PrevLogIndex |
| `RaftSystemSafety.CrashRecovery` | src/raft1/raft.go:766-794 | in every run of the system, the disk equals term, vote, log and boundary with a snapshot of that length, and Make rebuilds them |
| `RaftSystemSafety.ApplyFrontier` | src/raft1/raft.go:704-749 | in every run of the system, a delivered command is the one right after the highest index delivered so far in the incarnation |
| `RaftShadow.Shadow` | src/raft1/raft.go:163-749 | every run of the system is, up to the contents of snapshots, a run of the cluster |
| `RaftSystemSafety.InStepRun` | src/raft1/server.go:124-181 | a prefix of a run without stale deliveries is exactly a run of the cluster, with every service in step |
| `RaftSystemSafety.DeliveredIsCommitted` | src/raft1/raft.go:704-749 | without a stale delivery, no delivery disagrees with a committed entry of any peer; a snapshot at S is exactly the committed prefix up to S |
| `RaftSafety.CommittedAgree` | src/raft1/raft.go:675-700 | what any two peers at any two points of a run know to be committed at one index is the same entry |
| `RaftSafety.LeadersHoldCommitted` | src/raft1/raft.go:488-532 | Leader Completeness: an entry committed in a term is held, in log or snapshot, by every leader of a later term |
| `RaftSafety.CommittedNeverLost` | src/raft1/raft.go:320-333 | an entry a peer knew to be committed stays in its log or snapshot for the rest of the run, through merges, installs, compaction and crashes |
| `RaftSafety.ElectionSafety` | src/raft1/raft.go:488-532 | at most one peer is ever leader in a term, at any two points of a run, whatever crashes in between |
| `RaftSafety.LogMatchingInRuns` | src/raft1/raft.go:308-333 | two logs with the same term at an index hold the same entries at all earlier indices that neither has compacted |
| `RaftSafety.RunRefines` | src/raft1/raft.go:163-749 | every run of the cluster is a run of the protocol on uncompacted logs |
| `RaftSafety.IndexBounds` | src/raft1/raft.go:606-609 | lastIncludedIndex <= commitIndex <= lastLogIndex, lastApplied <= commitIndex, the sentinel carries the snapshot's term, and a leader's nextIndex and matchIndex are in range |
| `RaftSafety.NeverPanics` | src/raft1/raft.go:727-733 | no reachable state lets any enabled step index or slice out of range |
| `RaftSafety.ClampIsSafe` | src/raft1/raft.go:276-347 | every AppendEntries ever sent has LeaderCommit within what it carries, the clamp to the follower's last index commits nothing beyond it, and the all-in-snapshot branch never raises commitIndex |
| `RaftSafety.FastBackupProgress` | src/raft1/raft.go:644-668 | a rejection handled in its term sets nextIndex between 1 and the rejected PrevLogIndex |
| `RaftSafety.CrashRecovery` | src/raft1/raft.go:766-794 | whenever the mutex is free the disk equals term, vote, log and boundary with the snapshot of that boundary, and Make rebuilds them |
| `RaftSafety.ApplyFrontier` | src/raft1/raft.go:704-749 | in one incarnation each delivered command is the one right after the highest index delivered so far, by command or snapshot |
| `RaftSafety.ServiceSeesCommittedPrefix` | src/raft1/raft.go:704-749 | what a service has been handed is at every moment a prefix of what its own peer has committed |
| `RaftCompaction.WholeLogCompacts` | src/raft1/raft.go:163-184 | at every point of a run, for every history of protocol states behind it, a peer's log is its uncompacted log there without the committed entries under the snapshot, whose commands the snapshot holds |
| `RaftCompaction.WholeStays` | src/raft1/raft.go:163-749 | a step that leaves a peer's log and boundary alone leaves its uncompacted log alone |
| `RaftCompaction.AppendEntriesCompacted` | src/raft1/raft.go:253-350 | a step of AppendEntries leaves, in every field, the compaction of what it leaves on the run's uncompacted log, which becomes the run's next one: stored exactly if the log has the entry that the request builds on, and cut only if the entries are not there; the reply is the same, but a conflict index of a term is the larger of the whole log's and the boundary |
| `RaftCompaction.StartElectionCompacted` | src/raft1/raft.go:488-509 | an election on the run's uncompacted log: the same request, the same state |
| `RaftCompaction.VoteReplyCompacted` | src/raft1/raft.go:511-529 | a vote reply: the same state, with the indices that a win sets |
| `RaftCompaction.StartCompacted` | src/raft1/raft.go:450-465 | Start: same index, term and answer, the same state, and the entry appended to the run's uncompacted log |
| `RaftCompaction.ReplicateCompacted` | src/raft1/raft.go:564-617 | the same AppendEntries when nextIndex is above the boundary; otherwise exactly the snapshot at the boundary, where the run's uncompacted log gives exactly the entries from nextIndex on |
| `RaftCompaction.InstallReplyCompacted` | src/raft1/raft.go:588-602 | a reply to InstallSnapshot: the same state |
| `RaftCompaction.AppendReplyCompacted` | src/raft1/raft.go:625-700 | a reply to AppendEntries with the commit search: the same state; nextIndex differs exactly if the conflicting term occurs in the run's uncompacted log only under the snapshot and does not end right before the follower's conflict index |
| `RaftCompaction.TakeCompacted` | src/raft1/raft.go:704-738 | without a waiting snapshot the applier takes the same command; a waiting one holds exactly the commands of the run's uncompacted log up to its index, all committed |
| `RaftCompaction.MakeCompacted` | src/raft1/raft.go:766-794 | a restart recovers the same term, vote and uncompacted log; commitIndex, lastApplied and the queue are exactly the boundary and the saved snapshot, against 0 and nothing, so the two start alike exactly at boundary 0 |
| `RaftBackupRun.BackupShowsCompaction` | src/raft1/raft.go:651-665 | a run, with its history, in which the compacted leader's nextIndex goes back to 1 where its uncompacted log gives 10 |
| `RaftBackupRun.InstallShowsCompaction` | src/raft1/raft.go:386-418 | a run, with its history, in which a snapshot arrives again and is ignored where the uncompacted peer would queue it, and a restart begins at 9 against 0 |
| `RaftCompaction.InstallSnapshotCompacted` | src/raft1/raft.go:370-419 | the same reply; above the boundary equal results in every field; at or under it exactly the follower against exactly the re-installed peer; the same snapshot waits on both sides exactly if it is above the boundary or was waiting already |
| `RaftCompaction.RequestVoteCompacted` | src/raft1/raft.go:200-227 | RequestVote: same reply, same state |
| `RaftCompaction.SnapshotCompacts` | src/raft1/raft.go:163-184 | Snapshot moves only the boundary: the peer without compaction, the waiting snapshot and the run's uncompacted log are unchanged |
| `RaftSystemCompaction.HandlersSame` | src/raft1/raft.go:200-700 | in every run of the system: elections, votes, vote replies, Start and both kinds of replies, as in RaftCompaction |
| `RaftSystemCompaction.SendsAndRestartsSame` | src/raft1/raft.go:564-617 | in every run of the system: what a leader sends and what a restart recovers, as in RaftCompaction |
| `RaftSystemCompaction.AppendEntriesSame` | src/raft1/raft.go:253-350 | in every run of the system: a step of AppendEntries, as in RaftCompaction |
| `RaftSystemCompaction.InstallSnapshotSame` | src/raft1/raft.go:370-419 | in every run of the system: InstallSnapshot, as in RaftCompaction |
| `RaftSystemCompaction.TakeIsSame` | src/raft1/raft.go:704-738 | in every run of the system: what the applier takes, as in RaftCompaction but for the contents of a waiting snapshot |
| `RaftSystemCompaction.SnapshotIsSame` | src/raft1/raft.go:163-184 | in every run of the system: a service's snapshot, whatever it holds, moves only the boundary |
| `RaftSystemCompaction.InStepHistory` | src/raft1/server.go:124-181 | a run without stale deliveries has a history of its own, so the theorems of RaftCompaction hold of it with the contents of snapshots |
| `RaftSystemAnswers.VotesExactly` | src/raft1/raft.go:200-227 | in every run of the system: a vote is granted exactly if the term is acceptable, the vote of that term is free or the candidate's own, and the candidate's log is at least as up to date as the voter's uncompacted log; the reply's term and the whole new state |
| `RaftSystemAnswers.ElectionsExactly` | src/raft1/raft.go:450-532 | in every run: an election asks every other peer with the last index and term of the uncompacted log; a counted vote makes a leader exactly if more than half voted, with nextIndex and matchIndex for every peer; Start of a leader returns the index right after its log and puts the entry there, any other returns -1 and changes nothing |
| `RaftSystemAnswers.LeadersExactly` | src/raft1/raft.go:564-700 | in every run: a leader sends exactly the entries from nextIndex on, or its snapshot; a success raises the follower's indices and takes the commit index to the largest current-term index that a majority stored; a rejection takes nextIndex right after the last uncompacted entry of the conflicting term, or to the conflict index |
| `RaftSystemAnswers.FollowersExactly` | src/raft1/raft.go:163-419 | in every run: the term, commit index and conflict of every AppendEntries reply, a success committing up to the smaller of the leader's index and the log's end; what InstallSnapshot takes over, keeps and queues; which service snapshots are ignored |
| `RaftSystemAnswers.AppliersExactly` | src/raft1/raft.go:704-738 | in every run: at rest the applier takes a waiting snapshot, else the next committed command of the uncompacted log, else nothing |
| `RaftAnswers.CommitExactly` | src/raft1/raft.go:675-700 | the commit index goes to the largest index of the current term that more than half of the peers, counted as a set, have stored |
| `RaftAnswers.VoteExactly` | src/raft1/raft.go:200-227 | the same condition for a vote, for any peer and any log that it compacts |
| `RaftAnswers.StartExactly` | src/raft1/raft.go:450-465 | the same for Start |
| `RaftInvariant.LogMatching` | src/raft1/raft.go:308-333 | protocol-level Log Matching from the history of reigns |
| `RaftInvariant.OneLeader` | src/raft1/raft.go:524-528 | a quorum of votes in a term excludes another reign of that term |
| `RaftInvariant.LeaderCompleteness` | src/raft1/raft.go:216-226 | a prefix committed in a reign is in the base log of every later reign, by quorum intersection and the up-to-date check |
| `RaftInvariant.CommittedComparable` | src/raft1/raft.go:682-697 | any two committed prefixes are prefixes of one another |
| `RaftPreservation.ActionKeeps` | src/raft1/raft.go:163-749 | every protocol action keeps the invariant and only extends history |
| `RaftSimulation.Simulates` | src/raft1/raft.go:163-749 | every cluster step from a related state is a sequence of protocol actions into a related state |
| `RaftRefinement.MergeRefines` | src/raft1/raft.go:320-333 | the conflict-only merge on the compacted log is the merge of whole logs |
| `RaftRefinement.AppendRefines` | src/raft1/raft.go:253-350 | AppendEntries at a peer is a term step followed by an accept, or by nothing with a truthful rejection |
| `RaftRefinement.InstallRefines` | src/raft1/raft.go:370-419 | InstallSnapshot is the same accept step with a committed prefix as the leader's log |
| `RaftRefinement.VoteRefines` | src/raft1/raft.go:200-227 | RequestVote is a term step followed by a grant under the election restriction, or by nothing |
| `RaftRefinement.VoteReplyRefines` | src/raft1/raft.go:511-529 | a counted vote comes from a distinct supporter, and a majority of them elects |
| `RaftRefinement.StartRefines` | src/raft1/raft.go:450-465 | Start is a proposal in the leader's own reign |
| `RaftRefinement.ReplicateRefines` | src/raft1/raft.go:564-617 | every request sent carries a log, or a committed prefix, that its leader has |
| `RaftRefinement.CommitRefines` | src/raft1/raft.go:675-700 | the search of advanceCommit commits only an index of the current term that a quorum acknowledged |
| `RaftRefinement.BackupProgress` | src/raft1/raft.go:644-668 | the search from the end of the leader's log never finds the conflict term at or past PrevLogIndex |
| `RaftRefinement.SnapshotStutters` | src/raft1/raft.go:163-184 | Snapshot changes nothing that the protocol sees |
| `RaftRefinement.CrashRefines` | src/raft1/raft.go:125-150 | a restart from disk loses only the commit index above the snapshot, role and leader state |
| `RaftNode.Persister.Save` | src/tester1/persister.go:53-58 | state and snapshot are replaced together |
| `RaftNode.Persister.Checkpoint` | src/tester1/persister.go:30-37 | a fresh persister with equal contents |
| `RaftNode.Raft.constructor` | src/raft1/raft.go:766-794 | the new object is exactly what Make builds from the disk |
| `RaftNode.Raft.ReadPersist` | src/raft1/raft.go:125-150 | restores the saved fields and sets commitIndex and lastApplied to the boundary; an empty disk changes nothing |
| `RaftNode.Raft.Snapshot` | src/raft1/raft.go:163-184 | the whole new state is the step function's, including the ignored indices |
| `RaftNode.Raft.BecomeFollower` | src/raft1/raft.go:427-434 | role, and on a newer term also term, vote and disk |
| `RaftNode.Raft.RequestVote` | src/raft1/raft.go:200-227 | new state and reply are the step function's |
| `RaftNode.Raft.StartElection` | src/raft1/raft.go:488-509 | new state and the request sent are the step function's |
| `RaftNode.Raft.BecomeLeader` | src/raft1/raft.go:436-446 | the array loops set nextIndex and matchIndex for every peer |
| `RaftNode.Raft.OnVoteReply` | src/raft1/raft.go:515-529 | new state is the step function's: stale replies ignored, newer terms followed, votes counted |
| `RaftNode.Raft.ConflictStart` | src/raft1/raft.go:309-316 | the loop finds the start of the run of the conflicting term within the uncompacted log |
| `RaftNode.Raft.MergeLog` | src/raft1/raft.go:320-333 | the loop over entries is the conflict-only merge |
| `RaftNode.Raft.AppendEntries` | src/raft1/raft.go:253-350 | new state and reply are the step function's, on every branch |
| `RaftNode.Raft.InstallSnapshot` | src/raft1/raft.go:370-419 | new state and reply are the step function's, on every branch |
| `RaftNode.Raft.Start` | src/raft1/raft.go:450-465 | new state, index, term and leadership answer |
| `RaftNode.Raft.ReplicateTo` | src/raft1/raft.go:564-617 | which request is sent, with the whole tail of the log or the saved snapshot |
| `RaftNode.Raft.OnInstallReply` | src/raft1/raft.go:588-602 | nextIndex and matchIndex only rise; newer terms are followed |
| `RaftNode.Raft.AdvanceCommit` | src/raft1/raft.go:675-700 | the downward search over the log with its inner count |
| `RaftNode.Raft.FindTerm` | src/raft1/raft.go:653-659 | the last uncompacted index of a term, or none |
| `RaftNode.Raft.OnAppendReply` | src/raft1/raft.go:625-668 | success, fast backup and stale replies |
| `RaftNode.Raft.ApplierTake` | src/raft1/raft.go:708-738 | what the applier takes before it unlocks |
| `RaftNode.Raft.ApplierDone` | src/raft1/raft.go:740-744 | lastApplied only rises after a send |
| `RaftService.StaysInSync` | src/raft1/server.go:124-181 | a service in step stays in step exactly if the message is not a stale snapshot; it does not complain, asks for a snapshot exactly at commands whose index ends in 9, and its snapshots hold exactly what it was handed |
| `RaftService.ServiceAnswers` | src/raft1/server.go:135-208 | whatever it knew: a command is stored and complained about exactly if it is not the next; a snapshot is taken over exactly if it decodes to the right index, and refused without effect otherwise |
| `RaftService.StaleLosesCommands` | src/raft1/server.go:135-165 | after a stale snapshot the next command is reported out of order, and every snapshot made until another is ingested has a nil at each lost index |
| `RaftService.StreamInSync` | src/raft1/server.go:124-181 | over a whole stream the service is in step after every message exactly if no snapshot was stale |
| `RaftService.Rfsrv.Ingest` | src/raft1/server.go:185-208 | the error cases leave the service alone; otherwise the log map is rebuilt slot by slot |
| `RaftService.Rfsrv.ApplyOne` | src/raft1/server.go:129-180 | new state, reported complaint (the tester's answer included) and snapshot request for one message |
| `RaftService.Rfsrv.ApplierSnap` | src/raft1/server.go:124-181 | state, complaints and requests along the message stream |
| `RaftService.Rfsrv.constructor` | src/raft1/server.go:55-75 | a restarted service starts from the persister's snapshot |
| `RaftDelivery.BehindStep` | src/raft1/raft.go:386-418 | a host falls behind by a step exactly if the step accepts a snapshot that ends before what was delivered or is being sent as a command |
| `RaftDelivery.FreshInstallsFreshDeliveries` | src/raft1/raft.go:704-722 | a run without such installs delivers no stale snapshot |
| `RaftStaleness.StaleInstallDelivers` | src/raft1/raft.go:704-722 | after such an install, applier and service alone go on to a stale delivery |
| `RaftDelivery.LastAppliedDecides` | src/raft1/raft.go:386-410 | in a cluster, an accepted snapshot is stale exactly if it ends before lastApplied, or at lastApplied while the next command is being sent or not yet counted |
| `RaftStaleness.StaleInstallExactly` | src/raft1/raft.go:386-410 | the same condition in every run of the system |
| `RaftStaleness.FreshInstallsNeverStale` | src/raft1/raft.go:386-418 | a run of the system that accepts no such snapshot has no stale delivery |
| `RaftStaleness.ServicesInSync` | src/raft1/server.go:124-181 | over a whole run of the system, with restarts, all services are in step exactly if no delivery is stale |
| `RaftStaleRun.SafetyFails` | src/raft1/raft.go:370-419 | a run of three peers with the repository's services that delivers command ten and later, at the same peer, a snapshot of nineteen commands with nil in its place |
| `KvServer.KVServer.Get` | src/kvsrv1/server.go:41-53 | value and version, or ErrNoKey with zero values |
| `KvServer.KVServer.Put` | src/kvsrv1/server.go:59-79 | the new store and the reply on all four branches |
| `KvServer.PutIsCompareAndSet` | src/kvsrv1/server.go:59-79 | a Put takes effect exactly if it names the current version, raises it by one, touches no other key, and gets ErrNoKey exactly on an absent key with a version other than 0, ErrVersion exactly on another version of a present key |
| `KvClerk.CallSteps` | src/labrpc/labrpc.go:295-365 | losing a request or a reply and executing a request keep the invariant of a retrying call |
| `KvClerk.PutAtMostOnce` | src/kvsrv1/client.go:62-77 | over all resends OK means exactly one effect, ErrVersion and ErrNoKey none, ErrMaybe at most one |
| `KvClerk.PutLoop` | src/kvsrv1/client.go:62-77 | the retry loop against any sequence of stores and losses: the same effects; the reply is exactly what the last store says, with a mismatch ErrVersion on the first try and ErrMaybe on a later one |
| `KvClerk.GetLoop` | src/kvsrv1/client.go:33-43 | the retry loop returns the entry of the first store that answered, or ErrNoKey with zero values |
| `KvModel.NoKeyNeverAccepted` | src/models1/kv.go:57-63 | no order with a Put answered ErrNoKey is accepted |
| `KvLinear.Linearizable` | src/models1/kv.go:26-67 | every reachable history without such a Put has an order of its operations on a key that respects real time and that the specification accepts, each operation (an ErrMaybe too) at its one effect or at its last failed attempt, ending in the store's state |
| `KvLinear.LinearizableExactly` | src/models1/kv.go:57-63 | a reachable history has such an order exactly if no Put on the key was answered ErrNoKey, that is, if each returned Put named version 0 or found the key when it last ran |
| `KvLinear.NoKeyExactly` | src/kvsrv1/server.go:63-68 | a Put is answered ErrNoKey exactly if it names a version other than 0 and the key was absent when it last ran |
| `KvLinear.AnswersExactly` | src/kvsrv1/client.go:33-77 | in every run every Get and Put answer is exactly what the store at its last execution says, with ErrMaybe in place of ErrVersion exactly after a lost call |
| `KvLinear.NoKeyHappens` | src/kvsrv1/server.go:65-68 | any first Put with a version other than 0 gives a history without an accepted order |
| `KvLinear.VersionCountsPuts` | src/kvtest1/kvtest.go:137-151 | a key's version lies between the OKs and the OKs plus ErrMaybes plus unanswered Puts, and is the OKs when there are none of the others |
| `KvLinear.ReliableVersionIsOks` | src/kvtest1/kvtest.go:144-147 | without resends the version is exactly the number of OKs |
| `LockProtocol.MutualExclusion` | src/kvsrv1/lock/lock.go:28-86 | no two clients are ever between the return of Acquire and the start of Release on one key, nor between the effects of their Puts |
| `LockProtocol.Ownership` | src/kvsrv1/lock/lock.go:28-62 | while a client holds the lock the entry is exactly (id, version); the entry names a client exactly if it owns the lock, and is "available" exactly at odd versions and exactly when nobody owns it |
| `LockProtocol.ReleaseTakesEffect` | src/kvsrv1/lock/lock.go:64-86 | Release's Put returns OK or ErrMaybe, both with exactly one effect, and the check after ErrMaybe always ends Release |
| `LockProtocol.AcquireReturnsToOwner` | src/kvsrv1/lock/lock.go:28-62 | Acquire returns only to the owner, with the version of the entry; after ErrMaybe the Get shows the client's id exactly if its Put took effect |
| `LockProtocol.StepKeeps` | src/kvsrv1/lock/lock.go:18-86 | every step of any client, and every request on other keys, keeps the lock invariant |
| `LockProgress.AcquireSucceeds` | src/kvsrv1/lock/lock.go:28-62 | in every run, from wherever it is in an Acquire or idle, a client alone over calls that are not lost takes a free lock: it holds it, and the entry is its id at the next version |
| `LockProgress.AcquireConfirms` | src/kvsrv1/lock/lock.go:50-59 | in every run, a client whose acquiring Put took effect, whatever was lost, alone finds out that it holds the lock, with the server's version |
| `LockProgress.ReleaseSucceeds` | src/kvsrv1/lock/lock.go:64-86 | in every run, a client that holds or is releasing a lock alone frees it: "available" at the next version, unless its Put has done so |
| `LockProgress.MakeSucceeds` | src/kvsrv1/lock/lock.go:18-24 | in every run, a new lock object alone makes its lock exist, free at version 1 if nobody did |
| `LockProgress.FreeMakesPut` | src/kvsrv1/lock/lock.go:41-45 | a Get that shows "available" at a version is followed by a Put of the client's id at that version |
| `LockObject.Lock.constructor` | src/kvsrv1/lock/lock.go:18-24 | a new lock object is not held |
| `LockObject.Lock.Acquire` | src/kvsrv1/lock/lock.go:28-62 | for any sequence of clerk answers the loop returns when the protocol does, with its held flag and version; it returns at once on the own id, on a stored Put after "available" (with the next version), and on the own id after ErrMaybe |
| `LockObject.Lock.Release` | src/kvsrv1/lock/lock.go:64-86 | likewise, and at once when the lock is not held; it returns on a stored Put, and on another value after ErrMaybe |
| `ShardBalance.MoveLowersEnergy` | src/shardkv1/shardcfg/shardcfg.go:140-153 | each move lowers the sum of squared loads by at least two, so the loop ends |
| `ShardBalance.RebalanceFair` | src/shardkv1/shardcfg/shardcfg.go:122-154 | the result is balanced on member groups, and the groups that gave and those that got shards are disjoint |
| `ShardBalance.GroupsGiveOrReceive` | src/shardkv1/shardcfg/shardcfg.go:140-153 | along the sequence of moves no group both gives and receives and no shard moves twice |
| `ShardBalance.MovesLevel` | src/shardkv1/shardcfg/shardcfg.go:140-153 | carrying out that sequence of moves is what the loop does |
| `ShardMinimal.FewestChanges` | src/shardkv1/shardcfg/shardcfg.go:122-154 | Rebalance changes no more owners than any balanced assignment does |
| `ShardMinimal.MovesDownhill` | src/shardkv1/shardcfg/shardcfg.go:140-153 | a shard leaves a surviving group only for one that had at least two shards fewer |
| `ShardMinimal.JoinMovesOntoNew` | src/shardkv1/shardcfg/shardcfg.go:207-213 | from a balanced configuration, joining moves shards only onto the new groups |
| `ShardMinimal.LeaveMovesOnlyDeparted` | src/shardkv1/shardcfg/shardcfg.go:215-221 | from a balanced configuration, leaving moves only the shards of departed groups |
| `ShardMinimal.BalancedIsFixed` | src/shardkv1/shardcfg/shardcfg.go:122-154 | a balanced configuration is left as it is |
| `ShardConfig.ShardConfig.constructor` | src/shardkv1/shardcfg/shardcfg.go:44-49 | no groups, all shards unassigned |
| `ShardConfig.ShardConfig.Counts` | src/shardkv1/shardcfg/shardcfg.go:81-84 | the loads of all groups |
| `ShardConfig.ShardConfig.SortedGroups` | src/shardkv1/shardcfg/shardcfg.go:92-98 | each member once, in strictly increasing order, whatever order the map yields |
| `ShardConfig.ShardConfig.Analyze` | src/shardkv1/shardcfg/shardcfg.go:80-111 | most and least loaded group, smallest id among equals, with their loads; the sentinels without groups |
| `ShardConfig.ShardConfig.LeastLoaded` | src/shardkv1/shardcfg/shardcfg.go:115-118 | the least loaded group, smallest id among equals; -1 without groups |
| `ShardConfig.ShardConfig.Rebalance` | src/shardkv1/shardcfg/shardcfg.go:122-154 | the table becomes the function `Rebalance` of the old one: in place, terminating, independent of map order |
| `ShardConfig.ShardConfig.AssignUnassigned` | src/shardkv1/shardcfg/shardcfg.go:131-138 | each unassigned shard goes to the then least loaded group |
| `ShardConfig.ShardConfig.Join` | src/shardkv1/shardcfg/shardcfg.go:156-183 | succeeds exactly if there is something to add, all ids are new and no server is shared; then adds them all and raises the number; fails with false only on a known id and ends the process only on nothing to add or a shared server |
| `ShardConfig.ShardConfig.Leave` | src/shardkv1/shardcfg/shardcfg.go:185-205 | succeeds exactly on a non-empty list of distinct members; then removes them all and raises the number; ends the process exactly on an empty list |
| `ShardConfig.ShardConfig.JoinBalance` | src/shardkv1/shardcfg/shardcfg.go:207-213 | success raises the number and leaves a balanced table, moving only onto the joined groups if it was balanced; failure leaves number and table alone |
| `ShardConfig.ShardConfig.LeaveBalance` | src/shardkv1/shardcfg/shardcfg.go:215-221 | success raises the number and leaves a balanced table, moving only shards of departed groups if it was balanced, and all shards unassigned when no group is left; failure leaves number and table alone |

## Left out

- Time and randomness: tickers, heartbeat periods, election timeouts and sleeps are steps that may happen at any moment;
  nothing is claimed about liveness beyond what handlers answer, progress of fast backup, a client alone with its lock,
  and termination of Rebalance.
- Mutexes, condition variables and goroutines: each critical section is one atomic step.
- gob and JSON encoding: saving and loading copy a value; snapshot data is the sequence of commands it encodes. A
  snapshot that covers at least one command is taken to be non-empty bytes.
- RaftSafety: its theorems are about a cluster whose services snapshot what they were handed, at any index; what holds
  with the service of `src/raft1/server.go` is in `RaftSystemSafety`.
- Raft snapshots are kept as the commands of slots 1 and up; that slot 0 is nil and the length is the index is an
  invariant of `RaftShadow`.
- RaftService.Rfsrv.ApplierSnap: collects the snapshot requests; that each is carried out before the next message is
  received is in `RaftSystem`.
- RaftNode.Raft.ApplierTake: omits the branch at `src/raft1/raft.go:729-732`, which its guard makes unreachable.
- RaftNode.Raft.StartElection: the per-peer goroutines are the cluster's messages and `OnVoteReply`.
- RPC plumbing in labrpc beyond the outcomes of one call: request lost, executed and reply lost, executed and answered.
  An execution that outlives its call because the key/value server is killed or its end disabled is not modelled.
- KvClerk.PutLoop: the loop runs against a given sequence of rounds and may find it exhausted, and so does GetLoop.
- LockObject.Lock.Acquire: runs against a given sequence of clerk answers, and so does Release; how answers arise from
  the server is `LockProtocol`.
- Lock ids are taken to be distinct and different from "available", and a lock's key to be written by lock objects only.
- Overflow of 64-bit versions, terms and indices.
- The client loops of `src/kvtest1/kvtest.go`: the conservation law is proved for every set of client operations.
- `KvModel`'s Partition and its printing: histories are taken key by key.
- The tester behind CheckLogs, IngestLog and ApplyErr: the answer to CheckLogs is an input. The non-snapshotting
  applier of the Raft service.
- Key2Shard, String, FromString, Copy and CheckConfig of the shard configuration.
- Join of a shared server ends the process in the source; the model returns `Fatal` and says nothing more. Which of the
  two failures a Join with several faults shows depends on map order.
- kvraft, rsm, shardgrp, shardctrler and MapReduce, which are stubs or drivers here.
