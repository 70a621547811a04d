# A verified model of the Raft key/value store

The project models the parts of the store on which its guarantees rest, and proves these guarantees for
every input, every run and every choice of what may fail. Where the code does not keep one of them, it
says for which inputs or runs.

- **Raft.** `RaftNode` says what a server does in each section that it runs under its lock, as functions
  on the server's state; `AppendEntries` gives its lock up in the middle and is two functions. `RaftServer`
  is the object itself, with the loops of the code, proved to go from state to state as these functions
  say. `Cluster` puts any number of servers and a network together: a message once sent may be delivered
  at any time, again, out of order, or never, and a request stopped in the gap may be resumed late, with
  its log write done or failed; a leader's own log writes succeed or fail at any moment too. `Protocol`,
  `ProtocolSteps` and `ProtocolFailures` hold the safety argument on whole logs without messages,
  `UnsentEntries`, `LogMerge` and the `Replication` modules connect the two, `ElectionSafety` and
  `RaftSafety` state the results, and `ClusterRuns` and `FailedWrites` give runs that fall outside them.
  `RaftHandlers` says what each handler does to each field, `RaftIndices`, `RaftDepartures` and `TwoPhase`
  are about single servers and arbitrary messages, `Probing` about how a leader finds where a follower's
  log meets its own, `ApplyFeed` about what is handed to the state machine.
- **Write-ahead log.** `WalCodec` is the record format and its reader on bytes, `WalReplay` the replay,
  `WalSegments` recovery and compaction on files, `WalOrder` the order of segment files, `WalWriter` and
  `WalThread` the group-commit thread, `WalDurable` and `WalAnswers` what that thread promises. `WalRecovery` compares
  what a restart recovers with the log in memory.
- **Skip list.** `SkipList` is the linked structure, `SkipOrder` the theory of its links, `SkipDump` saving
  and loading.
- **State machine and network edges.** `KvStore`, `KvSnapshots` and `KvServer` for deduplication and
  snapshots, `Framing` for the varint-framed byte stream, `PendingCalls` for the table of calls that wait
  for a response.

Functions and lemmas carry the specifications; each mutable object of the code is a class whose methods
are proved against them.

## Where the code departs from its purpose

The handlers are modelled as they are written (`AsWritten`). Some properties do not hold of them. The
lemmas named below say for which runs or inputs they fail, and exactly when they hold. Raft is also modelled
with three repairs (`Intended`):

- A conflicting entry replaces one slot and leaves the stale tail behind it (src/raft/raft.cc:1298-1301),
  although the comment on the design says append or truncate (src/raft/raft.cc:1790) and the replay of the
  write-ahead log truncates (src/persist/Persister.cc:623-630). `ClusterRuns.OverwriteLosesCommitted` is a
  run in which two servers commit different entries at one index. `RaftDepartures.OverwriteExact` and, in the
  cluster and behind any gap, `ReplicationWritten.ResumeKeepsExact` say when an overwrite is harmless. The repair
  follows the replay's rule at the moment of writing, and keeps an entry that has arrived in the meantime.
- An installed snapshot keeps the tail behind it without comparing terms (src/raft/raft.cc:1501-1512); the
  extended Raft paper (section 7) keeps it only if the log agrees with the snapshot's last entry, and so
  does the repair. `RaftDepartures.InstallKeepsStaleTail`, `RaftDepartures.InstallExact`,
  `ReplicationWritten.InstallKeepsExact`.
- A heartbeat copies the previous index into the request before it clamps it to the stable index
  (src/raft/raft.cc:626-642), so the assertion at line 671 fails whenever the clamp is needed. The repair
  clamps first. `RaftDepartures.HeartbeatFails`, `RaftDepartures.HeartbeatExact`.

The first two repairs can shorten a log, and then lower the stable index to its end; the code never lowers it.

One departure is not repaired. When a leader's log write fails, the entry and those behind it are taken back
(src/raft/raft.cc:1824-1842), whatever the stable index says and whoever has them. If a write fails after
that of a later index has succeeded, entries are sent before they are on disk, may be taken back after
others hold them, and different entries are committed at one index, with the repaired handlers as well:
`FailedWrites.FailedWriteLosesCommitted`. It is not enough that no other server holds the entry when the
write fails, since a request may still bring it (`FailedWrites.UnheldWriteLosesCommitted`). Taking an entry
back keeps the cluster's invariant exactly when no other log, no request in flight and no acknowledgement has
it (`ReplicationFailures.FailedExact`), and just then may the leader put another command of its term in its
place (`FailedWrites.RefillExact`); above the stable index nothing ever has it. The stable index stays within
the log exactly when writes succeed and fail in order (`RaftIndices.StableExact`). In the unlocked gap of
AppendEntries such a failure can make a server acknowledge what it no longer has
(`TwoPhase.AcknowledgesNothing`, `TwoPhase.FailureInGap`).

The safety theorems are about careful runs (`RaftSafety.Careful`), of either form. A step is harmless unless
it is a failed write that takes back an entry something else has or, as written, an overwrite or an
installed snapshot outside the conditions above. These conditions are exact: a step keeps the invariant if
and only if it is harmless (`RaftSafety.StepExact`), so a run is careful if and only if the invariant holds
at each of its points (`RaftSafety.CarefulExact`).

Elsewhere:

- A failed log write drops the rest of its bulk unanswered (`WalDurable.SecondBatchForgotten`,
  `WalDurable.EachAnsweredOnce`), and cuts the file at an offset that is 0 after a restart until the first
  write (`WalDurable.FailAfterReopen`, `WalDurable.FailedWriteExact`).
- A write that fails during compaction loses the rest of the log without a report
  (`WalSegments.FailedCompaction`).
- Entries appended below the open segment's first index put segments out of order (`WalOrder.OutOfOrder`,
  `WalOrder.RollExact`).
- Recovery at a snapshot past the end of the replay can bring truncated entries back
  (`WalReplay.Resurrection`, `WalReplay.LaterSnapshotExact`).
- Loading a dump inserts keys as values and never replaces (`SkipDump.LoadLosesValue`, `SkipDump.LoadExact`,
  `KvSnapshots.OvertakingExact`); the results on snapshots cover this load and one that replaces the store
  (`SkipDump.Restore`).
- A served read overwrites its client's last request with a lower one (`KvStore.LateReadRunsTwice`,
  `KvStore.ReadExact`).
- A snapshot older than what has been applied is installed all the same (`KvSnapshots.OldSnapshotUndoes`,
  `KvSnapshots.OrderExact`).
- A frame that does not parse is thrown away with the frames behind it left in the buffer
  (`Framing.BadFrameDependsOnChunks`, `Framing.ChunksExact`).
- Append stores its value as Put does (`KvServer.Server.ExecuteWrite`).

## Model

| member | source | states |
|---|---|---|
| `RaftSafety.CommittedAgree` | src/raft/raft.cc:1019-1374 | State machine safety: in every careful run of a cluster of any size, with the handlers as written or repaired, an entry committed on one server at some point and an entry committed at the same index on any server at the end are the same |
| `RaftSafety.AppliedAgree` | src/raft/raft.cc:1621-1691 | In every careful run of either form, no two servers ever hand different commands to their state machines for one index, at whatever points they do it |
| `RaftSafety.LogsMatch` | src/raft/raft.cc:1019-1374 | Log matching after every careful run of either form: logs that agree on the term at a position are equal up to it, counting what snapshots cover |
| `RaftSafety.LeadersComplete` | src/raft/raft.cc:475-487 | Leader completeness in every careful run of either form: whoever leads a term at least as high holds every entry committed before, at its index |
| `RaftSafety.NeverExits` | src/raft/raft.cc:1152-1168 | The exit for two commands under one index and term is never taken in a careful run of either form |
| `RaftSafety.AnswersFit` | src/raft/raft.cc:796-806 | The leader's assertion after counting an answer holds in every careful run of either form, failed writes of the leader included: no match index passes its log, no next index is more than one above it |
| `RaftSafety.StepInv` | src/raft/raft.cc:1019-1374 | Each harmless step of either form, of fifteen kinds, keeps the invariant from which the theorems follow; it speaks about logs, unsent entries, requests in flight, requests stopped in the gap, snapshots in flight and match indices |
| `RaftSafety.StepExact` | src/raft/raft.cc:1824-1842 | A step of either form keeps that invariant if and only if it is harmless: not a failed write that takes back an entry which another log, a request or an acknowledgement has and, as written, neither an overwrite that brings something new and ends before the log does nor an installed snapshot behind which a tail stays that disagrees with it |
| `RaftSafety.CarefulExact` | src/raft/raft.cc:1019-1374 | So a run is careful, each of its steps being harmless where it is taken, if and only if the invariant holds at every point of it |
| `RaftSafety.RunRemembers` | src/raft/raft.cc:1817-1842 | Whatever is given up in the rest of a careful run, what was committed before stays committed |
| `RaftSafety.RunShaped` | src/raft/raft.cc:1246-1317 | In every run as written, and every careful run repaired, every server keeps the index invariant its handlers rely on, so no step of the model is blocked |
| `ElectionSafety.AtMostOneLeaderEver` | src/raft/raft.cc:345-392 | Election safety, as written and repaired: for any cluster size and any loss, repetition or reordering of messages, two servers that ever lead one term are the same |
| `ElectionSafety.StepElection` | src/raft/raft.cc:441-525 | Each step keeps: terms of votes on record, one vote per server and term, a quorum of voters behind each leader, and a vote counter of one plus the distinct peers that granted |
| `ElectionSafety.TermsRise` | src/raft/raft.cc:244-525 | Over any run no server's term falls, and within a term no server changes a vote it has given |
| `ElectionSafety.CounterQuorum` | src/raft/raft.cc:378-380 | A counter of at least size / 2 + 1 together with the candidate is a quorum of different servers |
| `ClusterRuns.OverwriteLosesCommitted` | src/raft/raft.cc:1298-1301 | As written the cluster is unsafe: a run of five servers in which one commits an entry, a server without it is later elected because a kept stale entry understates a voter's last term, and in the end commits another entry at the same index |
| `ClusterRuns.Elect` | src/raft/raft.cc:244-420 | A server at least as up to date as two others is elected in five steps with their votes, and only these three change |
| `FailedWrites.RefillExact` | src/raft/raft.cc:1824-1842 | A leader's entry is taken back and another command put in its place: its log still matches all other logs, and those that requests in flight and acknowledgements are about, exactly if none of them has the entry or it was of an earlier term; above the stable index none does |
| `FailedWrites.FailedWriteLosesCommitted` | src/raft/raft.cc:1817-1842 | As written and repaired: a run of three servers in which a write fails after that of the next index has succeeded, and two servers in the end commit different entries at index 1 |
| `FailedWrites.UnheldWriteLosesCommitted` | src/raft/raft.cc:1817-1842 | It is not enough that no other server holds the entry when its write fails: as written and repaired, a run in which it is only in a request then, and two servers in the end commit different entries at index 1 |
| `Protocol.LeaderCompleteness` | src/raft/raft.cc:857-880 | On the abstract protocol: the log a leader was elected with extends every log prefix committed in an earlier term |
| `Protocol.SettledCompare` | src/raft/raft.cc:857-880 | Two committed prefixes, known to nodes of any terms, are comparable |
| `Protocol.LogMatching` | src/raft/raft.cc:1124-1325 | Two logs built from entries that their terms' leaders appended agree up to any position at which they have the same term |
| `ProtocolSteps.GrantLogs` | src/raft/raft.cc:475-520 | Granting a vote to an up-to-date candidate keeps the log invariant: what the voter had acknowledged is in the candidate's log |
| `ProtocolSteps.ElectLogs` | src/raft/raft.cc:378-405 | Becoming leader with a quorum of votes keeps the log invariant |
| `ProtocolSteps.AdoptLogs` | src/raft/raft.cc:1246-1317 | Merging a leader's log into a follower's keeps the log invariant, nothing acknowledged or committed is lost |
| `ProtocolSteps.LeadCommitLogs` | src/raft/raft.cc:857-880 | A leader's commit of an entry of its own term that a quorum acknowledged keeps the log invariant |
| `ProtocolSteps.InstallLogs` | src/raft/raft.cc:1458-1540 | Replacing a log by a committed snapshot prefix and an agreeing tail keeps the log invariant |
| `ProtocolFailures.GiveUpLogs` | src/raft/raft.cc:1824-1842 | On the abstract protocol: a server may give up the end of its log, together with the record of it, if no other log and no acknowledgement reaches the first entry given up |
| `ReplicationFollower.ResumeMerges` | src/raft/raft.cc:1189-1317 | A resumed request that succeeds merges the follower's log with the leader's: the result has the leader's log up to the last entry sent and loses nothing the two shared |
| `ReplicationFollower.GapOpens` | src/raft/raft.cc:1124-1178 | What a follower decides to write before it releases the lock is exactly the part of the request behind what it shares with the leader |
| `ReplicationCommit.AppendAnswerStep` | src/raft/raft.cc:728-853 | Handling an answer, late or repeated ones included, keeps the cluster invariant, and with it that every commit has a quorum of acknowledgements |
| `ReplicationSnapshots.InstallStep` | src/raft/raft.cc:1458-1540 | Installing any snapshot in flight keeps the cluster invariant when a tail that disagrees is dropped |
| `ReplicationFailures.FailedStep` | src/raft/raft.cc:1824-1842 | A failed write keeps the cluster invariant and everything committed if no other log, request or acknowledgement has the first entry it takes back, on whatever server and in whatever role, at whatever stable index; what is in flight stays valid |
| `ReplicationFailures.FailedExact` | src/raft/raft.cc:1824-1842 | and only then: a failed write keeps the cluster invariant exactly if it takes nothing back, or its first entry is in no other log and in nothing that a request or an acknowledgement reaches |
| `UnsentEntries.SettledIsFree` | src/raft/raft.cc:857-880 | What has been committed contains no entry that any server holds above its stable index |
| `ReplicationWritten.ResumeExact` | src/raft/raft.cc:1189-1317 | Behind any gap in the cluster, the written second half of AppendEntries keeps log matching with the log it finds exactly when that log has all it brings already or ends at or before it, and exactly then it makes of the log what truncation makes of it |
| `ReplicationWritten.ResumeKeepsExact` | src/raft/raft.cc:1189-1317 | Exactly under this condition, or when the request is refused, the written second half keeps the whole cluster invariant |
| `ReplicationWritten.InstallWritten` | src/raft/raft.cc:1495-1523 | A snapshot installed as written keeps the cluster invariant when there is no tail or it agrees with the snapshot's last term |
| `ReplicationWritten.InstallKeepsExact` | src/raft/raft.cc:1495-1523 | and only then: with a tail that disagrees the installed snapshot breaks the cluster invariant |
| `LogMerge.ApplyMerges` | src/raft/raft.cc:1280-1301 | Applying the decided writes with truncation extends the shared prefix with the leader's entries one by one |
| `LogMerge.WritesAreSuffix` | src/raft/raft.cc:1137-1174 | The decided writes are a suffix of the request: once two matching logs differ they differ from there on |
| `RaftDepartures.HeartbeatExact` | src/raft/raft.cc:599-672 | A heartbeat is sent exactly when the stable index is within the log and the peer's next index is above the snapshot and at most one above the stable index as written, the last index when repaired; it reads m_logs out of range exactly when the next index is more than one above the last, and fails on an assertion in the remaining cases |
| `RaftDepartures.HeartbeatFails` | src/raft/raft.cc:626-671 | A new leader whose last entry is not on disk: as written its first heartbeat fails on the assertion, and reads out of range if the write of that entry has failed before |
| `RaftDepartures.HeartbeatCovers` | src/raft/raft.cc:644-672 | Every heartbeat sent carries the leader's term and commit index and the entries behind its previous index in order, up to exactly the stable index, with the right previous term |
| `RaftDepartures.HeartbeatClamps` | src/raft/raft.cc:638-642 | All that a heartbeat changes is the peer's next index, and that exactly if it lies behind the stable index and within the log |
| `RaftDepartures.OverwriteExact` | src/raft/raft.cc:1280-1301 | Whatever the log has become since the writes were decided, as long as they still fit: the one-slot overwrite keeps log matching with the log it finds exactly when that log holds everything the request brings already or ends at or before it, and equals truncation exactly then; truncation always keeps it |
| `RaftDepartures.InstallExact` | src/raft/raft.cc:1495-1512 | Keeping the tail behind an installed snapshot keeps log matching exactly when there is none or the log agrees with the snapshot's last term; dropping it otherwise always does |
| `RaftDepartures.InstallKeepsStaleTail` | src/raft/raft.cc:1495-1512 | A follower with two entries of term 1 and a snapshot of one entry of term 2: as written the second entry stays, behind another one than before |
| `RaftIndices.AdvanceCommitExact` | src/raft/raft.cc:857-880 | advanceCommitIndex moves to the greatest index above the commit index, within log and stable index, that a quorum's match indices reach and whose entry has the current term; it changes nothing else, and nothing at all exactly if there is none |
| `RaftIndices.BackOffIsRunStart` | src/raft/raft.cc:1342-1368 | The hint for a conflict is the first index of the maximal run of the conflicting term that ends at prev, not below the snapshot + 1 and not above prev |
| `RaftHandlers.StandsExact` | src/raft/raft.cc:244-302 | Standing for election starts a new term with the own vote and a count of one, and asks every other server once, with the last index and term of the log; a leader does not stand |
| `RaftHandlers.VoteExact` | src/raft/raft.cc:441-525 | A vote is given exactly in a term that is not over, to a log at least as up to date, and to one candidate a term; in any case the server ends, and answers, in the later of the two terms, and nothing else of it changes |
| `RaftHandlers.AnswerVoteExact` | src/raft/raft.cc:330-422 | An answer makes a leader exactly if its call was waiting, it grants the vote in the election going on, and the votes are then more than half of all servers; only then the peers' indices are reset, and a later term ends the candidacy |
| `RaftHandlers.RefusalExact` | src/raft/raft.cc:773-787 | A refusal in the leader's term sets this peer's next index to the hint, unless that is -100, and changes nothing else |
| `RaftHandlers.AcceptanceExact` | src/raft/raft.cc:788-809 | A success raises the peer's match index to the end of the request, never lowers it, puts the next index behind it, and moves the commit index to the greatest one that may then be committed |
| `RaftHandlers.AnswerElsewhere` | src/raft/raft.cc:745-772 | An answer of another term, or to a server that no longer leads, does nothing unless its term is later, which is adopted |
| `RaftHandlers.SnapshotAnswerExact` | src/raft/raft.cc:1419-1455 | The answer to a sent snapshot sets the peer's indices to it, whatever they were, if the leader still leads that term; a later term is adopted, and nothing else changes |
| `RaftHandlers.StartExact` | src/raft/raft.cc:1716-1760 | A leader puts a command behind its log under its own term and the next index; nobody else changes |
| `RaftHandlers.ReceiveExact` | src/raft/raft.cc:1019-1178 | The first half of AppendEntries refuses a request of an old term and changes nothing; otherwise the server follows, refuses exactly what does not connect to its log, with the end of its log, of its snapshot or the start of the conflicting run as hint, and exits exactly on a clash |
| `RaftHandlers.ClashExact` | src/raft/raft.cc:1152-1168 | An entry of a request clashes exactly with one of the log that has its index and term but another command |
| `RaftHandlers.WritesExact` | src/raft/raft.cc:1137-1174 | The decided writes are, in order, exactly the entries behind the snapshot that the log lacks, each placed behind the log or in the slot of its index |
| `RaftHandlers.CheckExact` | src/raft/raft.cc:1246-1285 | The check of the decided writes succeeds exactly if each fits behind the ones before it, and otherwise names the end of the log before the first that does not |
| `RaftHandlers.FinishExact` | src/raft/raft.cc:1189-1325 | The second half succeeds exactly if the writes are on disk, the term is the request's, the request connects and the writes fit; otherwise nothing changes and the hint says why |
| `RaftHandlers.TakeExact` | src/raft/raft.cc:1544-1592 | A snapshot of a committed index above the last one moves exactly the entries up to it out of the log; what is behind it, commit and stable index stay, and the applied index is at least there; any other index changes nothing |
| `RaftHandlers.TakenTerms` | src/raft/raft.cc:1563-1573 | After it every index not below the snapshot has the term it had |
| `RaftHandlers.InstallFields` | src/raft/raft.cc:1458-1540 | What an installed snapshot does to every field, as written and repaired |
| `Probing.RefusalFalls` | src/raft/raft.cc:773-787 | Heartbeat, refusal and its handling together: the follower's log stays, only this peer's next index moves, and it falls below what was sent, staying above the follower's snapshot, or goes there from below |
| `Probing.ProbingEnds` | src/raft/raft.cc:593-690 | Such exchanges end after at most one for each index between the follower's snapshot and what is sent first, with a request that connects or a snapshot |
| `Probing.ProbingExact` | src/raft/raft.cc:593-690 | They end exactly if a snapshot is needed from the start or the leader has on disk all that the follower's snapshot covers |
| `Probing.LaggingCatchesUp` | src/raft/raft.cc:1375-1540 | Snapshot taken, sent, installed and answered, as written: the follower has the leader's log up to the snapshot, the leader has its own still in full, knows what the follower has and sends what lies behind it next |
| `Probing.LeaderFaces` | src/raft/raft.cc:1063-1130 | In every careful run the follower's snapshot is part of the log of a leader of its own or a later term, as the two results need it |
| `RaftIndices.RepliesCarryTerm` | src/raft/raft.cc:1019-1374 | Every reply that reports success or gives a hint carries the request's own term, and every reply the follower's |
| `RaftIndices.ElectionSteady` | src/raft/raft.cc:244-525 | Elections and votes keep the index invariant; commit and applied index do not fall |
| `RaftIndices.AnswerVoteSteady` | src/raft/raft.cc:330-422 | So does an answer to a vote request |
| `RaftIndices.LeaderSteady` | src/raft/raft.cc:1716-1760 | So do a heartbeat, a client's command, and the success or failure of a log write |
| `RaftIndices.HandleAppendSteady` | src/raft/raft.cc:728-853 | So does an answer to AppendEntries, whatever it says |
| `RaftIndices.ReceiveAppendSteady` | src/raft/raft.cc:1019-1178 | So does the first half of AppendEntries for an arbitrary request |
| `RaftIndices.ResumeAppendSteady` | src/raft/raft.cc:1178-1325 | So does the second half with arbitrary decided writes, as written |
| `RaftIndices.InstallSteady` | src/raft/raft.cc:1458-1540 | So does an arbitrary snapshot, as written |
| `RaftIndices.SnapshotSteady` | src/raft/raft.cc:1544-1590 | So do a snapshot of one's own, the answer to a sent one, and a round of the applier |
| `RaftIndices.StableKeptByResume` | src/raft/raft.cc:1304-1305 | AppendEntries keeps the stable index within the log |
| `RaftIndices.StableKeptByInstall` | src/raft/raft.cc:1514-1523 | and so does an installed snapshot |
| `RaftIndices.StableExact` | src/raft/raft.cc:1817-1842 | Through any sequence of commands, successes and failures of log writes and snapshots on a leader, the stable index stays within the log exactly when each success names an index the log still has and no failure that takes entries back comes after the success of one of them |
| `RaftIndices.ReactExact` | src/raft/raft.cc:1817-1842 | One such event, and exactly when it takes the stable index out of the log |
| `RaftIndices.FailedWriteBreaksStable` | src/raft/raft.cc:1817-1842 | After a leader's failed write and a later successful one the stable index lies above the log, for every leader whose log was stable |
| `TwoPhase.TwoPhaseSafe` | src/raft/raft.cc:1178-1325 | Two-phase AppendEntries, as written: whatever requests of the same leader, snapshots, votes, applier rounds and failed writes above the indices sent run in its unlocked gap, it leaves the log as it finds it or, on success, holds the leader's term at every index sent above the snapshot, with the indices in order and the reply in the request's term |
| `TwoPhase.GapIsRely` | src/raft/raft.cc:1178-1189 | Every run of such steps in the gap keeps the term, the index invariant and each agreement with the leader up to the last index sent |
| `TwoPhase.WritesCover` | src/raft/raft.cc:1137-1174 | Every entry sent is among the decided writes, covered by the snapshot, or already held with the leader's term |
| `TwoPhase.FailureInGap` | src/raft/raft.cc:1824-1842 | A write that fails in the gap of any paused request and takes entries back: the request is refused or holds what it acknowledges exactly if the failure spares what was sent, takes back the previous entry too or one that was to be written, or the request's own writes were not synced |
| `TwoPhase.AcknowledgesNothing` | src/raft/raft.cc:1824-1842 | Otherwise it acknowledges what it has lost: a server with one entry, which the request brings again, answers with success on an empty log |
| `ApplyFeed.FeedRises` | src/raft/raft.cc:1621-1691 | Over any steps of a server the indices handed to the state machine strictly rise, and the only ones left out are covered by its snapshot |
| `ApplyFeed.RoundExact` | src/raft/raft.cc:1656-1691 | A round hands over one message for each index that is committed and not applied, in order, with its command, and moves only the applied index, to the commit index |
| `ApplyFeed.DeliveredAll` | src/raft/raft.cc:1656-1676 | After a round at any point of a run every index committed before it has been handed over or is covered by the snapshot |
| `RaftServer.Server.DoElection` | src/raft/raft.cc:244-302 | Standing for election raises the term, votes for itself and resets the count, as a leader does nothing; the request carries the last index and term |
| `RaftServer.Server.RequestVote` | src/raft/raft.cc:441-525 | The object ends, and answers, as ReceiveVote says: stale terms refused, newer ones adopted, one vote per term, to logs at least as up to date |
| `RaftServer.Server.HandleRequestVoteResponse` | src/raft/raft.cc:330-422 | The object ends as HandleVote says, with the loop over all peers when the majority is reached |
| `RaftServer.Server.BecomeLeader` | src/raft/raft.cc:399-405 | After the loop every peer but the server itself has next index last + 1 and match index 0 |
| `RaftServer.Server.AdvanceCommitIndex` | src/raft/raft.cc:857-880 | The nested counting loops end at the index that AdvanceCommit names, and change only the commit index |
| `RaftServer.Server.HandleAppendEntries` | src/raft/raft.cc:728-853 | The object ends as HandleAppend says, for every term and outcome of the reply |
| `RaftServer.Server.HeartbeatTo` | src/raft/raft.cc:593-690 | One peer's turn of a heartbeat gives the request, snapshot, failed assertion or read out of range that Heartbeat gives |
| `RaftServer.Server.DoHeartBeat` | src/raft/raft.cc:573-690 | A round takes the peers in order and stops at the first one that stops the process |
| `RaftServer.RoundExact` | src/raft/raft.cc:573-690 | A round of heartbeats gives every peer its turn as the leader is at its start, and stops early exactly if one of the turns before the last stops the process |
| `RaftServer.Server.ConflictStart` | src/raft/raft.cc:1342-1368 | The scanning loop finds the start of the conflicting run |
| `RaftServer.Server.DecideWrites` | src/raft/raft.cc:1137-1174 | The loop over a request's entries finds a clash exactly if there is one, and otherwise the writes needed |
| `RaftServer.Server.BeginAppendEntries` | src/raft/raft.cc:1019-1178 | AppendEntries until it releases the lock, with all its refusals |
| `RaftServer.Server.FinishAppendEntries` | src/raft/raft.cc:1189-1325 | AppendEntries from the re-acquisition of the lock, with every check made again |
| `RaftServer.Server.InstallSnapshotRpc` | src/raft/raft.cc:1458-1540 | The object ends as InstallSnapshot says for the handler as written |
| `RaftServer.Server.Snapshot` | src/raft/raft.cc:1544-1590 | Taking a snapshot moves exactly the covered entries out of the log and raises the three indices to it |
| `RaftServer.Server.HandleSnapshotReply` | src/raft/raft.cc:1419-1455 | The answer to a sent snapshot moves the peer's indices to it, unless the term or the role has changed |
| `RaftServer.Server.Start` | src/raft/raft.cc:1716-1760 | A leader appends the command with its term at the next index and says so; others refuse |
| `RaftServer.Server.OnLogStable` | src/raft/raft.cc:1817-1850 | Success raises the stable index; failure drops the entries from the failed index on if they are neither committed nor covered |
| `RaftServer.Server.ApplierRound` | src/raft/raft.cc:1656-1675 | A round hands over everything committed and not applied, and moves the applied index there |
| `RaftServer.Server.Copy` | src/raft/raft.cc:1677-1691 | The copying loop gives the commands of the indices from start to end |
| `WalCodec.TornTail` | src/persist/Persister.cc:517-584 | Wherever a file of whole records is cut, the reader yields exactly the longest prefix of whole records and cuts the file off behind them |
| `WalCodec.WholeIsLongest` | src/persist/Persister.cc:517-584 | That prefix is the longest: m records fit into k bytes exactly if m is at most the number read |
| `WalCodec.RecoveredThenAppended` | src/persist/Persister.cc:517-584 | Whatever bytes a file holds, entries appended after the reader's cut are read back behind those it had read |
| `WalCodec.CutIsClean` | src/persist/Persister.cc:570-571 | A file that has been cut is read again in full |
| `WalCodec.ReadBackExact` | src/persist/Persister.cc:536-565 | A record is read back exactly if its body has 1 byte to 16 MiB; any other ends the segment for good |
| `WalCodec.HeaderExact` | src/persist/Persister.cc:551-565 | A record whose header does not name the index and the term of its entry ends the segment |
| `WalCodec.ReadBack` | src/persist/Persister.cc:250-257 | A segment of records reads back as the entries written, followed by whatever comes behind |
| `WalCodec.ScanGrows` | src/persist/Persister.cc:517-584 | A longer beginning of a file never yields fewer entries |
| `WalReplay.ReplayLogs` | src/persist/Persister.cc:602-634 | The replay loop gives a log without gaps from the snapshot on, the last writer of an index having dropped what followed it |
| `WalReplay.StepExact` | src/persist/Persister.cc:602-634 | An entry takes its place and drops what followed exactly if it is above the snapshot and leaves no gap |
| `WalReplay.LaterSnapshot` | src/persist/Persister.cc:586-635 | Recovery at a later snapshot t of a history whose replay from s reaches past t is the replay from s without its first t - s entries |
| `WalReplay.LaterSnapshotExact` | src/persist/Persister.cc:586-635 | It gives the replayed log behind t exactly when the replay reaches past t or no entry appended had index t + 1 |
| `WalReplay.Resurrection` | src/persist/Persister.cc:586-635 | Otherwise entries that a later write had truncated come back: a history of three entries |
| `WalReplay.CompactionInvisible` | src/persist/Persister.cc:637-683 | For every history and every later appends, compacting first makes no difference to what is recovered |
| `WalReplay.PlaceIsReplayed` | src/persist/Persister.cc:623-630 | The repaired conflict rule of the follower is the replay's own rule |
| `WalSegments.ReadWalSegment` | src/persist/Persister.cc:517-584 | Reading a segment yields its entries above the snapshot and cuts the file at the first torn or damaged record |
| `WalSegments.KeptSuffices` | src/persist/Persister.cc:567-574 | The reader's test on record headers drops only what the replay would ignore, even where a header's 64-bit index is not the entry's |
| `WalSegments.KeptExact` | src/persist/Persister.cc:567-574 | The reader hands on exactly the entries whose index, as the header's unsigned number, lies above the snapshot |
| `WalSegments.ReadPersistedLogs` | src/persist/Persister.cc:586-635 | Recovery is the replay of all segments, one after the other |
| `WalSegments.RewriteWalFrom` | src/persist/Persister.cc:685-728 | The rewritten segment is the encoding of the given entries, or of those before a failing write and part of its record; the failure is reported |
| `WalSegments.CompactWal` | src/persist/Persister.cc:637-683 | Compaction leaves one segment that encodes the replay of all of them, as far as it could be written; a failure is not passed on |
| `WalSegments.CompactedOnDisk` | src/persist/Persister.cc:637-728 | On the bytes: any records appended to the compacted segment are recovered as they would have been behind the old ones |
| `WalSegments.FailedCompaction` | src/persist/Persister.cc:637-728 | What is recovered after a compaction with a failing write is the beginning of the log that was written, so compaction is invisible exactly if no write fails |
| `WalRecovery.RecoveredIsMemory` | src/raft/raft.cc:1178-1301 | The log a follower would recover after writing a request's entries is its log in memory with the repaired rule, and its log as written exactly when there is nothing to write or the request reaches its end |
| `WalRecovery.RecoveredBehindGap` | src/raft/raft.cc:1178-1301 | Entries logged before the lock is taken again and applied behind any gap: the log a follower would recover is its log in memory, with the repaired rule exactly if that did not hold more than the request already, as written exactly if the request reaches its end |
| `WalRecovery.RecoveredThroughout` | src/raft/raft.cc:1178-1301 | Through every run of repaired updates and snapshots of a follower, one after the other, a restart would recover the log in memory |
| `WalDurable.ToldTrueSurvives` | src/persist/Persister.cc:197-353 | Under any failing writes and syncs, the entries of a batch told true are recovered, together and in order, from whatever a crash leaves behind the last successful sync |
| `WalDurable.NoneToldTwice` | src/persist/Persister.cc:197-353 | A batch handed out once is answered at most once, and not at all while it waits or when it was forgotten |
| `WalDurable.EachAnsweredOnce` | src/persist/Persister.cc:280-353 | When the writer has stopped every batch taken has been answered once, except those behind a failed write in its bulk; all have exactly if each failed write was in the last batch of its bulk |
| `WalDurable.SecondBatchForgotten` | src/persist/Persister.cc:280-301 | Two batches of one record each, of which the first is not written: the second is never answered |
| `WalDurable.FailedWriteExact` | src/persist/Persister.cc:286-301 | A failed write restores the segment counters, and the file exactly if the offset stood at its end |
| `WalDurable.FailAfterReopen` | src/persist/Persister.cc:730-763 | If the first write after a restart fails, everything recovered from the open segment is erased |
| `WalDurable.OffsetSettles` | src/persist/Persister.cc:215-257 | From the first successful write on, the offset stands at the end of the file at the start of every turn |
| `WalDurable.TakeSound` | src/persist/Persister.cc:197-353 | Each turn keeps that files are whole records up to the last sync, that waiting batches are written and that those told true are on disk |
| `WalAnswers.TurnExact` | src/persist/Persister.cc:211-341 | A turn whose writes succeed: with 64 records or 128 KiB pending, the clock due, or a segment grown to 1000 records or 8 MiB, everybody is told how the sync went, nobody waits any more, and on success all is synced or closed under its first and last index; otherwise nobody is told anything and nothing is synced |
| `WalAnswers.FailedTurnExact` | src/persist/Persister.cc:285-300 | A turn in which a write fails: everybody who waits, and the bulk up to the batch that was hit, is told false, and the rest is forgotten |
| `WalAnswers.VictimExact` | src/persist/Persister.cc:238-283 | The batch that was hit is the one in which the failing record lies |
| `WalAnswers.StopExact` | src/persist/Persister.cc:343-351 | Stopping syncs and answers what is pending, and nothing else |
| `WalAnswers.WaitsAreBounded` | src/persist/Persister.cc:326-341 | In every run fewer than 64 records and 128 KiB wait behind a turn, and nobody waits behind one at which the clock is due, whatever fails |
| `WalThread.GroupCommit.TakeTurn` | src/persist/Persister.cc:205-340 | A turn of the loop, record by record and with its counters, ends in the state that Take names for every fault, sync outcome and clock |
| `WalThread.GroupCommit.WriteBulk` | src/persist/Persister.cc:238-283 | The nested writing loops fail exactly if the faulty record is in the bulk, and then in the batch that holds it |
| `WalThread.GroupCommit.NotifyAll` | include/persist/Persister.h:253-277 | Everybody who waits is told the same, once, and nobody waits any more |
| `WalThread.GroupCommit.RollSegment` | src/persist/Persister.cc:447-466 | The open segment is closed under its first and last index and a new one starts behind it |
| `WalThread.GroupCommit.Stop` | src/persist/Persister.cc:343-351 | Whatever is pending at the end is synced and answered |
| `WalOrder.AppendOrder` | src/persist/Persister.cc:426-515 | Across rolls, crashes within one, and restarts, first indices strictly increase and the sorted directory reads in append order, as long as no entry is appended below the open segment's first index |
| `WalOrder.AnyListing` | src/persist/Persister.cc:505-514 | Sorting whatever the file system lists gives the order of creation |
| `WalOrder.ListingSorted` | src/persist/Persister.cc:505-514 | Recovery reads every segment once, by first index, and of two with the same one the closed one first |
| `WalOrder.CrashInRollResumed` | src/persist/Persister.cc:447-466 | A crash in a roll, once the closed segment has its name, leaves after the restart what the roll would have |
| `WalOrder.RollExact` | src/persist/Persister.cc:447-466 | A roll keeps the order exactly if the last index written is not below the segment's first |
| `WalOrder.OutOfOrder` | src/persist/Persister.cc:426-515 | Otherwise the directory is read out of order and the replay loses an entry: a run of seven operations |
| `SkipList.SkipList.Insert` | include/common/skipList.h:174-243 | Inserting keeps every existing pair, adds a new key with any random level, reports whether the key existed, and keeps the structure |
| `SkipList.SkipList.Delete` | include/common/skipList.h:357-400 | Deleting removes exactly the key's pair, unlinks its node on all its levels and gives up empty levels |
| `SkipList.SkipList.InsertSet` | include/common/skipList.h:407-416 | The key gets the new value whether it existed or not |
| `SkipList.SkipList.Search` | include/common/skipList.h:437-466 | A key is found exactly if it is in the map, with its value |
| `SkipList.SkipList.Descend` | include/common/skipList.h:187-195 | The descent ends, with the last node of smaller key on every level |
| `SkipList.SkipList.RandomLevel` | include/common/skipList.h:515-524 | The level is one more than the coins that came up, at most the maximum |
| `SkipList.SkipList.constructor` | include/common/skipList.h:476-486 | A new list is the empty map |
| `SkipList.SkipList.Structure` | include/common/skipList.h:174-243 | In every valid list header links above the current level are null, the one on it is not, the count is the size of the map, and each level read along its links is in strict key order and a subsequence of the one below |
| `SkipOrder.LevelSorted` | include/common/skipList.h:187-195 | Reading a level from the header gives exactly the nodes that reach it, in strict key order |
| `SkipOrder.LevelsNest` | include/common/skipList.h:231-236 | The rest of a level from any of its nodes is a subsequence of the level below from there |
| `SkipOrder.InsertedLinked` | include/common/skipList.h:231-236 | Relinking the predecessor and the new node on a level gives the links of the list with that node in it |
| `SkipOrder.DeletedLinked` | include/common/skipList.h:378-386 | Bypassing a node on a level gives the links of the list without it |
| `SkipOrder.PredDivides` | include/common/skipList.h:199-207 | The bottom predecessor of a key is followed by its node or by none with that key |
| `SkipDump.Dump` | include/common/skipList.h:265-286 | The dump lists the pairs in key order, and together they are the map |
| `SkipDump.Load` | include/common/skipList.h:289-322 | Loading as written makes every new key its own value and keeps old keys |
| `SkipDump.Restore` | include/common/skipList.h:289-322 | Inserting the dumped values into a new list with replacement restores the dumped map |
| `SkipDump.LoadExact` | include/common/skipList.h:310-322 | Loading a dump as written restores it exactly if the list held no other keys, held the dumped values under those it did, and every other value is its own key |
| `SkipDump.LoadLosesValue` | include/common/skipList.h:310-322 | A dump of one pair, loaded into an empty list: the key comes back as its value |
| `SkipDump.LoadIntoEmpty` | include/common/skipList.h:310-322 | Into an empty list: exactly if every value equals its key |
| `KvStore.AtMostOnce` | src/kvserver/KvServer.cc:189-244 | Applying a log with retries through the request table gives the map of the deduplicated log, and the table holds each client's highest request, as long as no read records a lower request than one before |
| `KvStore.CommandExact` | src/kvserver/KvServer.cc:203-233 | Above the snapshot exactly a Put or an Append whose client has no request recorded that is as high stores its value and its request; nothing else of map and table changes, and whoever waits at the index gets the command |
| `KvStore.ServedExact` | src/kvserver/KvServer.cc:48-70 | A served read sets its client's entry to its request, whatever it was, and changes nothing else |
| `KvStore.ExecutedIsDeduplicated` | src/kvserver/KvServer.cc:203-227 | The operations a server executes are those of the log without retries, as long as no read records a lower request than one before |
| `KvStore.ExecutedMakeMap` | src/kvserver/KvServer.cc:37-46 | In every run the map is what these operations make it, and nothing else |
| `KvStore.RequestsRise` | src/kvserver/KvServer.cc:203-227 | Then each client's requests are executed in strictly rising order, so none is executed twice |
| `KvStore.ReadExact` | src/kvserver/KvServer.cc:48-70 | A served read lets its client's last write run again exactly if it records a lower request |
| `KvStore.LateReadRunsTwice` | src/kvserver/KvServer.cc:48-70 | Then a retry undoes another client's write: a run of four events |
| `KvSnapshots.OvertakingExact` | src/kvserver/KvServer.cc:450-455 | A snapshot and commands up to its index, whichever way they interleave in the channel and whatever the store held: table and index end as the snapshot says, and so does the map with a load that replaces the store; as written exactly if the store it came upon held no other keys, the dumped values under those it held, and every other value is its own key |
| `KvSnapshots.CatchesUp` | src/kvserver/KvServer.cc:203-233 | With the commands behind the snapshot the server holds what applying the log from the start gives: always with a load that replaces the store, as written exactly if every key that the load did not bring right is written by one of these commands; the table is right in either case |
| `KvSnapshots.OrderExact` | src/raft/raft.cc:1495-1498 | For a snapshot below what has been copied the order in the channel makes no difference exactly if none of the commands behind it is executed and, as written, the map found on loading keeps its values and gets only keys as their own values from the commands |
| `KvSnapshots.OldSnapshotUndoes` | src/raft/raft.cc:1495-1498 | Such a snapshot, read last, takes an applied write back for good, or as written its entry in the table: a log of two entries |
| `KvSnapshots.CommandQueues` | src/kvserver/KvServer.cc:410-439 | What waits in a caller's queue has been taken account of, after every command |
| `KvSnapshots.OkIsApplied` | src/kvserver/KvServer.cc:306-362 | A write is answered OK only if its request, or a later one of its client, is in the table |
| `KvSnapshots.AnswerExact` | src/kvserver/KvServer.cc:306-362 | A caller waiting at an index is told OK for the command that comes out there exactly if that is its own, and after a timeout exactly if a request of its client at least as high is recorded |
| `KvServer.Server.GetCommandFromRaft` | src/kvserver/KvServer.cc:189-233 | A command at or below the snapshot is skipped; otherwise a write that is no duplicate is executed and recorded, the waiting caller gets it, and a snapshot is proposed exactly if the Raft state is above a ninth of the bound; it holds the store after the command |
| `KvServer.Server.IfNeedToSendSnapShotCommand` | src/kvserver/KvServer.cc:441-448 | The proposed snapshot is a dump of the store as it is, with the request table |
| `KvServer.NinthExact` | src/kvserver/KvServer.cc:441-448 | The size test against the divided bound, multiplied out, for bounds of either sign |
| `KvServer.Server.ExecuteWrite` | src/kvserver/KvServer.cc:37-46 | Append stores its value as Put does, and records the request |
| `KvServer.Server.ExecuteGet` | src/kvserver/KvServer.cc:48-70 | A read returns the value under its key if there is one, and records its request unconditionally |
| `KvServer.Server.GetSnapShotFromRaft` | src/kvserver/KvServer.cc:450-455 | As written a snapshot's keys become their own values beside what the store held |
| `KvServer.Server.ReadChannel` | src/kvserver/KvServer.cc:383-398 | The loop over the channel consumes the messages in order, with snapshots loaded as written or replacing the store |
| `KvServer.Server.AnswerWrite` | src/kvserver/KvServer.cc:306-362 | The caller is told OK for its own operation, or for a duplicate after a timeout |
| `Framing.RoundTrip` | include/rpc/rpcprovider.h:79-103 | Decoding inverts encoding for every 32-bit value, whatever follows, in at most five bytes |
| `Framing.PrefixNeedsMore` | include/rpc/rpcprovider.h:97-100 | Every proper prefix of an encoding asks for more |
| `Framing.FrontExact` | src/rpc/rpcprovider.cc:144-170 | A length shuts the connection down exactly if it is 0 or above 16 MiB; otherwise a frame is there exactly if all its bytes have arrived |
| `Framing.EndlessLength` | include/rpc/rpcprovider.h:79-103 | A length that does not end within five bytes is impossible |
| `Framing.EveryFrameArrives` | src/rpc/rpcprovider.cc:133-238 | Whatever reads the bytes of some parseable frames arrive in, exactly those of these frames that name a known method and a valid request are dispatched, in order, and nothing is left |
| `Framing.ChunksDoNotMatter` | src/rpc/rpcprovider.cc:133-238 | However a stream whose whole frames, but perhaps the last, all parse is cut into reads, the same frames are dispatched and the same bytes left |
| `Framing.ChunksExact` | src/rpc/rpcprovider.cc:133-238 | The cutting into reads makes no difference exactly if every whole frame at the front of the stream except the last parses |
| `Framing.DrainConcat` | src/rpc/rpcprovider.cc:133-238 | Draining a longer stream starts with draining its beginning; behind a shut-down only the bytes left grow |
| `Framing.BadFrameDependsOnChunks` | src/rpc/rpcprovider.cc:174-186 | Behind a frame that does not parse the cutting does matter |
| `Framing.AppendVarint32` | include/rpc/MrpcchannelMultiReq.h:94-103 | The loop appends the encoding of the value |
| `Framing.TryReadVarint32` | include/rpc/rpcprovider.h:79-103 | The loop decodes at most five bytes, with the fifth shifted within 32 bits |
| `Framing.RecvVarint32` | src/rpc/MrpcchannelMultiReq.cc:201-221 | Reading byte by byte succeeds exactly where decoding does, with the same value and length |
| `Framing.Buffer.OnMessage` | src/rpc/rpcprovider.cc:116-239 | The loop dispatches, passes over, leaves and shuts down as Drain says for the buffer with the new bytes |
| `PendingCalls.AtMostOneCompletion` | src/rpc/MrpcchannelMultiReq.cc:298-359 | Under any mix of responses, repeated or unknown numbers, failures and reconnections, issued numbers split into waiting and taken, and the completion of each has run at most once, exactly once when taken |
| `PendingCalls.LateResponseIgnored` | src/rpc/MrpcchannelMultiReq.cc:333-338 | A second response, or one to a call never issued, changes nothing |
| `PendingCalls.FailureCompletesAll` | src/rpc/MrpcchannelMultiReq.cc:298-322 | A failure leaves no call waiting, and every issued one has run exactly once |
| `PendingCalls.FailureCloses` | src/rpc/MrpcchannelMultiReq.cc:298-322 | Behind a failure every pending completion has run once more and no call is issued until the channel is connected again |
| `PendingCalls.RegisteredOnce` | src/rpc/MrpcchannelMultiReq.cc:388-402 | A controller keeps the call registered first |
| `PendingCalls.RefusedNeverRuns` | src/rpc/MrpcchannelMultiReq.cc:48-52 | A call made while disconnected gets no number and changes nothing, so its completion never runs |
| `PendingCalls.IssueExact` | src/rpc/MrpcchannelMultiReq.cc:48-84 | Issuing on an open connection uses a number up and moves exactly the controller's call, if there is one, to the pending table under that number |
| `PendingCalls.IssuedOnce` | src/rpc/MrpcchannelMultiReq.cc:58-83 | A call registered once is issued once |
| `PendingCalls.CallCompletes` | src/rpc/MrpcchannelMultiReq.cc:48-84 | A call registered, issued and answered on an open connection has its completion run once more, and no longer waits |
| `PendingCalls.CounterCountsPeers` | src/raft/raft.cc:378-380 | Of completions that are each for another peer, the bare vote counter is one more than the number of different peers that granted |
| `PendingCalls.ElectionCountsPeers` | src/raft/raft.cc:270 | For every run of the peers' channels with one call to each, whatever is answered, repeated or fails, the vote counter is one more than the number of different peers that granted, and these are among the peers |
| `PendingCalls.HeardWhileWaiting` | src/rpc/MrpcchannelMultiReq.cc:323-359 | A response to an election's call is heard exactly while the call waits, and ends the waiting |
| `PendingCalls.TwiceCountedBreaks` | src/raft/raft.cc:378-380 | If one completion ran twice the counter would not be |
| `PendingCalls.CallTable.RegisterCall` | src/rpc/MrpcchannelMultiReq.cc:388-402 | A controller is registered once |
| `PendingCalls.CallTable.CallMethod` | src/rpc/MrpcchannelMultiReq.cc:45-113 | A registered call moves to the pending table under a fresh number, also if its request then fails to serialise and is not sent; the number is used up in any case |
| `PendingCalls.CallTable.CompleteResponse` | src/rpc/MrpcchannelMultiReq.cc:323-359 | A response takes its call out of the table and runs its completion, if it is there |
| `PendingCalls.CallTable.FailAllPending` | src/rpc/MrpcchannelMultiReq.cc:298-322 | The whole table is swapped out and every completion in it runs once |

## Left out

- RaftSafety.CommittedAgree: speaks of careful runs only, and so do the other theorems of that module; without the conditions it is false, as ClusterRuns.OverwriteLosesCommitted, FailedWrites.FailedWriteLosesCommitted and FailedWrites.UnheldWriteLosesCommitted show. The conditions are exact for the invariant (RaftSafety.CarefulExact); a run that breaks the invariant need not end in two different commits.
- Restarts of servers in the cluster: the cluster runs from the first start without crashes; the memory-mapped node file and its flushing are not modelled, and what a restart recovers of the log is treated in the write-ahead-log modules.
- WalRecovery.RecoveredThroughout: covers requests one after the other; requests whose log writes and lock sections are ordered differently are covered one at a time (WalRecovery.RecoveredBehindGap).
- A failed assertion, a read behind the end of m_logs (which is undefined in the code), a second registration of a controller, and the exit on clashing entries end the process in the code; in the cluster such a step changes nothing.
- Snapshot contents: in the Raft modules a snapshot is the prefix of entries it covers; that it equals the state machine's store after these entries is the subject of `KvSnapshots`.
- Probing.LeaderFaces: speaks of leaders whose stable index is within their log; with it above, no heartbeat is sent at all (RaftDepartures.HeartbeatExact). The follower's log is taken not to change between the exchanges.
- Probing.LaggingCatchesUp: states the four steps for the handlers as written only.
- Time: elections, heartbeats and the writer's interval are steps that may happen at any moment; nothing is proved about progress.
- WalOrder.AppendOrder: does not model 64-bit wrap-around of indices, because they are bounded by 32-bit log indices.
- WalWriter: a bulk may be larger than the 64 batches the code takes at once, which only adds runs.
- WalSegments.CompactWal: does not model a crash in the middle of a compaction, when the old segments have been removed.
- PendingCalls.CallTable.CallMethod: does not model 64-bit wrap-around of request numbers.
- Serialisation of log entries and frames: protocol-buffer and Boost encodings are parameters of which only round trips are assumed.
- SkipList.SkipList.Insert: does not model the allocation of nodes failing, nor the freeing of deleted ones; keys are integers, of which only < and == are used, and values have the type of keys as in the store.
- The answers to reads, and the removal of waiting queues after an answer.
- Sockets, reconnection, coroutines, thread pools, mutexes and lock order, configuration, the clerk's retry loop (only that its request numbers may repeat or arrive late is used), and dead code.
- Framing.Buffer.OnMessage: which frames parse, name a known method and carry a valid request is a parameter; running the method and sending the response are left out.
