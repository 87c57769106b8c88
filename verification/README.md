# A model of the SVR2 enclave

Secure Value Recovery keeps small secrets behind a PIN in a group of enclaves. The
enclaves replicate one log with a variant of Raft, apply it to a key-value database
that counts guesses, bring new replicas up by state transfer, guard their memory with
a Merkle tree and talk to each other over Noise. This project models that core in
Dafny and proves what it is meant to guarantee.

The parts, from the protocol down:

- **Raft with promises.** `RaftTypes`, `HashChain`, `Quorum`, `GroupMembership`,
  `BoundedLog` and `ReplicaSpec` give one replica as functions on values;
  `ReplicaInvariant` proves what every handler keeps. `RaftReplica` is the replica as a
  class with the loops and field updates of the code, proved equal to those functions.
  `ReplicaLaws`, `AppendLaws` and `StepLaws` say what each handler and each whole step
  does in terms of the whole log, the membership it leads to and the messages, without
  naming how the functions are written: the invariants would let a handler do nothing.
  `RaftSystem` puts replicas on a network that may lose, duplicate and reorder;
  `RaftHistory`, `RaftSteps` and `RaftSafety` carry an invariant through every step, and
  `RaftTheorems` and `Elections` draw the theorems. The code commits an entry without asking whether it
  is of the current term, so safety is not proved through leader completeness but
  through promises: a commit needs a quorum of promises, a promised entry is never
  given up, and quorums meet. Where the comments in `raft.cc` ask for the current term
  and the code does not, the model follows the code.
  A run starts from replicas just built around a common committed log, which is empty
  in a new group, and replicas without a vote may join it at any time.
  The replica's commit and promise indexes have leaves in the Merkle tree; the class
  proves that the checks of these leaves succeed, while the theorems about groups hold
  whether they do or not.
- **State transfer.** `Keys`, `Database` and `Transfer` prove that log chunks and row
  chunks interleaved while the sender goes on applying entries add up to the sender's
  database, and `TransferProgress` when a push is accepted and that pushes come to an
  end. `Core` holds the two ends as classes, makes a replica of what arrives, and
  drives a replica that is up, whose applied index has a leaf of its own.
  `Agreement` joins this with Raft: a replica that came up by transfer is one of the
  group's, and agrees with it ever after.
- **Databases.** `Db2` and `Db3` prove the guess budget from the history of requests, for
  a row, a log, a transfer and a whole group. Their rows are guarded by leaves in the
  Merkle tree (`GuardedRows`), and the checks of the tree are proved to succeed.
- **Merkle tree.** `Merkle` proves that the pointer tree is a map from leaf to value
  over every run of changes, also while several leaves await their first update, and
  what verification then detects. Nodes and leaves are
  kept in maps by address: a pointer is an address, `new` takes a fresh one, `delete`
  removes it, and following a dangling pointer would not verify.
- **Codecs.** `Noise` and `Peers` prove packet chunking and rekeying, `Base64` proves
  encoding and in-place decoding. `Division` is the arithmetic they share.

The history of a run (whole logs, who led which term, who voted for whom) appears only
in proofs. The clock, the random timeouts, the network, the parsing of client messages
and, in the theorems about groups, the outcome of Merkle verification inside Raft are
parameters that may take any value.

## Model

| member | source | states |
|---|---|---|
| `RaftTheorems.CommitSafety` | enclave/raft/raft.cc:554-631 | over every run, joins included, an entry committed at an index by one replica at any moment is the entry committed there by any other at any moment |
| `RaftTheorems.CommittedAgree` | enclave/raft/raft.cc:872-947 | of the committed parts of two logs at any two moments, dropped entries included, one extends the other |
| `RaftTheorems.ChosenAgree` | enclave/raft/raft.cc:574-625 | of two prefixes each promised by a quorum one extends the other |
| `RaftTheorems.TakenAgree` | enclave/raft/raft.cc:83-93 | of what two replicas have handed to their databases at any two moments one extends the other, also where one of them started from a committed log or joined by transfer |
| `RaftTheorems.TakenGrows` | enclave/raft/raft.cc:83-93 | what a replica has handed to its database only grows |
| `RaftTheorems.TakenChained` | enclave/raft/raft.cc:463-491 | and is a chained log at every moment |
| `RaftTheorems.ElectionSafety` | enclave/raft/raft.cc:233-410 | no term ever has two leaders, at one moment or at two, across timeouts, stale votes and relinquishing, whether the voters start new or from a committed log |
| `Elections.LeadersAreUpToDate` | enclave/raft/raft.cc:670-722 | over every run, whoever leads a term was elected by a quorum of voters, each of which cast its vote for it in that term at a moment when the end of its log was no further than that of the log the leader had when it stood |
| `Elections.BallotCast` | enclave/raft/raft.cc:233-271 | every vote of a run was cast at one moment, and what is on record of it is the end of the log the voter had then |
| `Elections.RunFair` | enclave/raft/raft.cc:389-410 | at every moment of every run the votes a candidate holds and a leader was elected by are on record, each from a voter whose log was no further than the candidate's |
| `RaftTheorems.PromisesNeverRevoked` | enclave/raft/raft.cc:877-886 | a promise index never shrinks and an entry it covers never changes while it is kept |
| `RaftTheorems.IndexOrder` | enclave/raft/raft.cc:918-971 | at every moment applied <= commit <= promise <= last, the next entry to apply is stored, and the effective voters are the group's |
| `RaftTheorems.NewestMembership` | enclave/raft/raft.cc:1411-1418 | at every moment of every run the membership in force at a replica is that of the newest change in its whole log, dropped entries included, and its committed membership that of the newest change up to its commit index; where there is none it is the one the group was founded with |
| `RaftTheorems.MembershipsAgree` | enclave/raft/raft.cc:976-1000 | replicas that have committed as many entries, at any two moments, have the same committed membership |
| `RaftTheorems.AppliedMembership` | enclave/raft/raft.cc:83-93 | where a replica has applied all it has committed, the committed membership it would send is the newest among what it has applied, and has the group's voters |
| `RaftTheorems.LogMatchingTheorem` | enclave/raft/raft.cc:872-916 | logs of equal term at an index are equal at every earlier index both store, at any two moments |
| `RaftTheorems.HashMatchingTheorem` | enclave/raft/raft.cc:1157-1180 | logs that carry one chain hash carry it at the same index and are equal at every earlier index both store |
| `RaftTheorems.SameHashSameLog` | enclave/raft/raft.cc:463-491 | the same for any two replicas that meet the invariant, without a run between them |
| `RaftTheorems.RunExplained` | enclave/raft/raft.cc:1246-1307 | every run of the system has a history that explains each of its states |
| `RaftSafety.StepOk` | enclave/raft/raft.cc:1246-1324 | every action of any replica keeps the system invariant and only extends the history |
| `RaftSafety.InitOk` | enclave/raft/raft.cc:19-53 | a group of replicas just built around a common committed log, the empty one of a new group or any other, meets the invariant |
| `RaftSafety.JoinOk` | enclave/raft/raft.cc:28-40 | a replica that joins under a new id around the end of a prefix of what another has applied, under the newest membership of that prefix, with all of it counted as promised, committed and applied and its term zero, keeps the invariant |
| `RaftSafety.FounderTicks` | enclave/raft/raft.cc:47-52 | the only voter making itself leader when built does what its first timeout would |
| `RaftSafety.ReceiveStep` | enclave/raft/raft.cc:1246-1307 | a message that is validated or rejected, term update, dispatch and sending keep the invariant |
| `RaftSteps.NoRival` | enclave/raft/raft.cc:389-410 | a candidate with a quorum of votes has no rival for its term in the history |
| `RaftSteps.CommitIsChosen` | enclave/raft/raft.cc:598-625 | what a leader commits is promised by a quorum that still keeps it |
| `RaftSteps.VoteRequestStep` | enclave/raft/raft.cc:670-722 | answering a vote request keeps one vote per term |
| `RaftSteps.ElectionStep` | enclave/raft/raft.cc:233-271 | standing for election keeps the invariant |
| `RaftSteps.TakeOfficeStep` | enclave/raft/raft.cc:389-410 | becoming leader opens the one reign of its term |
| `RaftSteps.StoreEntriesStep` | enclave/raft/raft.cc:872-916 | storing a message's entries never touches a promised entry and leaves a piece of the sender's log |
| `RaftSteps.AppendRequestStep` | enclave/raft/raft.cc:748-974 | handling an append request keeps the invariant, promises included |
| `RaftSteps.ResponseStep` | enclave/raft/raft.cc:1004-1075 | what a leader records about a follower is what the follower stores and has promised |
| `RaftSteps.AdvanceStep` | enclave/raft/raft.cc:554-661 | advancing promise and commit keeps the invariant without a check of the entry's term |
| `RaftSteps.RequestIsOk` | enclave/raft/raft.cc:298-387 | what a leader sends is a piece of its log with a chosen commit index |
| `RaftSteps.ClientRequestStep` | enclave/raft/raft.cc:493-509 | a leader's new entry extends its reign and nobody else's log |
| `ReplicaLaws.AdvanceMeans` | enclave/raft/raft.cc:554-631 | an index is promised after the call exactly if it was, or a quorum of the voters of the newest membership in the log store it, the leader counted by its own log; and committed exactly if it was, or a quorum has promised it, the leader counted by its new promise |
| `ReplicaLaws.AdvanceTells` | enclave/raft/raft.cc:632-661 | if either index moves every follower is due a message, and if neither does nothing changes |
| `ReplicaLaws.VoteMeans` | enclave/raft/raft.cc:670-722 | a request is granted if and only if it is of the voter's term, its vote has not gone to another, and the candidate's last term and index are at least those of the voter's log; the answer and nothing else is queued |
| `ReplicaLaws.VoteCounts` | enclave/raft/raft.cc:724-746 | a vote counts exactly if granted, in the candidate's term, by a voter |
| `ReplicaLaws.ElectionMeans` | enclave/raft/raft.cc:233-296 | a voter that does not lead stands in the next term, for itself alone, and asks everyone with the end of its log |
| `ReplicaLaws.LeadershipMeans` | enclave/raft/raft.cc:389-410 | a candidate leads exactly if a quorum has voted for it, assumes nothing of its followers, and logs an entry of its term if there is room |
| `ReplicaLaws.TermMeans` | enclave/raft/raft.cc:1115-1144 | a later term makes a follower without vote, leader or record of followers; no other term changes anything |
| `ReplicaLaws.RequestLogged` | enclave/raft/raft.cc:493-509 | a request is logged exactly if the replica leads, is not stepping down, and there is a term, a readable group if any, and room once everything that may go has gone; the log is then the old one and that entry, chained |
| `ReplicaLaws.ChangeAccepted` | enclave/raft/raft.cc:511-548 | a change of the group is taken up exactly if the replica leads and is not stepping down, no change in the log is uncommitted, the group can be read, and the step from the group in force is one a leader may make |
| `ReplicaLaws.ChangeLogged` | enclave/raft/raft.cc:412-461 | a leader that logs a change of the group follows exactly the other members of the new one, keeps what it knows of those it had, and is to probe the new ones from the end of the log at once |
| `ReplicaLaws.RequestMeans` | enclave/raft/raft.cc:298-387 | a request names the entry before the follower's next one, carries a chunk of the log from there on unless it probes, and the commit and promise indexes as far as what is sent goes |
| `ReplicaLaws.ChunkTaken` | enclave/raft/raft.cc:333-358 | a chunk has at least one entry if there is one, stops only at the end of the log or when it is full, and is not full before its last entry |
| `ReplicaLaws.SendingMeans` | enclave/raft/raft.cc:298-387 | the followers that get a request are exactly those without one under way that lack entries or are owed a heartbeat or a probe, and whose preceding entry is still stored; each gets one |
| `ReplicaLaws.ResponseMeans` | enclave/raft/raft.cc:1004-1099 | a success raises what is matched and promised and settles the request under way exactly if it covers it; a rejection backs off and probes; any other response changes nothing |
| `ReplicaLaws.BackOffMeans` | enclave/raft/raft.cc:1082-1099 | after a rejection the leader goes back by as many entries as a chunk holds and no fewer, but not to one that is matched |
| `ReplicaLaws.HandoverMeans` | enclave/raft/raft.cc:1326-1355 | a leader that is stepping down hands over exactly if another voter stores its whole log, to the first of them, and then follows |
| `ReplicaLaws.ResetMeans` | enclave/raft/raft.cc:144-169 | a peer that was reset is asked again for its vote by a candidate and probed from the end of the log by a leader |
| `ReplicaLaws.AgreesMeans` | enclave/raft/raft.cc:1157-1180 | what a message says about an index passes exactly if it is nothing, or is not dropped and is new, of an earlier term, of a later one above the promise, or of equal term and hash |
| `ReplicaLaws.EntriesAgreeMeans` | enclave/raft/raft.cc:1216-1223 | and the entries of a request exactly if each of them does |
| `ReplicaLaws.AdmissibleMeans` | enclave/raft/raft.cc:1182-1244 | which messages are let in, for every kind of message, in terms of the whole log |
| `AppendLaws.AppendRequestMeans` | enclave/raft/raft.cc:748-974 | a request that follows on: its entries are stored as far as can be, the commit and promise indexes move up to the leader's as far as that, and the answer says how far, with the hash there and what is promised |
| `AppendLaws.EntriesStored` | enclave/raft/raft.cc:872-916 | what becomes of the log: entries it has are kept, at the first it lacks it is cut unless that is promised, and as many of the rest are appended as continue the chain, are well formed and find room |
| `AppendLaws.AllStoredIff` | enclave/raft/raft.cc:872-916 | everything sent is stored if and only if the log has it all, or the first entry it lacks meets no promised one and all the rest can be appended |
| `AppendLaws.StoredAreSent` | enclave/raft/raft.cc:872-916 | up to the index answered, the log holds the entries sent, by term and hash |
| `AppendLaws.AppendOne` | enclave/raft/raft.cc:895-916 | one entry is appended exactly if it has a term and a readable group if any, continues the chain, and finds room |
| `AppendLaws.AppendRefusedMeans` | enclave/raft/raft.cc:748-861 | any other request is turned down with where the replica stands, or ignored, and changes no log, index or vote |
| `AppendLaws.AppendUnverifiedMeans` | enclave/raft/raft.cc:918-935 | if the Merkle check fails no index moves, and nothing is answered unless none would have moved |
| `StepLaws.NothingLeft` | enclave/raft/raft.cc:1309-1324 | after any step no candidate is left with a quorum of votes, a leader has promised all a quorum stores and committed all a quorum has promised, no follower is left due a request, and no successor is left waiting |
| `StepLaws.Ignored` | enclave/raft/raft.cc:1246-1262 | a message that is not let in changes nothing |
| `StepLaws.VoteRequested` | enclave/raft/raft.cc:1246-1307 | a whole step with a vote request: the term is the later one, and the vote is granted exactly as in that term it may be |
| `StepLaws.VoteReceived` | enclave/raft/raft.cc:1246-1324 | with a vote: it makes its candidate leader exactly if it completes a quorum |
| `StepLaws.AppendReceived` | enclave/raft/raft.cc:1246-1307 | with an append request of any term that is not past: stored, advanced and answered |
| `StepLaws.ResponseReceived` | enclave/raft/raft.cc:1246-1324 | with a success response: everything it allows is promised, committed and sent at once |
| `StepLaws.ToldToStand` | enclave/raft/raft.cc:1246-1307 | a message to time out does what the timer does, unless the replica leads or the message is of an earlier term |
| `StepLaws.Stands` | enclave/raft/raft.cc:112-142 | a tick that runs out makes a voter stand in the next term, and lead it exactly if it is a quorum by itself |
| `StepLaws.HeartbeatsSent` | enclave/raft/raft.cc:112-142 | a tick that runs out makes a leader send to every follower it can |
| `StepLaws.RequestTaken` | enclave/raft/raft.cc:511-548 | a request answered without error is in the log and under way to the followers, and one that is refused leaves the log as it was |
| `StepLaws.SteppingDown` | enclave/raft/raft.cc:178-190 | a leader asked to step down follows when the call ends, or is waiting for a successor |
| `HashChain.SameHashSameHistory` | enclave/raft/raft.cc:463-491 | two chained logs that share a hash share its index and everything before it |
| `HashChain.HashInputInjective` | enclave/raft/raft.cc:467-490 | the hashed bytes determine index, term and payload |
| `HashChain.BigEndianInjective` | enclave/raft/raft.cc:467-473 | fixed-width big-endian numbers are injective |
| `HashChain.SerializeGroupInjective` | enclave/raft/raft.cc:479-482 | the bytes of a replica group determine it |
| `Quorum.QuorumSizeValue` | enclave/raft/raft.cc:59-63 | the 64-bit quorum formula, wrap included, is everyone up to super_majority voters and a super majority above |
| `Quorum.QuorumOverlap` | enclave/raft/raft.cc:55-63 | two quorums of one voter set share at least min(super_majority + 1, voters) replicas |
| `Quorum.QuorumsMeet` | enclave/raft/raft.cc:55-63 | two quorums of a non-empty voter set have a member in common |
| `Quorum.StepOverlap` | enclave/raft/membership.cc:58-104 | quorums of voter sets one member apart share at least min(super_majority + 1, both sizes) replicas |
| `Quorum.Pick` | enclave/raft/raft.cc:584-625 | the greatest index that at least a quorum has reached exists |
| `Quorum.PickUnique` | enclave/raft/raft.cc:584-625 | that index is unique |
| `Quorum.PickIsSome` | enclave/raft/raft.cc:584-625 | it is some voter's own index |
| `Quorum.PickMonotone` | enclave/raft/raft.cc:574-625 | smaller indexes give a smaller pick, so the commit pick never passes the promise pick |
| `Picks.ElementAtQuorum` | enclave/raft/raft.cc:582-586 | in a descending list, element q-1 is reached by q members and its successor by fewer |
| `Picks.SortDescending` | enclave/raft/raft.cc:582-586 | sorts in descending order and permutes |
| `Picks.QuorumIndex` | enclave/raft/raft.cc:584-586 | sort-and-pick returns the greatest index a quorum has reached |
| `GroupMembership.FromGroupMeans` | enclave/raft/membership.cc:11-27 | a group is accepted exactly if every id is present and none repeats, and gives the listed and the voting ids |
| `GroupMembership.FromProto` | enclave/raft/membership.cc:11-27 | the loop computes that |
| `GroupMembership.GroupSize` | enclave/raft/membership.cc:11-27 | an accepted group has as many members as lines |
| `GroupMembership.AsProto` | enclave/raft/membership.cc:106-116 | what it lists is read back as the same membership |
| `GroupMembership.SetDiffSize` | enclave/raft/membership.cc:37-56 | the two-iterator walk over sorted sets counts the set difference |
| `GroupMembership.CheckProgression` | enclave/raft/membership.cc:58-104 | the checks with the counting walks equal the decision over set differences |
| `GroupMembership.SubsetBySize` | enclave/raft/membership.cc:58-104 | comparing sizes in 64-bit arithmetic decides inclusion |
| `GroupMembership.AcceptedStepOverlaps` | enclave/raft/membership.cc:58-104 | an accepted change keeps the leader a voter, moves at most one voter, keeps the super majority and makes old and new quorums overlap |
| `GroupMembership.StepAllowed` | enclave/raft/membership.cc:58-104 | the checks by sizes of differences accept a step exactly if the leader keeps its vote, a supermajority that was possible stays so, and one member joins or leaves without vote, one member gains or loses its vote, or one voter leaves |
| `BoundedLog.AppendRefines` | enclave/raft/log.cc:114-150 | appending to the bounded log appends to the whole log and drops only entries below the truncation point |
| `BoundedLog.RoomMade` | enclave/raft/log.cc:121-150 | making room drops the fewest entries that will do, and everything that may go where that is not enough |
| `BoundedLog.AppendExactly` | enclave/raft/log.cc:114-141 | which error an append gives, and that it succeeds exactly if the entry is well formed and would fit were everything gone that may go |
| `BoundedLog.AppendAdds` | enclave/raft/log.cc:114-141 | an append takes from the room for entries that stay exactly the size of its entry |
| `BoundedLog.MakeRoomKeepsTail` | enclave/raft/log.cc:121-150 | making room drops from the front only, as far as allowed, and keeps the size bound |
| `BoundedLog.OutOfSpaceMeansFull` | enclave/raft/log.cc:121-126 | an append fails for space only when nothing more may be dropped |
| `BoundedLog.CancelRefines` | enclave/raft/log.cc:43-50 | cancelling cuts the whole log; the byte count stays an upper bound |
| `BoundedLog.StoresLast` | enclave/raft/log.cc:52-107 | reading by index gives the whole log's entry where it is stored and nothing elsewhere |
| `BoundedLog.Log.constructor` | enclave/raft/log.cc:38-41 | a new log is empty and starts at index one |
| `BoundedLog.Log.Append` | enclave/raft/log.cc:114-141 | the deque after the loop is the bounded log's append, and the byte count never underflows |
| `BoundedLog.Log.RemoveOldestLogOlderThan` | enclave/raft/log.cc:143-150 | removes the oldest entry exactly if it lies below the point |
| `BoundedLog.Log.CancelFrom` | enclave/raft/log.cc:43-50 | the deque is cut at the index, or padded with empty entries beyond its end, with the same errors; cutting keeps the byte count an upper bound |
| `BoundedLog.Log.MostRecentHash` | enclave/raft/log.cc:160-168 | the last entry's hash, zeros or nothing |
| `BoundedLog.Log.SetNextIdx` | enclave/raft/log.cc:170-176 | moves the base of an empty log and refuses otherwise |
| `ReplicaInvariant.EffectiveMembership` | enclave/raft/raft.cc:1411-1418 | the membership in force is that of the newest membership entry in the whole log, committed or not, and the group's first one if there is none |
| `ReplicaInvariant.SyncFollowsLog` | enclave/raft/raft.cc:976-1000 | after a commit or a cancel the uncommitted memberships are again exactly the log's membership entries after the commit index, and the committed one is that of the newest entry up to it |
| `ReplicaInvariant.TrackingFollows` | enclave/raft/raft.cc:976-1000 | tracking membership entries from any index on gives the membership a plain fold of the log gives |
| `ReplicaInvariant.GroupIsNewest` | enclave/raft/raft.cc:1411-1418 | that fold is the newest membership entry, and the starting one if there is none |
| `ReplicaInvariant.MembershipsOrdered` | enclave/raft/raft.cc:412-419 | their indexes ascend between commit and last, so the ordering check never fails |
| `ReplicaInvariant.LogAppendKeeps` | enclave/raft/raft.cc:192-231 | an append keeps chain, memberships, indexes and followers in order |
| `ReplicaInvariant.CancelKeeps` | enclave/raft/raft.cc:877-893 | cancelling above the promise succeeds and keeps the invariant for the cut log |
| `ReplicaInvariant.StoreEntryKeeps` | enclave/raft/raft.cc:872-916 | storing one entry keeps the invariant and everything up to the promise |
| `ReplicaInvariant.NewPromiseInLog` | enclave/raft/raft.cc:574-597 | the promise pick lies between the old promise and the end of the log |
| `ReplicaInvariant.NewCommitPromised` | enclave/raft/raft.cc:598-625 | the commit pick lies between the old commit and the new promise |
| `ReplicaInvariant.AdvanceKeeps` | enclave/raft/raft.cc:554-661 | advancing the indexes keeps the invariant |
| `ReplicaInvariant.ResponseKeeps` | enclave/raft/raft.cc:1004-1099 | a response whose match is in the log keeps the invariant if and only if, where a leader would record it, it promises no more than the greater of what it matches and what the follower had matched |
| `ReplicaInvariant.OverpromiseBreaksOrder` | enclave/raft/raft.cc:1182-1244 | a success response that does not fit passes validation, and two of them make a leader of three that has promised nothing commit past its promise |
| `ReplicaInvariant.LeaderOfThree` | enclave/raft/raft.cc:389-410 | such a leader exists: the handlers make one out of three new replicas |
| `ReplicaInvariant.CommittedStored` | enclave/raft/raft.cc:83-93 | the next committed entry is always still stored |
| `ReplicaInvariant.BuiltOk` | enclave/raft/raft.cc:28-40 | a replica just built meets the invariant if and only if its log counts as committed and its membership is the one that log has led to, or the log stores its first entry and holds no change of the group; its indexes then stand at the end of what counts as committed |
| `RaftReplica.Raft.constructor` | enclave/raft/raft.cc:19-53 | creates both leaves before it updates either, builds around any log fit to build around, makes the only voter leader at once, meets the invariant with the tree valid and all other leaves as they were, and never has a message queued at the end |
| `RaftReplica.Raft.UpdateMerkleTree` | enclave/raft/raft.cc:1456-1460 | gives both leaves the marks of the entries at the two indexes, which leaves the tree valid and other leaves as they were, also when both await their first update |
| `RaftReplica.Raft.VerifyMerkleTree` | enclave/raft/raft.cc:1462-1473 | the check of commit and promise never fails: whatever moves an index updates its leaf, and entries are dropped and cut only where neither index stands |
| `RaftReplica.MarksStored` | enclave/raft/raft.cc:1442-1460 | the entries at the commit and promise indexes are always stored, so the mark read from the bounded log is that of the whole log |
| `RaftReplica.Raft.SendableMessages` | enclave/raft/raft.h:162 | hands out the queued messages, each once |
| `RaftReplica.Raft.SetRole` | enclave/raft/raft.cc:74-81 | changes the role and clears leader, votes, followers and the relinquishing flag with it; log, term and indexes stay |
| `RaftReplica.Raft.TakeCommittedLog` | enclave/raft/raft.cc:83-93 | hands out the committed entries in order, each once; its check never fails |
| `RaftReplica.Raft.TimerTick` | enclave/raft/raft.cc:112-142 | equals the tick of the replica function with its Merkle check passed, for any clock, and keeps the invariant, what is promised and other leaves |
| `RaftReplica.Raft.ResetPeer` | enclave/raft/raft.cc:144-169 | equals the function and keeps the invariant, for any peer, itself included unless it is a candidate, when the code fails a CHECK |
| `RaftReplica.Raft.RelinquishLeadership` | enclave/raft/raft.cc:178-190 | equals the function and keeps the invariant, what is promised and other leaves |
| `RaftReplica.Raft.LogAppend` | enclave/raft/raft.cc:192-231 | equals the function; the log grows by the entry exactly on success |
| `RaftReplica.Raft.ElectionTimeout` | enclave/raft/raft.cc:233-296 | equals the function and keeps the invariant |
| `RaftReplica.Raft.AppendEntries` | enclave/raft/raft.cc:298-387 | one follower's request and record equal the function of the state before, of which `ReplicaLaws.RequestMeans` says what it carries |
| `RaftReplica.Raft.EntriesFrom` | enclave/raft/raft.cc:333-358 | the iterator loop takes a chunk's worth of entries |
| `RaftReplica.Raft.MaybeBecomeLeader` | enclave/raft/raft.cc:389-410 | equals the function and keeps the invariant |
| `RaftReplica.Raft.AddUncommittedMembership` | enclave/raft/raft.cc:412-419 | equals the function; followers match the membership again |
| `RaftReplica.Raft.HandleMembershipChange` | enclave/raft/raft.cc:421-461 | the two loops leave exactly the other members as followers, old ones unchanged |
| `RaftReplica.Raft.NextHash` | enclave/raft/raft.cc:463-491 | the hash that continues the chain of the whole log |
| `RaftReplica.Raft.ClientRequestInternal` | enclave/raft/raft.cc:493-509 | equals the function and keeps the invariant |
| `RaftReplica.Raft.LogRequest` | enclave/raft/raft.cc:511-548 | equals the function, membership checks by the counting loops included, and keeps the invariant, what is promised and other leaves |
| `RaftReplica.Raft.VoterIndexes` | enclave/raft/raft.cc:574-581 | the loop lists each voting follower's stored and promised index once |
| `RaftReplica.Raft.MaybeAdvanceCommitIndex` | enclave/raft/raft.cc:554-661 | collecting, sorting and picking equals the function of `ReplicaLaws.AdvanceMeans`: exactly what a quorum stores is promised and exactly what a quorum has promised is committed |
| `RaftReplica.Raft.SendHeartbeats` | enclave/raft/raft.cc:657-659 | the loop marks every follower |
| `RaftReplica.Raft.HandleVoteRequest` | enclave/raft/raft.cc:670-722 | equals the function of `ReplicaLaws.VoteMeans`, which says exactly when a vote is granted, and keeps the invariant |
| `RaftReplica.Raft.HandleVoteResponse` | enclave/raft/raft.cc:724-746 | equals the function and keeps the invariant |
| `RaftReplica.Raft.HandleAppendRequest` | enclave/raft/raft.cc:748-974 | equals, with its Merkle check passed, the function of `AppendLaws.AppendRequestMeans` and `AppendLaws.AppendRefusedMeans`, which say exactly what is stored, advanced and answered, and keeps the invariant and what is promised |
| `RaftReplica.Raft.StoreMessageEntries` | enclave/raft/raft.cc:872-916 | the loop stores entries up to the first that is refused and keeps everything promised |
| `RaftReplica.Raft.StoreEntry` | enclave/raft/raft.cc:872-916 | equals the function; a conflict at or below the promise is refused, so what is promised stays |
| `RaftReplica.Raft.FinishAppend` | enclave/raft/raft.cc:918-971 | equals the function with its Merkle check passed; the leaves follow the indexes |
| `RaftReplica.Raft.MaybeChangeUncommittedMembershipsBasedOnLog` | enclave/raft/raft.cc:976-1002 | the two loops promote and discard as the function says |
| `RaftReplica.Raft.HandleAppendResponse` | enclave/raft/raft.cc:1004-1099 | equals the function; its hash check never fails on a validated message, and the replica stays in order if and only if the response fits |
| `RaftReplica.Raft.BackOffFrom` | enclave/raft/raft.cc:1082-1099 | the loop steps back a chunk's worth and stays above the match |
| `RaftReplica.Raft.AddSendableMessage` | enclave/raft/raft.cc:1101-1113 | queues the message under the current term and group; every caller shows that it is not to the sender |
| `RaftReplica.Raft.UpdateTerm` | enclave/raft/raft.cc:1115-1144 | equals the function and keeps the invariant |
| `RaftReplica.Raft.CheckHash` | enclave/raft/raft.cc:1157-1180 | equals the function, error by error; the entry compared with is always there |
| `RaftReplica.Raft.ValidateReceivedMessage` | enclave/raft/raft.cc:1182-1244 | equals the function, error by error |
| `RaftReplica.Raft.Receive` | enclave/raft/raft.cc:1246-1307 | equals the function the system steps by, with both Merkle checks passed, and keeps the invariant, what is promised and other leaves for every message but a response that does not fit |
| `RaftReplica.Raft.MaybeChangeStateAndSendMessages` | enclave/raft/raft.cc:1309-1324 | equals the function with its Merkle check passed, keeps the invariant and never shortens the log |
| `RaftReplica.Raft.TryToRelinquishLeadership` | enclave/raft/raft.cc:1326-1355 | hands over to the least voter that has the whole log, if there is one |
| `Keys.First` | enclave/db/db2.cc:287-314 | the first key in lexicographic order exists and is unique |
| `Keys.RowsAreWindow` | enclave/db/db2.cc:287-314 | a chunk of rows is exactly the part of the database between the cursor and the last row sent, and is short only at the end |
| `Keys.RowsCounted` | enclave/db/db2.cc:287-314 | the walk returns as many rows as asked for, or all there are |
| `Database.RunInside` | enclave/core/core.cc:1271-1290 | a request with a key in the loaded range acts on the part as on the whole |
| `Database.RunOutside` | enclave/core/core.cc:1271-1290 | any other request leaves the part as it is |
| `Transfer.SendDescribes` | enclave/core/core.cc:1158-1237 | a push holds exactly the entries and rows between two points, for any limit and any row size |
| `Transfer.MaybeApplyAgrees` | enclave/core/core.cc:1314-1332 | applying a received entry to the loaded part gives the part of the sender's next database |
| `Transfer.EntriesAgree` | enclave/core/core.cc:1271-1297 | so do all entries of a push |
| `Transfer.PushAgrees` | enclave/core/core.cc:1239-1312 | an accepted push takes the receiver from one point to the next |
| `Transfer.LinkRunOk` | enclave/core/core.cc:1158-1332 | over every run of sends, deliveries and entries applied meanwhile the pushes in flight lead from the receiver's point to the cursor's |
| `Transfer.TransferExact` | enclave/core/core.cc:1158-1332 | once the final push is accepted the receiver's database is the sender's at the receiver's last log index, and the receiver's log stores the end of the sender's up to there |
| `TransferProgress.DeliveredIff` | enclave/core/core.cc:1239-1332 | over every run of a transfer the next push under way is accepted if and only if its group can be read, each of its entries is well formed and fits beside the one before it, its data whose key has been loaded can be read and is valid, and its rows pass the check on rows; ids, numbers and indexes never stand in the way |
| `TransferProgress.RunNumbered` | enclave/core/core.cc:1246-1256 | over every run the pushes under way carry the receiver's id and the numbers it expects, in order, up to the sender's next |
| `TransferProgress.AcceptedNumber` | enclave/core/core.cc:1239-1256 | whatever is accepted, from whomever, has the transfer's id, the number expected, and goes on where the log ends |
| `TransferProgress.PushTakenIff` | enclave/core/core.cc:1239-1312 | the same condition for one push, wherever the receiver stands |
| `TransferProgress.EntriesTaken` | enclave/core/core.cc:1291-1297 | the entries of a push are taken exactly if all fit and all can be read where it matters |
| `TransferProgress.AppendFits` | enclave/raft/log.cc:114-141 | an append that may drop all but the last entry succeeds exactly if the entry is well formed and fits beside that one |
| `TransferProgress.ApplyReads` | enclave/core/core.cc:1314-1332 | a received entry is refused exactly if its data should be applied but cannot be read, or is in the loaded range and not valid; only the database changes |
| `TransferProgress.RowsTaken` | enclave/core/core.cc:1299-1310 | the rows of a push are taken exactly if each passes the check on rows: their order never fails |
| `TransferProgress.RowsAreSent` | enclave/core/core.cc:1186-1212 | every row under way is a row of the sender's database at some index of its log |
| `TransferProgress.ChunkIsFull` | enclave/core/core.cc:1166-1182 | the entries of a push end at the last applied one or where the size is reached, and there is one if any is left; rows follow only in the first case |
| `TransferProgress.RowsFit` | enclave/core/core.cc:1187-1192 | after the last applied entry a push asks for as many rows as are sure to fit and no fewer, and before it for none |
| `TransferProgress.LastIff` | enclave/core/core.cc:1187-1209 | such a push carries as many rows as it has room for or all that are left, and is the last exactly if it has room for more than those |
| `TransferProgress.PushMovesOn` | enclave/core/core.cc:1158-1237 | a push carries entries or rows that were still to be sent, or is the last, if and only if entries are left to send or there is room for one row; otherwise it changes nothing but the number |
| `Transfer.TransferInvariant` | enclave/core/core.cc:1271-1290 | at every moment the loaded part is the sender's database at the index of the receiver's log, up to the largest loaded key; the log is empty only before the first entry |
| `Transfer.TransferGroup` | enclave/core/core.cc:1239-1263 | a receiver that has finished has the membership sent with the last push, and what the sender had applied when it made that push is what the receiver has |
| `Transfer.LastPush` | enclave/core/core.cc:1158-1263 | over every run of a transfer that is past its last push, all that was applied at that push and no more is on the way, with the group it carried |
| `Core.Loaded.RaftHandleCommittedLogs` | enclave/core/core.cc:1658-1694 | the loop leaves the database equal to the fold of the committed log, each entry once and in order, for a founder and for a replica promoted from a transfer |
| `Core.Loaded.ApplyNext` | enclave/core/core.cc:1658-1694 | one turn of it applies the next committed entry or finds none; the check of the applied index never fails |
| `Core.Loaded.VerifyLastAppliedLog` | enclave/core/core.cc:1828-1835 | the CHECK on the applied index never fails |
| `Core.Loaded.UpdateLastAppliedLog` | enclave/core/core.cc:1837-1845 | moves the index and its leaf together; Raft's leaves and all others stay as they were |
| `Core.Loaded.RaftApplyLogToDatabase` | enclave/core/core.cc:1739-1754 | applies a data entry and leaves the database alone for any other |
| `Core.Loaded.RaftStep` | enclave/core/core.cc:1458-1463 | sends what is queued, leaves nothing committed unapplied, and changes nothing else of the replica |
| `Core.Loaded.HandleRaftMessage` | enclave/core/core.cc:1009-1018 | the replica steps by the message as the system's function says, its messages go out, the database is afterwards the fold of the committed log, all of it applied, and what had been applied is still its beginning |
| `Core.Loaded.HandleTimerTick` | enclave/core/core.cc:861-880 | the same for a tick, which makes a leader also ask for the next group if there is one |
| `Core.Loaded.FromTransfer` | enclave/core/core.cc:593-616 | a replica that joins starts valid with the database it was sent, at the index it has applied, with a leaf for that index |
| `Core.PromoteRaftToLoaded` | enclave/core/core.cc:593-616 | what a finished transfer leaves becomes a replica that is up: applied index at the last index of the log, database the fold of the log up to there, Raft built around the committed log on the shared tree, whether or not it has a vote already |
| `Core.ReplicationPushState.SendNextReplicationState` | enclave/core/core.cc:1158-1237 | the push and the moved cursor are those of the function, with a group that reads back as the committed membership |
| `Core.ReplicationPushState.NextEntries` | enclave/core/core.cc:1166-1182 | the loop takes the entries from the cursor to the last applied one, a chunk's worth |
| `Core.LoadingReplica.HandleReplicateStatePush` | enclave/core/core.cc:1239-1312 | equals, error by error, the receiver's function, of which `TransferProgress.DeliveredIff` says exactly when it accepts |
| `Core.LoadingReplica.AppendAll` | enclave/core/core.cc:1291-1297 | equals taking the entries one by one |
| `Core.LoadingReplica.MaybeApplyLogToReplicatingDatabase` | enclave/core/core.cc:1314-1332 | equals the function |
| `Core.LoadingReplica.LoadRowsFromProtos` | enclave/db/db2.cc:318-366 | loads rows until one is refused and returns the last key |
| `Agreement.DatabasesAgree` | enclave/core/core.cc:1658-1694 | replicas that have applied as many entries, at any two moments of a run, joined ones included, hold equal databases |
| `Agreement.LoadedIsSource` | enclave/core/core.cc:1158-1175 | a replica that is up meets what the transfer asks of a sender, its oldest entry being the first or applied |
| `Agreement.TransferLeaves` | enclave/core/core.cc:1158-1332 | a complete transfer from a replica of a run leaves the end of that replica's log up to an index, the database there, and the newest membership up to there, which has the group's voters |
| `Agreement.JoinerAgrees` | enclave/core/core.cc:593-616 | a replica that joined by transfer starts at its last log index with the fold of what counts as taken, only extends that, and at every later moment holds the database of every replica that has applied as many entries |
| `Agreement.TransferEnrols` | enclave/core/core.cc:593-616 | what a complete transfer leaves is all the group asks of one that joins, its membership included |
| `Agreement.TransferPromotes` | enclave/core/core.cc:593-616 | and all that making a replica of it asks |
| `Agreement.JoinerHasNoVote` | enclave/core/core.cc:593-616 | a replica with a new id has no vote in the membership it was sent |
| `Agreement.TransferKeepsBudget` | enclave/db/db2.cc:318-366 | at every moment of a transfer each loaded row's tries and wrong guesses since its latest backup in the log received add up to that backup's maximum, though the load check lets zero tries pass |
| `Agreement.TransferKeepsEvaluations` | enclave/db/db3.cc:161-207 | the same for keys and evaluations of the third database |
| `Agreement.BackupsDelivered` | enclave/db/db2.cc:318-366 | no row of a transfer is ever refused: over every run the next push is accepted if and only if its group can be read and its entries fit and can be read |
| `Agreement.ScalarsDelivered` | enclave/db/db3.cc:161-207 | the same for the third database |
| `Agreement.GroupBudget` | enclave/db/db2.cc:181-215 | in every run, on every replica, tries and wrong guesses since the latest backup in its log add up to the maximum, and those logs are prefixes of one another |
| `Agreement.GroupEvaluations` | enclave/db/db3.cc:296-333 | the same for evaluations |
| `Db2.RowIsHistory` | enclave/db/db2.cc:160-273 | the row is what the latest backup and the requests since make it |
| `Db2.GuessBudget` | enclave/db/db2.cc:160-215 | tries left and wrong guesses since the backup add up to max_tries; tries are 1 to 255 and the 8-bit decrement never wraps |
| `Db2.RestoreMeetsHistory` | enclave/db/db2.cc:181-215 | a restore gives data exactly if the latest backup stored it under this pin, was exposed, not deleted, and fewer than max_tries wrong pins followed |
| `Db2.NoBackupNoRestore` | enclave/db/db2.cc:181-188 | without a backup a restore finds nothing |
| `Db2.TriesMeetsHistory` | enclave/db/db2.cc:275-285 | a tries request finds a row exactly if the latest backup is not deleted and guesses are left, and tells how many and whether it was exposed |
| `Db2.ExposeMeetsHistory` | enclave/db/db2.cc:227-273 | an expose is answered with success exactly if the latest backup is not deleted, guesses are left, and the request's data starts with the backup's |
| `Db2.NoBackupNoExpose` | enclave/db/db2.cc:227-285 | before any backup an expose is answered with an error and a query for tries finds nothing |
| `Db2.AnsweredInKind` | enclave/db/db2.cc:113-150 | every request is answered in its own kind, backups and deletes with success |
| `Db2.ExposedFirst` | enclave/db/db2.cc:227-273 | no guess counts before the backup is exposed |
| `Db2.WrongGuessCosts` | enclave/db/db2.cc:181-215 | for any row the load check accepts, a wrong pin costs one try if and only if the row has tries left; at zero the decrement wraps to 255 |
| `Db2.StepKeepsRowOk` | enclave/db/db2.cc:160-273 | every request keeps a row within its bounds |
| `Db2.BackupAdmitted` | enclave/db/db2.cc:65-103 | a backup is admitted exactly if the row it leaves is in order |
| `Db2.AdmittedTogether` | enclave/db/db2.cc:65-103 | and exactly if its data could be exposed, its pin could restore, and its tries are from 1 to 255 |
| `Db2.HashRowInjective` | enclave/db/db2.cc:377-396 | the bytes hashed into a leaf determine the row and its ID |
| `Db2.RowsAreIndependent` | enclave/db/db2.cc:113-150 | after any log, the row of an id depends only on the requests for that id, in order |
| `Db2.LogBudget` | enclave/db/db2.cc:113-215 | after any log every row is that of its latest backup, with tries and wrong guesses since adding up to the maximum |
| `Db2.FoldRowsOk` | enclave/db/db2.cc:113-150 | every database the log can produce is within bounds |
| `Db2.Db2ProtocolOk` | enclave/db/db2.cc:65-103 | the database meets what the transfer asks of one |
| `Db2.Database2.RunBackup` | enclave/db/db2.cc:160-179 | row and reply are those of the history's step; the leaf in the tree is brought up to date and no other leaf changes |
| `Db2.Database2.RunRestore` | enclave/db/db2.cc:181-215 | the same; the walk from the row's leaf to the root never fails, so it never answers with an error |
| `Db2.Database2.RunDelete` | enclave/db/db2.cc:217-225 | the same, with the leaf taken out of the tree |
| `Db2.Database2.RunExpose` | enclave/db/db2.cc:227-273 | the same; the walk from the row's leaf to the root never fails |
| `Db2.Database2.RunLog` | enclave/db/db2.cc:113-150 | dispatches so that the rows are the log's fold one entry further, with the tree valid and other leaves unchanged |
| `Db3.RowIsHistory` | enclave/db/db3.cc:261-346 | the row is what the latest successful creation and the requests since make it |
| `Db3.EvaluationBudget` | enclave/db/db3.cc:261-333 | tries left and evaluations since the creation add up to max_tries; tries are 1 to 255 and the decrement never wraps |
| `Db3.EvaluateMeetsHistory` | enclave/db/db3.cc:296-333 | an evaluation answers exactly if a creation stands, was not removed and has tries left |
| `Db3.QueryMeetsHistory` | enclave/db/db3.cc:348-361 | a query finds a key exactly if the latest one is not removed and evaluations are left, and tells how many |
| `Db3.CreateMeetsHistory` | enclave/db/db3.cc:261-294 | a create is answered with its element evaluated under its key exactly if that can be done, whatever went before, and that key is then the row's |
| `Db3.NoCreateNoAnswer` | enclave/db/db3.cc:296-361 | before any create that succeeds evaluations and queries find nothing |
| `Db3.AnsweredInKind` | enclave/db/db3.cc:107-135 | every request is answered in its own kind, a removal with success |
| `Db3.CreateAdmitted` | enclave/db/db3.cc:54-89 | a create that can be evaluated is admitted exactly if its element could be sent for evaluation and the row it leaves passes the load check |
| `Db3.HashRowInjective` | enclave/db/db3.cc:209-224 | the bytes hashed into a leaf determine the row and its ID |
| `Db3.RowsAreIndependent` | enclave/db/db3.cc:107-135 | after any log, the row of an id depends only on the requests for that id, in order |
| `Db3.LogBudget` | enclave/db/db3.cc:107-333 | after any log every row is that of its latest creation, with tries and evaluations since adding up to the maximum |
| `Db3.FoldRowsOk` | enclave/db/db3.cc:107-135 | every database the log can produce is within bounds |
| `Db3.Db3ProtocolOk` | enclave/db/db3.cc:54-89 | the database meets what the transfer asks of one |
| `Db3.Database3.RunCreate` | enclave/db/db3.cc:261-294 | row and reply are those of the history's step; the leaf in the tree is brought up to date and no other leaf changes |
| `Db3.Database3.RunEvaluate` | enclave/db/db3.cc:296-333 | the same; the walk from the row's leaf to the root never fails |
| `Db3.Database3.RunRemove` | enclave/db/db3.cc:335-346 | the same, with the leaf taken out of the tree |
| `Db3.Database3.RunLog` | enclave/db/db3.cc:107-135 | dispatches so that the rows are the log's fold one entry further, with the tree valid and other leaves unchanged |
| `GuardedRows.LeafRows.constructor` | enclave/db/db2.cc:105-107 | a database starts empty on a shared valid tree |
| `GuardedRows.LeafRows.Store` | enclave/db/db2.cc:160-179 | writing a row, new or old, keeps the tree valid, every row guarded by a leaf of its own that holds its hash, and all other leaves as they were |
| `GuardedRows.LeafRows.Erase` | enclave/db/db2.cc:217-225 | so does erasing one, pruning included |
| `GuardedRows.LeafRows.Verify` | enclave/db/db2.cc:188-194 | verifying a row's hash up to the root always succeeds |
| `GuardedRows.LeafRows.Load` | enclave/db/db2.cc:341-357 | a loaded row whose leaf is created, updated and moved to where the row stays is guarded there |
| `GuardedRows.LeafRows.LoadRowsFromProtos` | enclave/db/db2.cc:318-366 | loads rows until one is refused, as the receiver of a transfer does, with every row guarded throughout |
| `Merkle.PerformAll` | enclave/merkle/merkle.cc:54-189 | over every run of creating, updating, moving and destroying leaves, in any order, the tree holds what a plain map would, and it is valid exactly when no leaf awaits its first update |
| `Merkle.ValidVerifies` | enclave/merkle/merkle.cc:154-166 | in a valid tree a leaf verifies exactly against the value last given to it |
| `Merkle.RollbackIsFound` | enclave/merkle/merkle.h:103-111 | whatever hashes in nodes and leaves are put back to older ones, so long as the root's is not, nothing verifies but the values last given |
| `Merkle.LeavesLevel` | enclave/merkle/merkle.cc:114-152 | all leaves have the same depth |
| `Merkle.PathUp` | enclave/merkle/merkle.cc:114-152 | parent pointers lead from every node to the root without a circle |
| `Merkle.CoveredOffPath` | enclave/merkle/merkle.cc:54-57 | of the stale nodes, those not on the way up from a leaf are above another leaf that awaits its update |
| `Merkle.StoreStep` | enclave/merkle/merkle.cc:54-57 | storing a node's hash makes it right; of the others at most the nodes above it become stale |
| `Merkle.LeafWrite` | enclave/merkle/merkle.cc:178-181 | giving a leaf a value changes no other leaf's and makes at most the node it is in stale |
| `Merkle.AddNodeKeeps` | enclave/merkle/merkle.cc:143-145 | a new node keeps the shape, every value and every other hash; only it becomes stale |
| `Merkle.GrowKeeps` | enclave/merkle/merkle.cc:118-142 | a new root over a full tree keeps the shape, every value and every other hash, also where some are stale; only it becomes stale |
| `Merkle.DropLeafKeeps` | enclave/merkle/merkle.cc:59-69 | taking a leaf out removes its value only and makes at most the node it was in stale |
| `Merkle.DropNodeKeeps` | enclave/merkle/merkle.cc:168-176 | pruning an empty node changes no value and makes at most its parent stale |
| `Merkle.MoveLeafKeeps` | enclave/merkle/merkle.cc:71-82 | replacing a leaf in its slot moves its value and no hash |
| `Merkle.Tree.constructor` | enclave/merkle/merkle.cc:191-200 | a tree starts valid with one node and no value |
| `Merkle.Tree.UpdateNode` | enclave/merkle/merkle.cc:54-57 | the recursion to the root makes the hashes along its way right and leaves all others as they were |
| `Merkle.Tree.Update` | enclave/merkle/merkle.cc:178-181 | sets the leaf's value, no other, and repairs what creating the leaf left stale, while other leaves may still await their update |
| `Merkle.Tree.Verify` | enclave/merkle/merkle.cc:154-166 | in any tree whose links are whole, succeeds exactly if the leaf's hash and every node's above it check out |
| `Merkle.Tree.Confirm` | enclave/merkle/merkle.cc:154-166 | in a valid tree a leaf verifies exactly against the value last given to it |
| `Merkle.Tree.Find` | enclave/merkle/merkle.cc:94-103 | the loop finds the first slot that holds the part |
| `Merkle.Tree.Climb` | enclave/merkle/merkle.cc:114-117 | ends at the lowest ancestor with room, or at a full root |
| `Merkle.Tree.MakeRoot` | enclave/merkle/merkle.cc:118-142 | grows the tree by one level |
| `Merkle.Tree.NewChild` | enclave/merkle/merkle.cc:143-145 | hangs a new empty node one level down |
| `Merkle.Tree.CurrentWithSpace` | enclave/merkle/merkle.cc:114-152 | returns the current node, never full, at leaf level, with every value kept and new stale hashes only above it, whatever was stale before |
| `Merkle.Tree.Create` | enclave/merkle/merkle.cc:110-112 | adds the leaf with value zero and leaves new stale hashes only above it, also while other leaves await their first update |
| `Merkle.Tree.Destroy` | enclave/merkle/merkle.cc:168-176 | removes the leaf's value only, repairs the hashes above it, and leaves every remaining node but root and current non-empty, also while leaves await their update |
| `Merkle.Tree.Prune` | enclave/merkle/merkle.cc:168-176 | deletes emptied nodes upwards and stops at the root, the current node or a node in use |
| `Merkle.Tree.Move` | enclave/merkle/merkle.cc:183-189 | the new leaf has the old one's value, awaits its update if the old one did, and nothing else changes |
| `Noise.RoundTrip` | enclave/noise/noise.cc:13-63 | for every length, what is sealed fills exactly the size set aside and opens to the plaintext, both ends then in one state |
| `Noise.OpensOnlySealed` | enclave/noise/noise.cc:47-63 | whatever opens is what sealing its plaintext gives, if and only if it is not empty and does not end in an empty packet |
| `Noise.FinalSizeStep` | enclave/noise/noise.cc:28-32 | the size formula is one packet, or a full packet and the formula for the rest |
| `Noise.Encrypt` | enclave/noise/noise.cc:13-45 | the loop writes inside its buffer, in packets of at most 65535 bytes, and gives the chunked sealing or an error |
| `Noise.Decrypt` | enclave/noise/noise.cc:47-63 | the loop stays inside its buffer and gives the chunked opening or an error |
| `Noise.CipherState.EncryptInPlace` | enclave/noise/noise.cc:38-42 | one packet, in place, of at most 65535 bytes |
| `Peers.InStep` | enclave/peers/peers.cc:84-134 | after any number of messages received in order the receiver has read exactly those and its key, nonce and count are the sender's |
| `Peers.SendsInBlocks` | enclave/peers/peers.cc:70-98 | a connection sends any number of messages as blocks of 256, each sealed message by message under one key, and changes the key once after each whole block and at no other time |
| `Peers.RecvsInBlocks` | enclave/peers/peers.cc:120-134 | and it opens them so |
| `Peers.SendsOfOneKey` | enclave/peers/peers.cc:84-93 | from any count up to the 256th message of a key the state is that of plain sealing; with the 256th it is the new key of that state |
| `Peers.RecvsOfOneKey` | enclave/peers/peers.cc:125-134 | the same for opening |
| `Peers.CountOfMessages` | enclave/peers/peers.cc:91-93 | the 8-bit count is the number of messages modulo 256, from any count |
| `Peers.SendsCompose` | enclave/peers/peers.cc:70-98 | a run of sends followed by another is one run |
| `Peers.RecvsCompose` | enclave/peers/peers.cc:120-134 | and so for receives, so single calls compose to the runs above |
| `Peers.Peer.Connect` | enclave/peers/peers.cc:200-204 | a finished handshake starts both directions at count zero |
| `Peers.Peer.Send` | enclave/peers/peers.cc:70-98 | sends as the run of messages says, which `Peers.SendsInBlocks` gives in blocks of one key; a failing cipher disconnects and resets |
| `Peers.Peer.Recv` | enclave/peers/peers.cc:120-134 | reads as the run of messages says, which `Peers.RecvsInBlocks` gives in blocks of one key; a failing cipher disconnects and resets |
| `Peers.Peer.Disconnect` | enclave/peers/peers.cc:385-393 | clears both ciphers, the handshake and the counts |
| `Base64.RoundTrip` | enclave/util/base64.cc:60-119 | decoding undoes encoding for every byte string, in both alphabets, padded or not |
| `Base64.OtherWay` | enclave/util/base64.cc:60-93 | encoding undoes decoding exactly for texts with no loose character and no dropped bit set |
| `Base64.EncodedIsAscii` | enclave/util/base64.cc:95-119 | what is encoded is ASCII, so it may be decoded in place whether or not char is signed |
| `Base64.TablesAgree` | enclave/util/base64.cc:11-53 | the decode table inverts the encode table and knows no other character |
| `Base64.Encode` | enclave/util/base64.cc:95-119 | the shift-register loop gives the 24-bit groups of RFC 4648 |
| `Base64.Load` | enclave/util/base64.cc:101-103 | no bit still needed is shifted out of the 16-bit word |
| `Base64.Accumulate` | enclave/util/base64.cc:83-89 | nor on the way back; the byte written is the group's |
| `Base64.DecodeInline` | enclave/util/base64.cc:60-93 | decoding in place gives the groups' bytes or the right error, and writing never overtakes reading |

## Left out

- Attestation, X.509, CBOR, TPM, SGX and Nitro code, the environment and the sockets: wrappers over foreign libraries and I/O.
- The Noise handshake, SipHash, SHA-256, HMAC and ristretto arithmetic: HMAC in the hash chain is an injective constructor, SipHash and the ciphers are parameters, and only `Merkle.RollbackIsFound` asks the hash to be injective.
- The host: web handlers, Redis, rate limits, configuration, command-line tools and the peer transport, whose restarts of numbering give no exactly-once delivery to rely on.
- Locks, metrics, logging, CPU accounting and the protobuf encoding: each public call is one step, serialisation is injective or a parameter, and serialised sizes are stand-ins.
- Liveness, timer values and random election timeouts: a timeout may happen at any tick.
- Changes of the voter set in the theorems about runs: they are stated for fixed voters, which all start from the same committed log, members that do not vote may change and join, and overlap across one accepted step is a theorem of its own.
- The order and number of messages waiting to be sent: the outbox is a set, which the network, free to reorder and duplicate, cannot tell apart.
- last_seen_ticks, Reconfigure, Copy and the replication status of raft.cc: bookkeeping that no property here depends on.
- The join protocol around a transfer (requests, retries, time-outs, the request for membership after promotion), Core's state of being part of a group, client transactions, and the tree's destructor.
- Hashes of whole databases: they would only add easy members.
- BoundedLog.Log.CancelFrom: promises the byte bound only up to one past the end; beyond it the code pads the log with empty entries that it does not count, and no caller does that.
- RaftReplica.Raft.Receive: asks of a response that it fits, which the code does not check on arrival and which is exactly what keeps the order of the indexes (`ReplicaInvariant.ResponseKeeps`, `ReplicaInvariant.OverpromiseBreaksOrder`); `RaftSafety.StepOk` shows that every response a replica sends does.
- Core.Loaded.HandleRaftMessage: asks the same.
- RaftReplica.Raft.constructor: asks for a log that is fit to build around, which is exactly what makes the new replica meet its invariant (`ReplicaInvariant.BuiltOk`); the code looks at none of it, and Core builds only around an empty log and around what a transfer leaves. That the only voter is alone is what a CHECK of the code demands.
- Agreement.TransferEnrols: like the other theorems about complete transfers, asks that the sender has applied all it has committed when it makes its last push; `Core.Loaded.HandleRaftMessage` and `Core.Loaded.HandleTimerTick` leave it so, and pushes are made between such calls.
- RaftTheorems.SameHashSameLog: asks for indexes and terms below 2^64, which is their type in the code.
- RaftTheorems.HashMatchingTheorem: asks for the same of the one index and the two terms compared.
- RaftTheorems.CommitSafety: compares entries at indexes that both replicas still store; `RaftTheorems.CommittedAgree` and `RaftTheorems.TakenAgree` say it for dropped entries.
- Transfer.TransferExact: asks that the sender has a stored entry to start from and does not drop entries the cursor has not passed, without which the code itself refuses or skips.
- Noise.Encrypt: the tag is from 1 to 65534 bytes long; sizes are not bounded by 64 bits.
- Base64.DecodeInline: where char is signed it asks for characters below 128 before the padding, because the code would look up others outside its table; where char is unsigned it asks nothing.
- Merkle.RollbackIsFound: links between nodes are taken to be intact; only hashes are rolled back.
- Merkle.Tree.Create: asks for an address without a leaf, which is what the allocator gives.
