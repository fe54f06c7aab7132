# A verified model of the porcupine checker, Raft log replication, MapReduce and the crawlers

The project models, in Dafny, the parts of the repository that carry its hardest promises, and
proves them. `dafny verify dfyconfig.toml` checks everything. It follows the code; where the
code's comments say otherwise, this file says so.

**Porcupine** (`labs/src/porcupine`, `labs/src/models/kv.go`). `checkSingle` decides whether a
concurrent history is linearizable: a backtracking search over a doubly linked list of call and
return entries edited in place, an explicit call stack, a bit set of linearized operations and a
memo table keyed by its hash. `Linearizability` states what is decided, with no reference to the
search. `EntryList` has the nodes, `Bitset` and `SearchCache` the bit set and the memo table,
`Search` the invariants of the loop on values, and `Checker` the search itself. The main results:

- `Checker.CheckSingle` terminates and, unless it is killed, answers true exactly when the history
  is linearizable, although the memo table prunes paths; on a failure the partial linearizations
  it records are the longest ones for each operation.
- `Locality.StoreIsLocal` is the locality theorem: a history on many keys is linearizable for a
  key-value store if and only if each key's operations are linearizable for that key's value.
- `Parallel.VerdictSound` is about every interleaving of workers, timeout and main loop.
- `CheckOperations.KvVerdict` puts it all together: unless it timed out, the check of a key-value
  history says `Ok` exactly when the whole history is linearizable for a key-value store.

`Equal` on states may be any preorder that `Step` respects. Real time comes from the clock times
of a history (`Operation`) or from the order of its events (`Event`). Because `sort.Sort` breaks
ties in any order, the entries of an `Operation` history stand for it exactly when every call is
before its return and no call falls on the very instant of a return
(`Entries.SortSafeIffClearTimes`).

**Raft** (`labs/src/raft/raft.go`). `RaftHandlers` has one server's handlers as methods of a class,
each proved against a function on values. `RaftCluster` is a cluster over a network that loses,
repeats and reorders messages, with crashes that keep only what was persisted. The hypothesis on
runs is that in each term at most one server acts as leader, which means: sends AppendEntries
requests or appends to its log. `RaftRuns` proves Log Matching across servers and across time, and
what follows from it, for every such run. A server may come to power at any moment, and the leader
loop goes on until its server is a follower, as in the code.

`RaftRollback` proves that the fast roll-back of `nextIndex` converges, and says of every rejection
in every run, however late it arrives, exactly when it sets `nextIndex` to 0, where the leader
indexes its log at -1, when to PrevLogIndex or less, and when no further back than the logs agree
(`RaftRollback.EveryRejection`). The first happens exactly if the follower held only the sentinel
entry when it answered: `RaftWitnesses.HeartbeatLeadsToPanic` is such a run, from the start, with
one heartbeat. The other two always hold while the leader is in the term of the request
(`RaftRollback.RejectionInRun`). The reply handler does not check that it is, and
`RaftWitnesses.LateRejectionMovesForward` is a run in which both fail.

`RaftCommit` proves that a leader commits only what a majority has held, in runs in which success
replies are handled in the term of their request. The handler does not check this either:
`RaftWitnesses.CommitWithoutMajority` is a run, which the code's elections allow, in which a leader
commits an entry that nobody else has ever held. An accepted request can also lower the commit
index, and `RaftRuns.CommitFallsIff` says when.

**MapReduce** (`labs/src/mr`, `labs/src/main/mrsequential.go`, `labs/src/mrapps/wc.go`). `Shuffle`
proves that the output of the distributed program is a permutation of the sequential program's,
for every number of buckets, every hash, and every order and number of task executions.
`WordCount` is the instance for word count. `Master` is the lease-based master over every run of
requests, responses and timers. The comment at `labs/src/mr/master.go:94` says that a response is
ignored if its worker took more than ten seconds; the code measures from the latest lease of the
task, so the response of a worker that lost its lease can be counted, and counted again. The
counters are right exactly in the runs where no task is accepted twice
(`Master.CounterIsRightIff`), which are the runs without a response, in time, for a task already
completed (`Master.NoneTwiceIff`): the test the handler lacks. A reduce task is handed out before
all maps are completed, or `Done` is answered too early, exactly after such a response
(`Master.PhasesInOrder`); `Master.LateResponseIsCounted` is a run in which it happens.

**Crawlers** (`notes/02_crawler.go`). Both the serial and the channel crawler fetch exactly the
URLs that can be reached; the channel crawler's counter is the number of messages it is owed, in
whatever order they arrive.

## Model

| member | source | states |
|---|---|---|
| Linearizability.CompletePartialIsLinearization | labs/src/porcupine/checker.go:180-181 | the partial linearizations that contain every operation are the linearizations of the history |
| Linearizability.PartialReachable | labs/src/porcupine/checker.go:185-238 | every partial linearization leads to one of finitely many pairs of linearized set and state, the bound on the search |
| Bitset.NewBitset | labs/src/porcupine/bitset.go:10-17 | the fewest words that hold the given number of bits, standing for the empty set |
| Bitset.Clone | labs/src/porcupine/bitset.go:19-23 | a fresh array with the same words |
| Bitset.Set | labs/src/porcupine/bitset.go:29-33 | inserts the position into the set in place |
| Bitset.Clear | labs/src/porcupine/bitset.go:35-39 | removes the position from the set in place |
| Bitset.Get | labs/src/porcupine/bitset.go:41-44 | true exactly for members |
| Bitset.Popcnt | labs/src/porcupine/bitset.go:46-52 | the number of members |
| Bitset.Hash | labs/src/porcupine/bitset.go:54-60 | the hash is a function of the words alone |
| Bitset.HashBits | labs/src/porcupine/bitset.go:54-60 | each bit of the hash: whether an odd number of words has it, toggled by that bit of the number of members |
| Bitset.Equals | labs/src/porcupine/bitset.go:62-72 | bit sets of one length are equal exactly if they have the same members; others are not |
| Bitset.MembersInjective | labs/src/porcupine/bitset.go:62-72 | words of one length are determined by the set they stand for |
| Bitset.MembersOfLast | labs/src/porcupine/bitset.go:46-52 | the ones of a further word are exactly the members it adds |
| SearchCache.EqualSetsHashEqually | labs/src/porcupine/bitset.go:54-60 | equal sets have equal hashes |
| SearchCache.CacheContains | labs/src/porcupine/checker.go:140-147 | a look into one bucket finds what a scan of the whole table would find |
| SearchCache.Remember | labs/src/porcupine/checker.go:196-197 | appending to the bucket of its hash adds exactly one configuration to the table |
| EntryList.InsertBefore | labs/src/porcupine/checker.go:65-76 | inserts the node before the mark and keeps the list doubly linked |
| EntryList.Length | labs/src/porcupine/checker.go:78-85 | the number of nodes |
| EntryList.MakeLinkedEntries | labs/src/porcupine/checker.go:116-133 | one node per entry, in order; a call points at the first later return of its id, a return at nothing |
| EntryList.Lift | labs/src/porcupine/checker.go:154-162 | takes the pair out of the list, which stays linked; the pair keeps the neighbours it had, and the call has a next entry, whose link is written unguarded |
| EntryList.Unlift | labs/src/porcupine/checker.go:164-172 | undoes the Lift exactly |
| EntryList.Bypassed | labs/src/porcupine/checker.go:155-161 | the neighbours of every other node once one node is bypassed |
| Checker.LiftCall | labs/src/porcupine/checker.go:198-201 | after any stack of lifts the list is the history minus the lifted operations, in order, and each can be put back |
| Checker.UnliftCall | labs/src/porcupine/checker.go:230-235 | putting back the last lifted operation restores the list of the stack below it |
| Checker.TryCall | labs/src/porcupine/checker.go:190-197 | says the call is worth following exactly if the model accepts it and no equal configuration is cached, and then caches it |
| Checker.PushCall | labs/src/porcupine/checker.go:198-202 | list, stack and cursor after linearizing a call |
| Checker.PopCall | labs/src/porcupine/checker.go:230-236 | list, stack, state and cursor after giving up the last call |
| Checker.StackIds | labs/src/porcupine/checker.go:240-243 | the ids on the stack, bottom first |
| Checker.RecordLongest | labs/src/porcupine/checker.go:213-229 | records the stack for exactly those of its operations for which nothing as long is recorded, all behind one pointer |
| Checker.CompleteOrder | labs/src/porcupine/checker.go:239-246 | on success every operation gets the complete linearization, behind one pointer |
| Checker.SetUp | labs/src/porcupine/checker.go:175-184 | the list behind its head is the whole history, the bit set and the table are empty |
| Checker.VisitCall | labs/src/porcupine/checker.go:189-208 | at a call the invariants are kept, and either a new configuration is explored or the cursor moves on |
| Checker.VisitReturn | labs/src/porcupine/checker.go:213-236 | at a return the invariants are kept, partial results are recorded, and the stack gets shorter |
| Checker.Iterate | labs/src/porcupine/checker.go:189-237 | one iteration keeps the invariants and makes progress, or finds that nothing is left to try; the cursor is never nil |
| Checker.Round | labs/src/porcupine/checker.go:185-237 | looks at the kill flag once and, unless it is up, makes one iteration |
| Checker.Explore | labs/src/porcupine/checker.go:185-238 | the loop terminates, with everything on the stack, with nothing left to try, or killed |
| Checker.CheckSingle | labs/src/porcupine/checker.go:174-248 | true only if linearizable, and records only partial linearizations, for any model with a reflexive Equal; if Equal respects Step and no load found the kill flag up, false only if not linearizable, and then, if asked to, it has recorded the longest for each operation; a load that finds the flag up is the last and makes the answer false; on success all operations share one linearization |
| Checker.Failed | labs/src/porcupine/checker.go:209-212 | when the search is exhausted there is no linearization and the recorded results are optimal |
| History.CallBeforeReturnsIsEnabled | labs/src/porcupine/checker.go:189-202 | a call with only calls before it in the list may be linearized next |
| History.EnabledIsBeforeReturn | labs/src/porcupine/checker.go:209-212 | no operation called after the first return in the list may |
| Search.Skips | labs/src/porcupine/checker.go:203-208 | stepping over a rejected or cached call keeps the invariants |
| Search.Pushes | labs/src/porcupine/checker.go:192-202 | linearizing a call keeps the invariants and leaves fewer reachable configurations uncached |
| Search.Pops | labs/src/porcupine/checker.go:230-236 | backtracking keeps the invariants |
| Search.TopClosed | labs/src/porcupine/checker.go:209-212 | at the first return every possible next step has been tried |
| Search.RecordKeeps | labs/src/porcupine/checker.go:213-229 | recording keeps what was recorded for explored configurations, and covers the current one |
| Search.AllCovered | labs/src/porcupine/checker.go:193-207 | despite the pruning every partial linearization leads to a cached configuration |
| Search.NothingMissed | labs/src/porcupine/checker.go:209-229 | after an exhausted search every partial linearization is incomplete and none is longer than what is recorded |
| Search.FullStackIsLinearization | labs/src/porcupine/checker.go:239-247 | a full stack is a linearization and contains every operation |
| Entries.MakeEntries | labs/src/porcupine/checker.go:43-55 | a call and a return entry for every operation, sorted by time, ties in any order |
| Entries.EntriesCarry | labs/src/porcupine/checker.go:43-55 | each entry carries value, client and clock time of its operation |
| Entries.EntriesVerdict | labs/src/porcupine/checker.go:43-55 | the entries are linearizable exactly if the timed history is, however ties are broken |
| Entries.SortSafeIffClearTimes | labs/src/porcupine/checker.go:39-54 | the sorted entries always keep the real-time order if and only if calls precede returns and none coincides with a return |
| Entries.Renumber | labs/src/porcupine/checker.go:87-101 | new ids 0, 1, ... as they first occur, that agree exactly where the old ids agree; nothing else changes |
| Entries.ConvertEntries | labs/src/porcupine/checker.go:103-114 | one entry per event, with its values, id and client, and its index as time |
| Entries.EventEntriesWellFormed | labs/src/porcupine/checker.go:350-356 | renumbered and converted events make a well-formed entry list of exactly the operations of the events, each once |
| Entries.SameOperations | labs/src/porcupine/checker.go:87-101 | the verdict depends on which operations there are, not on their ids |
| Entries.EventEntriesVerdict | labs/src/porcupine/checker.go:350-356 | the entries are linearizable exactly if the operations of the events are |
| Locality.KvAccepts | labs/src/models/kv.go:35-54 | the model accepts an order exactly if each get returns the value of the last put before it, or the empty string, and everything appended since |
| Locality.StoreAccepts | labs/src/models/kv.go:40-54 | the store accepts an order exactly if every key's value accepts that key's part |
| Locality.MergeArranges | labs/src/porcupine/model.go:28-31 | merging orders by earliest call respects real time |
| Locality.KeysAreIndependent | labs/src/porcupine/model.go:28-31 | orders for all keys exist exactly if an order for the store does |
| Locality.StoreIsLocal | labs/src/models/kv.go:17-54 | a history is linearizable for the store if and only if each key's history is for that key |
| KvPartition.GroupByKey | labs/src/models/kv.go:19-23 | for every key that occurs its operations, in order |
| KvPartition.SubHistoryIsFiltered | labs/src/models/kv.go:19-23 | the part of a key has exactly its operations, in the order of the history |
| KvPartition.SortedKeys | labs/src/models/kv.go:24-28 | the keys once each, in order, however the map is walked |
| StringOrder.LeqIsLexicographic | labs/src/models/kv.go:28 | the order of keys is the lexicographic one |
| KvPartition.Partition | labs/src/models/kv.go:18-34 | one part for each key that occurs |
| KvPartition.PartitionContract | labs/src/porcupine/model.go:28-31 | the history is linearizable for the store if and only if each part is for a single key |
| Parallel.VerdictSound | labs/src/porcupine/checker.go:269-347 | under every interleaving Ok and Illegal are true, Illegal is answered exactly after a no was folded in, Unknown comes only from a timeout, and a killed worker's false is never folded in |
| Parallel.InfoWaitsForAll | labs/src/porcupine/checker.go:306-313 | with info wanted, all workers have finished before the call returns, and without a timeout all are folded in |
| Parallel.KillsLeftovers | labs/src/porcupine/checker.go:288-304 | the kill flag goes up only at a timeout or after a no, and is up if the call returns while a worker runs; unless info is wanted, the first no ends the loop |
| Parallel.RunsAreBounded | labs/src/porcupine/checker.go:275-313 | every run ends: with n partitions it has at most 2 n + 2 steps |
| Parallel.StuckIffNothingToCheck | labs/src/porcupine/checker.go:286-305 | a run that has not returned is stuck if and only if there is no partition and no timeout |
| CheckOperations.Prepare | labs/src/porcupine/checker.go:360-366 | one sorted entry list for each part |
| CheckOperations.PreparedVerdict | labs/src/porcupine/checker.go:360-366 | the history is linearizable for the store exactly if each entry list is for a single key |
| CheckOperations.Work | labs/src/porcupine/checker.go:276-280 | a worker's answer is one the combiner accounts for, given what its loads of the kill flag found |
| CheckOperations.KvWork | labs/src/porcupine/checker.go:276-280 | the same for the key-value model, whose Equal respects Step |
| CheckOperations.KvVerdict | labs/src/porcupine/checker.go:360-368 | end to end: Ok exactly if the whole key-value history is linearizable, unless it timed out |
| CheckOperations.KvAlwaysAnswers | labs/src/porcupine/checker.go:286-305 | the check of a key-value history can always go on, except for an empty one without timeout |
| CheckOperations.SinglePartVerdict | labs/src/porcupine/model.go:51-53 | the same end-to-end result for any model without a partition function whose Equal respects Step |
| CheckOperations.EventsVerdict | labs/src/porcupine/checker.go:350-358 | the same for the operations of a history of events |
| Visualization.UniquePartials | labs/src/porcupine/checker.go:314-333 | one copy for each distinct pointer recorded |
| Visualization.Values | labs/src/porcupine/visualization.go:38-53 | call and return values, times and client of every operation |
| Visualization.Replay | labs/src/porcupine/visualization.go:63-72 | replays a list and shows the state after each step; it panics exactly if the model rejects a step |
| Visualization.UpdateLargest | labs/src/porcupine/visualization.go:73-76 | keeps for each operation the index of the first of the longest lists containing it |
| Visualization.ReplayAll | labs/src/porcupine/visualization.go:60-79 | replays every list; it panics exactly if the model rejects a step of one |
| Visualization.PartitionView | labs/src/porcupine/visualization.go:36-85 | the page's data: client and times of every operation, the steps of each list, longest first, and each operation's longest; a panic exactly if a list does not replay |
| Visualization.CheckAndView | labs/src/porcupine/visualization.go:62-79 | no output of the search makes the visualizer panic, killed or not, for any model with a reflexive Equal; it shows the recorded lists, once for each pointer; on success that is one linearization; after a failure that was no kill it shows for each operation a longest partial linearization, if Equal respects Step |
| RaftHandlers.Mismatch | labs/src/raft/raft.go:520-528 | the first entry sent that the log does not hold |
| RaftHandlers.RunStart | labs/src/raft/raft.go:503-509 | the first index of the run of equal terms |
| RaftHandlers.LastOfTerm | labs/src/raft/raft.go:636-644 | the last index of an entry of the term, if any |
| RaftHandlers.Raft.constructor | labs/src/raft/raft.go:714-741 | a new server's state, from nothing or from what was persisted |
| RaftHandlers.Raft.Persist | labs/src/raft/raft.go:329-345 | the persister holds the current term and log |
| RaftHandlers.Raft.TakeEntries | labs/src/raft/raft.go:520-534 | the log cut at the first conflict, if any, and extended |
| RaftHandlers.Raft.FindRunStart | labs/src/raft/raft.go:504-509 | the conflict index answered |
| RaftHandlers.Raft.FollowTerm | labs/src/raft/raft.go:476-481 | a higher term is taken over and persisted |
| RaftHandlers.Raft.Accept | labs/src/raft/raft.go:516-543 | merged log, persisted, and the commit index followed |
| RaftHandlers.Raft.AppendEntries | labs/src/raft/raft.go:467-544 | new state and reply, by the specification function the theorems are about |
| RaftHandlers.AppendAnswers | labs/src/raft/raft.go:467-544 | the term followed and answered, the condition for success, what a rejection says about the log, and that it changes nothing |
| RaftHandlers.Raft.HandleAppendReply | labs/src/raft/raft.go:612-651 | the sender's new state |
| RaftHandlers.SuccessIsNoted | labs/src/raft/raft.go:626-629 | a success sets the peer's match and next index to the end of the entries sent, whatever the log is by then, and nothing else |
| RaftHandlers.RejectionIsNoted | labs/src/raft/raft.go:612-649 | a rejection sets only the peer's next index: to the end of a short log, behind the last entry of the conflicting term, or to the conflict index; replies of other terms are dropped |
| RaftHandlers.Raft.AdvanceCommit | labs/src/raft/raft.go:212-229 | commits the highest index of an entry of the current term that matchIndex gives to a majority, and changes nothing if there is none |
| RaftHandlers.Raft.Start | labs/src/raft/raft.go:667-680 | a leader that is not killed appends and persists the command; others do nothing; either way the index answered is the length of the log before, and nothing else changes |
| RaftHandlers.Raft.Lead | labs/src/raft/raft.go:172-182 | every next index is the length of the log and every match index 0; only the state changes besides |
| RaftHandlers.Raft.Replicate | labs/src/raft/raft.go:199-210 | for exactly the peers whose next index is in the log a request with all of the log from there on; panics exactly if some next index is 0 |
| RaftHandlers.SendsRest | labs/src/raft/raft.go:199-210 | the request for a peer, as the theorems use it, is that one |
| RaftHandlers.BeatsAtEnd | labs/src/raft/raft.go:153-166 | a heartbeat points at the end of the log and carries no entries |
| RaftHandlers.CommittableIff | labs/src/raft/raft.go:212-229 | what may be committed: an index beyond the commit index, of the current term, claimed by a majority |
| RaftCluster.MergeAgrees | labs/src/raft/raft.go:512-534 | after a merge the log agrees with the sender's through the last entry, and is unchanged exactly if it did before |
| RaftCluster.DeliverInv | labs/src/raft/raft.go:467-544 | delivering any request at any time keeps the invariant |
| RaftCluster.NextInv | labs/src/raft/raft.go:199-210 | every step keeps the invariant: an entry's term and index fix the whole log before it |
| RaftRuns.RunInv | labs/src/raft/raft.go:467-536 | the invariant holds in every state of every run |
| RaftRuns.LogMatching | labs/src/raft/raft.go:489-536 | the same term at an index means identical logs through it, between any servers and any moments |
| RaftRuns.TermsAreOrdered | labs/src/raft/raft.go:329-345 | terms never fall along a log or exceed the current term, and the persister is always up to date |
| RaftRuns.TermChanges | labs/src/raft/raft.go:235-241 | a term rises only when the server stands for election or becomes a follower; only Lead makes a leader |
| RaftRuns.LogChanges | labs/src/raft/raft.go:467-544 | a log changes only by a command at its end or an accepted request; what else changes commit, next and match indices |
| RaftRuns.RestartKeeps | labs/src/raft/raft.go:714-741 | a restart keeps term and log and forgets the rest |
| RaftRuns.SentStays | labs/src/raft/raft.go:605-608 | a request sent can be delivered at any time after |
| RaftRuns.LeaderAppendOnly | labs/src/raft/raft.go:667-680 | between two acts in a term a leader's log only grows, though it also answers its own requests |
| RaftRuns.AnswersBringNoNewTerm | labs/src/raft/raft.go:615-625 | the branch that steps down on a reply's higher term is never taken |
| RaftRuns.AcceptedAgreesWithSender | labs/src/raft/raft.go:512-543 | an accepted request makes the log agree through its last entry with the log its sender had when it sent it, and changes nothing exactly if it did before; what is newly committed the sender had committed, in the same log, and no less than its entries allow |
| RaftRuns.AcceptsExactlyWhenAgreed | labs/src/raft/raft.go:467-514 | a request is accepted exactly if no higher term is known and the log agrees with the sender's through PrevLogIndex; a rejection changes neither log nor commit index |
| RaftRuns.CommitFallsIff | labs/src/raft/raft.go:537-543 | a request lowers the commit index exactly if it is accepted with entries that end below it and a LeaderCommit above it |
| RaftRuns.CommitCanFall | labs/src/raft/raft.go:537-543 | a request that lowers it from 3 to 1 |
| RaftRuns.CommitFallsInRun | labs/src/raft/raft.go:537-543 | in a run that takes a sender that had committed past the end of its own log |
| RaftRuns.RedeliveryIsIdempotent | labs/src/raft/raft.go:467-544 | a request delivered twice changes nothing the second time |
| RaftRuns.MatchStays | labs/src/raft/raft.go:516-534 | a matched prefix stays matched while the server stays in the term, through old requests and restarts |
| RaftRuns.AcceptedMatches | labs/src/raft/raft.go:516-534 | a server that accepts a request holds its term's log through the last entry sent |
| RaftRuns.AcknowledgedStays | labs/src/raft/raft.go:626-629 | what a success reply tells the leader remains true while the server that gave it stays in the term |
| RaftRollback.RunLogsAreCompatible | labs/src/raft/raft.go:489-536 | the logs of a run satisfy the roll-back theorems' hypothesis |
| RaftRollback.ProbeIsHandlers | labs/src/raft/raft.go:612-651 | a probe is what the handlers of leader and follower do between them, for heartbeats and for requests with entries |
| RaftRollback.RejectionMovesBack | labs/src/raft/raft.go:630-649 | a rejection moves nextIndex to PrevLogIndex or below, never below an agreed index, and to 0 exactly if the follower holds only the sentinel |
| RaftRollback.ConflictRejections | labs/src/raft/raft.go:499-511 | each conflict rejection uses up one of the follower's terms |
| RaftRollback.RejectionsBound | labs/src/raft/raft.go:490-511 | at most one rejection for a short log and one per term of the follower |
| RaftRollback.RollBackConverges | labs/src/raft/raft.go:630-649 | from a first request of either kind, probes are accepted within that bound, and then the follower has the leader's whole log |
| RaftRollback.AnswerStays | labs/src/raft/raft.go:605-612 | an answer given can be delivered at any time after |
| RaftRollback.EveryRejection | labs/src/raft/raft.go:612-649 | for every rejection in every run, however late: nextIndex becomes 0 exactly if the follower held only the sentinel; PrevLogIndex or less exactly if the log was too short or the last entry of the conflicting term is before it; and no less than any agreed index exactly if the logs do not have the same term two behind that entry |
| RaftRollback.RejectionInRun | labs/src/raft/raft.go:612-649 | a rejection that arrives in the request's term moves nextIndex back, never below an index through which the leader's log and the follower's, as it answered, agree |
| RaftWitnesses.HeartbeatLeadsToPanic | labs/src/raft/raft.go:630-634 | a run of three servers in which a rejected heartbeat sets nextIndex to 0 and the leader panics |
| RaftWitnesses.LateRejectionMovesForward | labs/src/raft/raft.go:615-649 | a run of three servers in which a rejection that arrives two terms late moves nextIndex forward from 1 to 2, above PrevLogIndex, although the logs agree through 3 |
| RaftCommit.SuccessIsTrue | labs/src/raft/raft.go:626-629 | a success handled in the term of its request is true of the peer that sent it |
| RaftCommit.RunTrue | labs/src/raft/raft.go:626-629 | in runs where all are, whatever a leader's matchIndex says of a peer was once so in the leader's term |
| RaftCommit.CommitIsOfOwnTerm | labs/src/raft/raft.go:212-229 | every Commit step of every run commits an entry of the server's current term that is claimed by a majority |
| RaftCommit.CommitIsHeld | labs/src/raft/raft.go:212-229 | in such runs a leader commits an index only if a majority has held the log of its term through it |
| RaftWitnesses.CommitWithoutMajority | labs/src/raft/raft.go:612-629 | a run of three servers in which, after a success that arrives two terms late, a leader commits an entry nobody else has ever held |
| Shuffle.GroupAndReduce | labs/src/mr/worker.go:128-144 | one line for each key of a sorted list, in key order, holding the reduction of all its values |
| Shuffle.FillBuckets | labs/src/mr/worker.go:57-61 | each bucket gets the pairs that hash to it, in order |
| Shuffle.InBucketIsFiltered | labs/src/mr/worker.go:57-61 | a bucket has exactly the pairs whose keys hash to it, in order |
| Shuffle.PerformReduce | labs/src/mr/worker.go:94-144 | fails exactly if a file is missing, else collects, sorts and reduces |
| Shuffle.Sequential | labs/src/main/mrsequential.go:38-84 | lines the sequential program may write, in key order |
| Shuffle.ReducedPermutation | labs/src/mr/worker.go:115-139 | an order-insensitive reduction does not depend on how the sort breaks ties |
| Shuffle.BucketKeeps | labs/src/mr/worker.go:57-61 | a bucket holds all values of the keys that hash to it and nothing of the others |
| Shuffle.RunInv | labs/src/mr/worker.go:41-152 | in every run each file present has the content it should have |
| Shuffle.DistributedIsSequential | labs/src/main/mrsequential.go:38-84 | once every bucket has an output, the outputs together are a permutation of the sequential output |
| WordCount.ItoaRoundTrip | labs/src/mrapps/wc.go:41-44 | the number printed reads back as the count |
| WordCount.ItoaIsDecimal | labs/src/mrapps/wc.go:41-44 | it is written in digits without a leading zero |
| WordCount.WordsFrom | labs/src/mrapps/wc.go:23-26 | the words are the texts of all maximal runs of letters, by their positions, in order |
| WordCount.Map | labs/src/mrapps/wc.go:21-34 | a pair (w, "1") for every maximal run of letters of the file, in order |
| WordCount.EmittedCount | labs/src/mrapps/wc.go:21-34 | a word has as many pairs as places where it occurs |
| WordCount.ReduceIsOrderInsensitive | labs/src/mrapps/wc.go:41-44 | the count does not depend on the order of the values |
| WordCount.WordCountIsRight | labs/src/mrapps/wc.go:21-44 | the combined output has exactly one line for each word that occurs, showing in decimal the number of places where it does, in all files |
| Master.FirstIdle | labs/src/mr/master.go:61-74 | the first idle task, if any |
| Master.MasterServer.constructor | labs/src/mr/master.go:167-187 | all tasks idle, counters at their totals |
| Master.MasterServer.FindIdle | labs/src/mr/master.go:61-74 | the first idle task, if any |
| Master.MasterServer.HandleAsk | labs/src/mr/master.go:57-92 | leases the first idle task of the current phase for ten seconds, and answers its index and the number of tasks of the other phase; no task exactly if none is idle |
| Master.MasterServer.HandleResponse | labs/src/mr/master.go:95-118 | counts the response and completes the task exactly if it comes within ten seconds of the last lease |
| Master.MasterServer.Wait | labs/src/mr/master.go:42-53 | a task not completed is idle again, and nothing else changes |
| Master.MasterServer.Done | labs/src/mr/master.go:150-160 | true exactly if the reduce counter is 0 |
| Master.StepInv | labs/src/mr/master.go:42-118 | every step keeps the lease, timer and counter invariant |
| Master.CompletedIsPermanent | labs/src/mr/master.go:42-118 | a completed task stays completed, whatever steps follow |
| Master.LeasesAndCounters | labs/src/mr/master.go:42-118 | in every run an idle task has no timer, one in progress exactly one, and each counter plus the accepted responses is the number of tasks |
| Master.LeasesAreKept | labs/src/mr/master.go:42-118 | in every run a task in progress is given up no earlier than ten seconds after its lease, and completed no later |
| Master.CounterIsRightIff | labs/src/mr/master.go:104-116 | a counter is the number of uncompleted tasks if and only if no task of its kind was accepted twice |
| Master.RepeatsIff | labs/src/mr/master.go:95-118 | a step makes a task accepted twice exactly if it is a response in time for a completed task |
| Master.NoneTwiceIff | labs/src/mr/master.go:95-118 | no task was accepted twice if and only if no step of the run was such a response |
| Master.PhasesInOrder | labs/src/mr/master.go:57-118 | when a reduce task is handed out all maps are completed, and when Done is answered all reduces are, if and only if there was no such response; without one, Done is answered exactly then |
| Master.LateResponseIsCounted | labs/src/mr/master.go:104-116 | a run in which both workers of a task are counted and a reduce task is handed out too early |
| Master.NegativeIsForever | labs/src/mr/master.go:59-90 | once the map counter is negative no reduce task is ever handed out |
| Crawler.Serial | notes/02_crawler.go:17-30 | adds the URL and only reachable URLs, each with all its links |
| Crawler.SerialCrawl | notes/02_crawler.go:17-30 | fetches exactly the reachable URLs |
| Crawler.TakeMessage | notes/02_crawler.go:99-105 | every URL of the message is fetched, with one new worker for each new one |
| Crawler.ConcurrentChannel | notes/02_crawler.go:86-119 | ends, in whatever order messages arrive, with exactly the reachable URLs fetched and one worker for each |
| Crawler.ClosedIsReachable | notes/02_crawler.go:17-30 | a set closed under links around the start is the set of reachable URLs |

## Left out

- Checker.CheckSingle: the memo table keeps the words of its bit sets and `longest` is a sequence; both are copies or locals that nothing else changes, so no aliasing is lost.
- Bitset.Set: a uint64 is written as its 64 bits, lowest first, with the operators acting bit by bit.
- Parallel.VerdictSound: a worker is one step that reports a result its search may give; that the search gives such a result is CheckOperations.Work.
- CheckOperations.EventsVerdict: only for models without a partition function for events, as is the key-value model here.
- RaftHandlers.Raft.AppendEntries: one atomic step; the moment in which the handler gives up its lock to reset the timer (labs/src/raft/raft.go:482-486) is not modelled, and a leader elected in that moment could have its log cut.
- RaftRuns.LogMatching: under the hypothesis that at most one server acts as leader in a term; the code's elections do not ensure it (a vote is not persisted when it is given, labs/src/raft/raft.go:443, and a new leader forgets its vote, labs/src/raft/raft.go:176).
- RaftHandlers.Raft.Persist: the vote, which is saved with term and log, is not modelled.
- RaftHandlers.Raft.constructor: decoding what was persisted, and its retries, are not modelled.
- RaftRollback.RollBackConverges: for fixed logs, and a follower that holds more than the sentinel; RaftRollback.EveryRejection says what happens to the other.
- RaftCommit.CommitIsHeld: for a server whose state is LEADER; the loop of one that stands for election again goes on as CANDIDATE (labs/src/raft/raft.go:193), with what it was told in its earlier term.
- Raft elections, leader completeness and state machine safety: the code departs from Figure 2 of the Raft paper.
- Raft timers, heartbeat timing, the applier and goroutine scheduling: real time, or delivery of what is committed.
- `labs/src/labrpc` and `labs/src/labgob`: the network is a set of messages, persistence a saved term and log.
- Shuffle.PerformReduce: files are sequences; opening, encoding, renaming and their errors are not modelled, except that a file may be missing.
- WordCount.Map: which characters are letters is a parameter.
- Master.MasterServer.HandleAsk: locks are not modelled; each handler and timer is one step.
- Master.MasterServer.HandleResponse: for indices of existing tasks, as workers echo them.
- `ConcurrentMutex` in `notes/02_crawler.go`: its locking is commented out.
- kvraft, shardkv and shardmaster: their handlers are stubs.
- The HTML page of the visualizer, descriptions of operations, the test harnesses and the lecture notes.
