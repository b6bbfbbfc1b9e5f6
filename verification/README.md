# Verified models of the labs

Three systems of the repository are modelled, each with the theorem it exists for.

**The linearizability checker** (`Lab02/src/porcupine`, with the key/value model in `Lab02/src/models/kv.go`). A history
of timed operations is *linearizable* if some permutation of it respects real time and is accepted by a sequential
model; that definition is `Linearizability.dfy`, and it is short. The checker is not: it searches with a cursor over a
doubly linked list from which it lifts operations in place, an explicit stack, a bitset, and a cache of configurations
that prunes the search. `CheckSingle` (`Checker.dfy`) is that search, on nodes, arrays and a hash table that it updates
in place, and its contract is the definition: it answers true exactly if the history is linearizable, unless it was
killed; the records it keeps are partial linearizations at every moment, and the longest at the end. The list, the
bitset and the cache are proved against what they represent (`LinkedEntries.dfy`, `SearchList.dfy`, `Bitset.dfy`,
`SearchCache.dfy`), the search itself against the set of continuations of a configuration (`SearchTheory.dfy`,
`SearchPath.dfy`), and its termination by a rank over the cursors of all open levels (`SearchRank.dfy`). Around it:
making entries from operations and events (`Entries.dfy`), locality of the key/value model (`KvLocality.dfy`) and what
that model accepts (`KvMeaning.dfy`), the concurrent driver as a transition system (`ParallelCheck.dfy`), both put
together (`CheckOperations.dfy`), and the replay in the visualizer (`Visualization.dfy`).

**MapReduce** (`Lab02/src/mr`), against the sequential program `Lab02/src/main/mrsequential.go`. The coordinator's
critical sections, the workers' file operations, crashes, reissues and late or repeated reports form one transition
system (`MapReduceJob.dfy`). `DoneRefinesSequential` says that once `Done` answers true, the lines over all output files
are, as a multiset, the lines of the sequential program, which `MapReduceMeaning.dfy` says by the inputs alone;
`CanBeFinished` (`MapReduceProgress.dfy`) that from every reachable state it can still come to that. The loops that
partition and group are methods (`Grouping.dfy`, `Buckets.dfy`), and so are the coordinator's handlers
(`Coordinator.dfy`).

**Chord** (`Lab03`). Identifiers as bytes and as points on a circle (`Keys.dfy`); a node's own methods, with lookups
that hop from node to node (`ChordNode.dfy`, `ClosestPreceding.dfy`, `IdealTables.dfy`); the join, stabilize and notify
protocol as interleaved steps (`ChordProtocol.dfy`), what all its reachable states satisfy (`ChordInvariant.dfy`), that
it converges to the ideal ring and stays there (`ChordGaps.dfy`, `ChordStabilization.dfy`), that it always can
(`ChordProgress.dfy`), and that this is the ring that lookups and lists need (`ConvergedRing.dfy`); successor lists,
their repair and their updates (`SuccessorLists.dfy`, `UpdateRounds.dfy`, `UpdateProgress.dfy`); and files that move
between nodes (`Migration.dfy`, `MigrationContents.dfy`, `LookupPlaces.dfy`).

The theorems of these files are about runs without failures in which a new node sends its request to a node that is
already in the ring, as the comment at `Lab03/chord.go:147` asks. `JoinContacts.dfy` is about the wider system in which
nodes may ask any node that has started, and has the exact condition under which the same holds there.

Findings about the code, each with the exact condition and an input:

- `checkParallel` with no partition and no timeout waits forever (`ParallelCheck.StuckAtStart`).
- The coordinator's bound check admits the task number after the last one and negative ones; the handler panics
  exactly on these (`CoordinatorObject.Coordinator.TaskDone`).
- A Chord node answers requests before it has found its place. If a new node asks one in that time, a member may not
  reach the creator, an edge may jump over it, and two nodes that ask each other form a ring of their own, without any
  failure (`JoinContacts.OneAskedTooEarly`, `JoinContacts.RingSplits`). The whole invariant is kept exactly by the runs
  in which no request is answered by a node that has not entered (`JoinContacts.RunIsRightIff`); what it says of members
  alone is lost exactly in the steps in which a node enters whose found node is not a member, or beyond the creator
  (`JoinContacts.StepIsSoundIff`).
- A node that joins Chord ends itself if the node it found already knows a nearer predecessor, and this can happen
  without any failure (`JoinRefusal.RefusedIff`, `JoinRefusal.CanBeRefused`).
- `findClosestPrecedingNode` compares its last two candidates as numbers, and takes the last qualifying entry of the
  successor list, which goes round the ring more than once if it is longer than the ring. On an ideal ring with correct
  tables, the result is the closest that it considers exactly if the two candidates are not apart across zero, and the
  list does not end, in a further lap, before its closest entry, unless a finger is as close (`IdealTables.ChoiceIff`).
  Both can fail (`ClosestPreceding.NotClosestAcrossZero`, `IdealTables.NotClosestInLongList`). Fingers from the cursor
  on are not looked at.
- A node keeps its own lock while it waits for its successor's list, for which that one's lock is needed. If all nodes
  of a ring begin at once, all wait forever (`UpdateRounds.StuckIff`, `UpdateRounds.CanDeadlock`); in any other case all
  lists can still become right (`UpdateProgress.CanFillIff`).
- A Chord node whose successor keeps a longer list than its own panics when it copies it
  (`ChordNode.ChordClient.UpdateSuccessorList`, `SuccessorLists.LongerListPanics`).
- A node that finds its whole successor list dead takes itself for its successor, which is right only if it is the
  only live member (`SuccessorLists.RepairFindsNext`, `SuccessorLists.DeadListMisleads`).
- A file is created before it is written, so that a pass of the other node may copy less than its content, and that
  copy stays so. It happens exactly in steps that read a file which is being written, and never to the first node that
  a lookup names, so the content is not lost (`MigrationContents.SoundIff`, `MigrationContents.CanBeCutShort`,
  `MigrationContents.ContentNeverLost`).

`dafny verify dfyconfig.toml` checks everything.

## Model

| member | source | states |
|---|---|---|
| Checker.CheckSingle | Lab02/src/porcupine/checker.go:179-253 | The search ends on every history of paired entries. Unless killed, it answers true exactly if some permutation of all operations respects real time and is accepted from the initial state; then every record is such a permutation, and otherwise, with records asked for, each is a longest partial linearization that contains its operation, missing only if there is none. A killed search answers false; its records, too, are partial linearizations that contain their operations. It looks at the kill flag before every turn: a search of a nonempty history is killed if its first look sees the flag set, and a successful one has seen it clear at least once for each operation. |
| Checker.TryCall | Lab02/src/porcupine/checker.go:194-213 | A turn of the loop at a call entry, in all its three outcomes, keeps the list, stack, cache and records right and makes the rank of the open levels smaller. |
| Checker.Backtrack | Lab02/src/porcupine/checker.go:218-241 | So does a turn at a return entry with calls on the stack: the records are improved, and list, state and bitset are as they were before the popped call. |
| Checker.RecordLongest | Lab02/src/porcupine/checker.go:218-234 | Exactly the operations on the stack with no record, or a shorter one, get the stack as their record. |
| Checker.CursorInList | Lab02/src/porcupine/checker.go:190-194 | While the list is not empty the cursor is at a node of it, so never nil. |
| SearchTheory.ExtensionsArePartialLinearizations | Lab02/src/porcupine/checker.go:39-46 | What can be reached by linearizing enabled operations one after the other is exactly the partial linearizations: an operation precedes another only if it returned strictly before the other's call. |
| SearchTheory.ExhaustedFromTries | Lab02/src/porcupine/checker.go:194-217 | If every enabled operation of a configuration leads nowhere new, the configuration leads nowhere new. |
| SearchTheory.ExhaustedByEqual | Lab02/src/porcupine/checker.go:145-152 | A state that the model's equality identifies with an exhausted one is exhausted. |
| SearchPath.HitIsTried | Lab02/src/porcupine/checker.go:200-210 | A configuration found in the cache is not on the stack, so it was finished without success: skipping it loses no linearization and no longer record. |
| SearchPath.AllEnabledTried | Lab02/src/porcupine/checker.go:214-217 | When the cursor is at a return entry, every operation that can be linearized next has been tried. |
| SearchPath.PushKeepsInv | Lab02/src/porcupine/checker.go:201-207 | Pushing a call keeps what the stack, cache and records say about the search. |
| SearchPath.PopKeepsInv | Lab02/src/porcupine/checker.go:235-241 | Popping keeps it: the popped configuration is exhausted and counts as tried one level down. |
| SearchPath.ImprovedRecords | Lab02/src/porcupine/checker.go:222-233 | Improving records makes none shorter, keeps all of them partial linearizations, and covers the stack. |
| SearchPath.EmptyListIsSuccess | Lab02/src/porcupine/checker.go:244-252 | An empty list means that the stack is a linearization of the whole history. |
| SearchPath.ExhaustedIsFailure | Lab02/src/porcupine/checker.go:215-217 | An empty stack at a return entry means that there is no linearization, and that every record is longest. |
| SearchRank.MoveOnSmaller | Lab02/src/porcupine/checker.go:208-213 | Moving a cursor on makes the rank smaller, whatever levels were open inside it. |
| SearchRank.OpenSmaller | Lab02/src/porcupine/checker.go:203-207 | Opening one more level makes it smaller, too. |
| LinkedEntries.InsertBefore | Lab02/src/porcupine/checker.go:70-81 | The node is linked in front of the mark and behind what preceded it; without a mark nothing changes. |
| LinkedEntries.Length | Lab02/src/porcupine/checker.go:83-90 | The length of a linked list is the number of its nodes. |
| LinkedEntries.MakeLinkedEntries | Lab02/src/porcupine/checker.go:121-138 | The list has a node for each entry, in order, linked both ways, with the entry's value and identifier; each call's match is the node of its return, and returns have none. |
| LinkedEntries.UnlinkKeepsOrder | Lab02/src/porcupine/checker.go:159-177 | Taking a position out of an ordered doubly linked list leaves the rest in order with consistent links, and putting it back restores every link. |
| LinkedEntries.Lift | Lab02/src/porcupine/checker.go:159-167 | Lifting leaves exactly the list without both entries of the operation, also if they are adjacent; their own pointers stay as they were. |
| LinkedEntries.Unlift | Lab02/src/porcupine/checker.go:169-177 | Unlifting afterwards restores every pointer. |
| SearchList.LiftCall | Lab02/src/porcupine/checker.go:203-207 | With the call's operation on the stack, the list is the original entries without those of all operations on it. |
| SearchList.UnliftCall | Lab02/src/porcupine/checker.go:235-241 | With it popped again, last in first out, so it is for the rest of the stack. |
| SearchList.NextListed | Lab02/src/porcupine/checker.go:208-213 | A node's next is the nearest later entry of an operation that is not on the stack. |
| Bitset.NewBitset | Lab02/src/porcupine/bitset.go:10-17 | A new bitset is empty and has just enough words. |
| Bitset.Clone | Lab02/src/porcupine/bitset.go:19-23 | A clone is a new array with the same words. |
| Bitset.Set | Lab02/src/porcupine/bitset.go:29-33 | The set of members gains exactly the position. |
| Bitset.Clear | Lab02/src/porcupine/bitset.go:35-39 | The set of members loses exactly the position. |
| Bitset.Get | Lab02/src/porcupine/bitset.go:41-44 | It answers membership. |
| Bitset.Popcnt | Lab02/src/porcupine/bitset.go:46-52 | It counts the members. |
| Bitset.Equals | Lab02/src/porcupine/bitset.go:62-72 | It holds exactly for the same words. |
| Bitset.SameMembers | Lab02/src/porcupine/bitset.go:62-72 | Bitsets of the same size with the same members have the same words, so that equality of words is equality of sets. |
| Bitset.SameHash | Lab02/src/porcupine/bitset.go:54-60 | Equal sets have equal hashes. |
| Bitset.HashUpdate | Lab02/src/porcupine/bitset.go:54-60 | When one word changes, the hash changes by the exclusive or of what the word and the number of members change by. |
| Bitset.HashOfEmpty | Lab02/src/porcupine/bitset.go:54-60 | The hash of an empty set is 0. |
| SearchCache.Cache.CacheContains | Lab02/src/porcupine/checker.go:145-152 | Looking in one bucket of the hash table decides whether any configuration ever inserted has the same operations and an equal state. |
| SearchCache.Cache.Insert | Lab02/src/porcupine/checker.go:201-202 | Inserting adds exactly the configuration to all those ever inserted. |
| Entries.SortByTime | Lab02/src/porcupine/checker.go:29-46 | The result is a permutation of the entries, sorted by time, calls before returns at the same time. |
| Entries.MakeEntries | Lab02/src/porcupine/checker.go:48-60 | The entries are those of the operations, sorted, and stand for a history whose times are positions, in which an operation precedes another exactly if it does in the given one, ties included. |
| Entries.PositionsKeepOrder | Lab02/src/porcupine/checker.go:39-46 | Sorting with calls first at equal times keeps, both ways, which operation returned strictly before which was called. |
| Entries.Renumber | Lab02/src/porcupine/checker.go:92-106 | Nothing but identifiers changes; these are replaced one to one by the numbers below their count. |
| Entries.RenumberedIsPaired | Lab02/src/porcupine/checker.go:92-106 | Renumbering keeps that each identifier has one call and, later, one return. |
| Entries.ConvertEntries | Lab02/src/porcupine/checker.go:108-119 | The entries stand for the history in which an event's index is its time. |
| KvLocality.Partition | Lab02/src/models/kv.go:20-36 | One part for each key that occurs, in ascending order of the keys, each with exactly the key's operations in their order. |
| KvLocality.Locality | Lab02/src/porcupine/model.go:28-29 | A key/value history is linearizable for the store of all keys if and only if each part is linearizable for the model of one key. |
| KvLocality.FirstOfEarliest | Lab02/src/models/kv.go:37-56 | Among linearizations of the single keys there is always one whose next operation may come first in all of them: the step of the proof that merges them. |
| KvLocality.WholeImpliesKeys | Lab02/src/models/kv.go:20-56 | Restricting a linearization of the whole to a key gives one of the key. |
| KvLocality.KeysImplyWhole | Lab02/src/models/kv.go:20-56 | Linearizations of all keys merge into one of the whole. |
| KvMeaning.KeyAcceptsIff | Lab02/src/models/kv.go:37-56 | The model of one key accepts a sequence of operations exactly if every get in it returned the value of the last put before it, or the empty string, followed by the values appended since, in order. |
| KvMeaning.StoreAcceptsIff | Lab02/src/models/kv.go:20-56 | The store of all keys accepts exactly those in which this holds of every get and the operations on its key. |
| KvMeaning.LinearizableIffExplained | Lab02/src/models/kv.go:20-56 | A key/value history is linearizable exactly if some such order of all its operations respects real time. |
| Strings.StringLessIff | Lab02/src/models/kv.go:30 | One string comes before another exactly if, where they first differ, it has ended or has the smaller character; all sorts by key use this order. |
| KvLocality.KvEqualIsCongruence | Lab02/src/models/kv.go:42-56 | Equality of values is what the search needs of a model's equality. |
| ParallelCheck.VerdictIsRight | Lab02/src/porcupine/checker.go:274-353 | For any order of the answers and any moment of the timeout, Ok means that every partition is linearizable and Illegal that one is not; Unknown needs a timeout. A killed search's false never becomes Illegal. |
| ParallelCheck.VerdictMeans | Lab02/src/porcupine/checker.go:297-350 | The answer is Illegal exactly if the main loop took an answer that says false, even if the timeout fired afterwards; otherwise Unknown exactly if the timeout fired, and Ok if it did not. With information asked for, and for Ok, all searches have answered. |
| ParallelCheck.KillMeans | Lab02/src/porcupine/checker.go:304-316 | The kill flag is set exactly once the timeout has fired, or a false answer was taken and no information is asked for. |
| ParallelCheck.NeverStuck | Lab02/src/porcupine/checker.go:292-318 | With at least one partition the driver can always go on until it has answered. |
| ParallelCheck.RunsAreShort | Lab02/src/porcupine/checker.go:292-318 | It answers after at most twice as many steps as partitions, and one. |
| ParallelCheck.StuckAtStart | Lab02/src/porcupine/checker.go:293-304 | It can take a first step exactly if there is a partition or a timeout. |
| CheckOperations.CheckPart | Lab02/src/porcupine/checker.go:280-286 | What a goroutine answers for its part, entries made from operations, is the truth about the part, or false if it was killed; its records are sound in any case, and the longest unless it was killed. A nonempty part is not searched if the flag is set from the start. |
| CheckOperations.CheckEventPart | Lab02/src/porcupine/checker.go:355-363 | The same for parts given as events. |
| CheckOperations.CheckedMayAnswer | Lab02/src/porcupine/checker.go:280-286 | What a search of a part returns, having looked at the kill flag at any moments of a run of the driver, is an answer that the driver counts on, if its job has the truth about the part. |
| CheckOperations.AnswerPart | Lab02/src/porcupine/checker.go:280-286 | A goroutine that searches a part while the driver runs, and then sends its answer, makes a step of the driver. |
| CheckOperations.KvVerdict | Lab02/src/porcupine/checker.go:365-373 | Checking a key/value history part by part, Ok means that it is linearizable for the store of all keys, so that some order of all operations respects real time and has every get return what was put last on its key and appended since; Illegal means that no order does. |
| Visualization.ReplayAll | Lab02/src/porcupine/visualization.go:54-84 | The panic is raised exactly if the model rejects some partial linearization; otherwise the states shown are those of the replay, and each operation is mapped to a largest partial linearization that contains it. |
| Visualization.ReplayIff | Lab02/src/porcupine/visualization.go:62-72 | The replay shows exactly the operations in order, each with the state that it and those before it lead to. |
| Visualization.RecordsAreAccepted | Lab02/src/porcupine/visualization.go:66-70 | Whatever a search recorded, killed or not, is accepted by the model, so the panic is unreachable for all records that are collected. |
| Grouping.SortByKey | Lab02/src/main/mrsequential.go:61 | A permutation of the pairs, sorted by key. |
| Grouping.SequentialReduce | Lab02/src/main/mrsequential.go:70-86 | The scan with two indices writes one line for each maximal run of equal keys, with all the run's values. |
| Grouping.WorkerReduce | Lab02/src/mr/worker.go:137-155 | The scan in one pass writes the same lines. |
| Grouping.FirstRun | Lab02/src/mr/worker.go:126-155 | In a sorted sequence a run has all pairs of its key. |
| Grouping.GroupsAreExpected | Lab02/src/main/mrsequential.go:66-86 | So, after sorting, reduce is called exactly once for each distinct key, with all its values. |
| Grouping.SamePairsSameLines | Lab02/src/main/mrsequential.go:61-86 | If reduce ignores the order of values, the lines depend on the multiset of pairs alone. |
| Buckets.MapPartition | Lab02/src/mr/worker.go:66-75 | There is a list for exactly the buckets that get a pair, with the bucket's pairs in order; a pair is in the list that its key's hash, modulo the number of reduce tasks, names. |
| Buckets.BucketsConserve | Lab02/src/mr/worker.go:66-75 | The buckets together hold exactly the emitted pairs, and a pair is only in the bucket of its key. |
| Buckets.LinesOfBucket | Lab02/src/mr/worker.go:69-74 | Reducing a bucket gives the lines of the keys that belong to it. |
| Buckets.TotalIsExpected | Lab02/src/mr/worker.go:66-155 | Reducing all buckets separately gives the lines of reducing everything at once. |
| MapReduceTheorem.Sequential | Lab02/src/main/mrsequential.go:40-86 | The sequential program writes exactly one line for each key that map, called with the name and the content of some input, emits, and no other; its result is reduce of the key and values of which each occurs as often as all these calls together emit it with the key. |
| MapReduceTheorem.DoneRefinesSequential | Lab02/src/mr/worker.go:32-167 | For every run with any crashes, delays, reissues and repeated reports, once all tasks are done the multiset of lines over all output files is that of the sequential program, however the pairs were sorted. |
| MapReduceTheorem.DoneIsRight | Lab02/src/mr/worker.go:32-167 | And they are, said by the inputs and the application alone, those lines: one for each key that map emits, from all values that it emits with it, in the output file that the key's hash names. |
| MapReduceProgress.CanBeFinished | Lab02/src/mr/worker.go:32-167 | Every run, whatever has crashed or hangs in it, can be continued to one at the end of which all tasks are done: a fresh worker that does not crash is enough. |
| MapReduceProgress.CrashIsSurvived | Lab02/src/mr/worker.go:32-167 | A worker may crash at any moment outside the coordinator's handlers, and the job can be finished after that. |
| MapReduceProgress.ScanIsDone | Lab02/src/mr/coordinator.go:145-159 | `Done` takes the locks one after the other. If it has seen every task done, each at its own moment, all are done at its end, and the output is that of the sequential program. |
| MapReduceProgress.RunKeepsLocks | Lab02/src/mr/coordinator.go:96-115 | Every lock on a task is held by a handler that is about to release it. |
| MapReduceTheorem.StepKeepsInv | Lab02/src/mr/coordinator.go:36-117 | Every step of a worker, of a handler, a start and a crash keep the invariant that the following rest on. |
| MapReduceTheorem.NoEarlyReduce | Lab02/src/mr/coordinator.go:48-80 | No reduce task is handed out before every map task is done and its report is recorded. |
| MapReduceTheorem.OneFilePerMap | Lab02/src/mr/coordinator.go:96-113 | When the map tasks are done, each reduce task's list names exactly one file for each map task that emitted into its bucket, no file twice, all from the one accepted attempt at the map task. |
| MapReduceTheorem.FrozenOnceBegun | Lab02/src/mr/coordinator.go:96-115 | Once a reduce task was issued neither its list nor the listed files change. |
| MapReduceTheorem.ReadersNeverFail | Lab02/src/mr/worker.go:106-124 | A reduce attempt always finds its next file complete: the fatal errors of opening and decoding are unreachable. |
| MapReduceSteps.CountedAllMaps | Lab02/src/mr/coordinator.go:53-59 | The counter of done tasks reaches the number of map tasks only when all of these are done. |
| MapReduceShares.AcceptedPairs | Lab02/src/mr/coordinator.go:104-111 | A reduce task's files together hold exactly the pairs of its bucket. |
| CoordinatorObject.Coordinator.constructor | Lab02/src/mr/coordinator.go:164-194 | The tasks are those in which the transition system starts: none is issued or done, and each map task has its input file. |
| CoordinatorObject.Coordinator.AskTask | Lab02/src/mr/coordinator.go:36-83 | A new worker gets the next number. While fewer tasks are counted than there are map tasks, the reply is the first map task that is not done and was never issued or more than ten seconds ago, with its input file; from then on the first such reduce task, with its files. None is given exactly if there is no such task, and only the given one changes, as in the transition system's issuing step. |
| CoordinatorObject.Coordinator.TaskDone | Lab02/src/mr/coordinator.go:85-117 | The error for unknown tasks, the panic and the success are told apart exactly. A repeated report changes nothing; a first one marks and counts the task and, for a map task, appends its files to the lists of the reduce tasks, as the transition system does. |
| CoordinatorObject.Coordinator.Done | Lab02/src/mr/coordinator.go:145-159 | It answers whether all tasks are done. |
| Keys.CompareIsNumeric | Lab03/util.go:9-16 | Comparing byte by byte is comparing numbers. |
| Keys.BetweenOnCircle | Lab03/util.go:19-26 | The case analysis on byte order is betweenness going clockwise from the left bound, with equal bounds meaning everywhere but there. |
| Keys.AdoptsOnKeys | Lab03/chord.go:327-333 | The protocol's condition for a new successor is the source's pair of tests on bytes: between the node and the successor it asked, and between it and the one it has now. |
| Keys.KeyToLookAdds | Lab03/util.go:34-55 | For every index, the key is the 20-byte form of the identifier plus that power of two modulo 2^160. |
| ChordNode.ChordClient.constructor | Lab03/chord.go:51-100 | A new node is its own first successor and knows no other, knows no predecessor, and has an empty finger table. |
| ChordNode.ChordClient.FindClosestPrecedingNode | Lab03/chord.go:258-304 | It returns the greater, as a number, of the last qualifying finger below the cursor and the last qualifying successor. That is a node strictly between this one and the hash, or this one, and never the latter if its successor qualifies. |
| IdealTables.ChoiceIff | Lab03/chord.go:255-304 | On an ideal ring, with answers for fingers and a correct successor list of any length, the choice is the closest to the hash of all entries considered exactly if the two candidates, where there are two, are the same or on the same side of the node, and the list's last lap does not end before the closest entry of the list, unless a finger is as close as that. |
| IdealTables.FingersAreClockwise | Lab03/chord.go:435-446 | Fingers that are answers on an ideal ring are in clockwise order, but for those that name the node itself. |
| IdealTables.FilledIsAnswered | Lab03/chord.go:266-273 | Once all fingers are filled, those that a lookup considers are answers, wherever the cursor is. |
| IdealTables.ListsAreInLaps | Lab03/chord.go:239-253 | A correct list of any length goes clockwise round the ring in laps, each of which starts over where the node itself is named. |
| IdealTables.NotClosestInLongList | Lab03/chord.go:275-296 | The correct list of four entries on a ring of three nodes, of which the last is chosen although another one is closer. |
| ClosestPreceding.ClosestIff | Lab03/chord.go:255-304 | The same equivalence for any tables in such order. |
| ClosestPreceding.LastOfListIff | Lab03/chord.go:275-284 | The last qualifying entry of a list in laps is its closest exactly if the last lap is not cut off before that one; it has one exactly if any entry qualifies. |
| ClosestPreceding.NumbersAgree | Lab03/chord.go:298 | Comparing as numbers is comparing clockwise exactly for such keys. |
| ClosestPreceding.NotClosestAcrossZero | Lab03/chord.go:298-302 | An input across zero at which the closest is not chosen. |
| ChordNode.ChordClient.FindSuccessor | Lab03/chord.go:173-201 | On any snapshot in which entries name nodes of the network, a lookup ends, since every hop is closer to the hash, and answers with the successor of a node such that the hash is between the two. |
| ChordNode.ChordClient.ReqFindSuccessor | Lab03/rpc.go:94-102 | The fatal exit is taken exactly if a node asks itself; lookups never do. |
| ChordNode.IdealAnswer | Lab03/chord.go:173-201 | On an ideal ring the answer is the first member at or after the hash, from whichever node the lookup started. |
| ChordNode.HopIsCloser | Lab03/chord.go:184-186 | The clockwise distance that is left strictly decreases with each hop. |
| ChordNode.ChordClient.FixFinger | Lab03/chord.go:435-446 | The cursor goes round the table, and the entry it comes to, and no other, becomes the answer for that power of two. |
| ChordNode.ChordClient.FixFingers | Lab03/chord.go:119-124 | After the 160 turns with which the loop begins, wherever the cursor was, every finger is the answer for its power of two. |
| ChordNode.FilledIsFirst | Lab03/chord.go:435-446 | On an ideal ring, every finger i then is the first member at or after the node's identifier plus 2^i. |
| ChordNode.ChordClient.Notify | Lab03/chord.go:413-432 | A node takes another for its predecessor exactly if that is not itself and it knows none, or this one, or one that is farther; otherwise nothing changes. |
| ChordNode.ChordClient.Adopt | Lab03/chord.go:327-343 | The successor is replaced exactly if the candidate is alive and between this node and both the successor it asked and its present one; then the list is taken from the new one. |
| ChordNode.ChordClient.UpdateSuccessorList | Lab03/chord.go:239-253 | The list becomes the first successor followed by that one's list; if that one does not answer, it is replaced first. The node panics exactly if the other's list is longer than its own. |
| ChordNode.ChordClient.CheckSuccessor | Lab03/chord.go:204-235 | A successor that answers stays; otherwise the first entry that answers, or the node itself, becomes the first, and the list is updated from it. |
| ChordNode.ChordClient.Lookup | Lab03/chord.go:460-478 | A file's nodes are the successors of three keys made from its hash, each with its own successor. |
| ChordNode.PlacesAreFirst | Lab03/chord.go:460-478 | On an ideal ring these are, for j from 0 to 2, the first member at or after the file's hash plus 2 to the power 100 * j, and the next member after that. |
| ChordNode.LookupsAgree | Lab03/chord.go:460-478 | On an ideal ring any two nodes' lookups of a file give the same nodes. |
| ChordProtocol.ArcIsChain | Lab03/chord.go:327-343 | An arc of successors is a number of hops none of which passes the end. |
| ChordProtocol.ArcAfterAdopt | Lab03/chord.go:332-336 | Adopting a closer successor breaks no arc. |
| ChordProtocol.AnswerIsLookup | Lab03/chord.go:173-201 | A request to join is answered with the successor exactly where a lookup on bytes ends, and is otherwise passed to a node between the asked and the new one. |
| ChordInvariant.EntersInAnyRound | Lab03/chord.go:92-96 | The stabilize loop runs before the node has joined, so a node can enter at any point of a round with itself. |
| ChordInvariant.NextKeepsInv | Lab03/chord.go:310-347 | Every step of joining through a member, greeting and stabilizing keeps the invariant, also with what nodes have read out of date. |
| ChordInvariant.StaleAdoptsNothing | Lab03/chord.go:149-168 | A node that joined in the middle of a stabilize round with itself adopts nothing in that round. |
| ChordInvariant.ReachableStates | Lab03/chord.go:310-347 | In every state that a run reaches in which new nodes ask only members, every member reaches the creator along first successors, every predecessor's chain reaches its node inside the arc between them, and no edge jumps over the creator. |
| ChordInvariant.AskedAreMembers | Lab03/chord.go:147-160 | In these runs every node that a joining node asks, or is referred to, is a member. |
| ChordGaps.ChangeShrinks | Lab03/chord.go:413-432 | Every step that changes a successor or a predecessor, without a new member, makes the sum of the clockwise gaps strictly smaller, and the number of members inside them. |
| ChordGaps.InsidersBounded | Lab03/chord.go:310-347 | That number is at most 2 * N * N for N members. |
| ChordStabilization.FewChanges | Lab03/chord.go:310-347 | So a run without new members changes a successor or predecessor at most 2 * N * N times. |
| ChordStabilization.SettledIffIdeal | Lab03/chord.go:327-343 | A reachable state in which no node's stabilize round would change anything is exactly one in which every first successor is the next member clockwise and records its predecessor. |
| ChordStabilization.FrozenIsIdeal | Lab03/chord.go:310-347 | If every node makes a whole round and nothing changes, in any interleaving, the ring is ideal. |
| ChordStabilization.IdealStays | Lab03/chord.go:310-347 | No step but a new member's changes an ideal ring. |
| ChordStabilization.Converges | Lab03/chord.go:102-115 | Without new members, a run of 2 * N * N + 1 epochs, in each of which every node makes a round, ends in the ideal ring, however the steps interleave. |
| ChordProgress.CanConverge | Lab03/chord.go:310-347 | Every run can be continued, without new members, to one that ends in the ideal ring. |
| JoinContacts.StepIsRightIff | Lab03/chord.go:147-168 | With nodes that have started but not entered, and may be asked: a step keeps the invariant exactly if in it no node that has not entered answers a request. |
| JoinContacts.RunIsRightIff | Lab03/chord.go:147-168 | All states of a run have it exactly if this is so in all its steps. |
| JoinContacts.StepIsSoundIff | Lab03/chord.go:149-168 | A step keeps what the invariant says of members exactly if in it no node enters whose found node is not a member or lies beyond the creator. |
| JoinContacts.SoundRuns | Lab03/chord.go:147-168 | So in every run without such entries, whoever answered, all members reach the creator over edges that do not jump over it. |
| JoinContacts.AmongMembers | Lab03/chord.go:147-168 | If no request is answered by a node that has not entered, there are no such entries; the request may have been sent before that node entered. |
| JoinContacts.OneAskedTooEarly | Lab03/chord.go:149-160 | A run in which one request goes to a node that is still joining: a member's successor is no member, and later its edge jumps over the creator. |
| JoinContacts.RingSplits | Lab03/chord.go:149-160 | A run in which two new nodes ask each other: both become members, and never reach the creator. |
| ConvergedRing.IdealForLookups | Lab03/chord.go:173-201 | The protocol's ideal ring is the one on which lookups are right, and only that. |
| ConvergedRing.IdealForLists | Lab03/chord.go:239-253 | It is the one on which lists become right. |
| ConvergedRing.LookupsAfterConvergence | Lab03/chord.go:173-201 | After enough epochs every lookup finds the first member at or after the hash. |
| JoinRefusal.RefusedIff | Lab03/chord.go:162-165 | The greeting of a new node is refused, which ends it, exactly if the greeted node is itself or already knows a predecessor between the two. |
| JoinRefusal.CanBeRefused | Lab03/chord.go:149-168 | A run of two joins in which it is. |
| UpdateRounds.AfterRounds | Lab03/chord.go:239-253 | On an ideal ring with lists of r entries, after k rounds in each of which every node reads its successor's list and later writes its own, with all nodes' acts interleaved in any way, the first min(k + 1, r) entries of every list are the next members in order. |
| UpdateRounds.StuckIff | Lab03/rpc.go:151-161 | Some node can go on unless every node has taken its lock, none has its answer, and nobody is its own successor. |
| UpdateRounds.CanDeadlock | Lab03/chord.go:311-313 | Every ideal ring of more than one node has a run to that standstill. |
| UpdateProgress.CanFillIff | Lab03/chord.go:239-253 | Wherever the nodes of an ideal ring are with their updates, these can end and further ones make all lists right exactly if the nodes are not at that standstill. |
| SuccessorLists.NextIsUnique | Lab03/chord.go:239-253 | There is only one next member, so this determines the entries. |
| SuccessorLists.RepairFindsNext | Lab03/chord.go:204-235 | Repairing a correct list puts the next live member first exactly if some entry is alive, or no other member is. |
| SuccessorLists.DeadListMisleads | Lab03/chord.go:221-227 | An input at which the repair misses a live member. |
| SuccessorLists.LongerListPanics | Lab03/chord.go:245-247 | Two nodes with lists of different lengths, of which the one panics. |
| SuccessorLists.ShiftedAt | Lab03/chord.go:245-247 | Taking over a list keeps the first entry, puts the other's entries one place later, up to that one's length, and leaves the rest. |
| SuccessorLists.ShiftedIds | Lab03/chord.go:245-247 | Taking over a list of entries is taking over the list of their identifiers, which ties the node's method to the rounds. |
| SuccessorLists.FirstAliveById | Lab03/chord.go:211-219 | The scan of the entries' addresses is the scan of their identifiers. |
| Migration.NeverLost | Lab03/chord.go:349-399 | In every interleaving, a file has a holder exactly if it had one at first. |
| Migration.AfterPasses | Lab03/chord.go:349-399 | Once every node has made a whole pass, the holders of each file are exactly the nodes that its lookup names. |
| Migration.FilesAreThere | Lab03/chord.go:374-397 | A file that a pass reads or removes is there: the fatal exits are unreachable. |
| LookupPlaces.HoldersAreLookups | Lab03/chord.go:349-399 | On a fixed ideal network these are the nodes in the table that a lookup of the file returns, whoever makes it. |
| LookupPlaces.DestIsLookup | Lab03/chord.go:460-478 | The nodes of a file are those that every lookup names. |
| LookupPlaces.TableExists | Lab03/chord.go:460-478 | Each file has such a table. |
| MigrationContents.SoundIff | Lab03/rpc.go:163-174 | With storing as creating and then writing, a step keeps that all copies are whole or being written, and that passes carry whole contents, exactly if it does not read a file that is being written. |
| MigrationContents.SafeAtFirst | Lab03/chord.go:349-359 | What the next two rows start from holds of any whole copies before a pass has begun. |
| MigrationContents.ContentNeverLost | Lab03/chord.go:380-390 | At every moment some node has the whole content, or a pass is about to write it. |
| MigrationContents.FirstPlaceIsWhole | Lab03/chord.go:380-390 | After a whole pass of every node, at rest, the first node that the lookup names has it. |
| MigrationContents.CanBeCutShort | Lab03/rpc.go:163-174 | A run after which a node where the file belongs keeps less than its content. |
| Migration.StepKeepsInv | Lab03/chord.go:355-399 | A step takes a file only from a node that should not have it, and when all that should have it do; and brings one only to those. |

## Left out

- Raft, the key/value server on it, and the shard servers: their bodies are placeholders.
- `labrpc`, `labgob`, the test configurations, and Lab01: network simulation, encoding, HTTP.
- Sockets, files, JSON: requests are atomic steps or calls, the file store is a map from names to contents, and
  encoding is assumed lossless. AES and MD5 are not part of this model.
- FNV and SHA-1: any function from keys to bucket numbers, and any key as a file's hash.
- `mrapps`: map and reduce are parameters; map is a function of its arguments, reduce ignores the order of values.
- Names of files as text, and lines as text: a file is named by what its name is made of, a line is key and result.
- Clocks and tickers: whether a task is due again, and when a node's loop runs, is open.
- The go library's sorts: any sorted permutation where the result could depend on it, and an insertion sort in methods.
- ParallelCheck.VerdictIsRight: the driver is a transition system, since its point is the interleaving; the
  list of distinct records that it makes from pointers at the end is left out.
- CheckOperations.KvVerdict: which keys there are is given as a list, as `Partition` makes it.
- KvLocality.Partition: the type assertions on inputs hold by the types of the model.
- Visualization.ReplayAll: client numbers, times and descriptions, and the order of partials of the same length.
- ChordNode.ChordClient.FindClosestPrecedingNode: not that it is the closest node in the tables, which it need not be;
  exactly when it is, is `IdealTables.ChoiceIff`.
- ChordNode.ChordClient.FindSuccessor: the retry after a failed request; all nodes of the snapshot answer.
- ChordInvariant.NextKeepsInv: nodes that fail, and `check_predecessor`, which does nothing unless one does; requests
  to nodes that are still joining.
- ChordInvariant.ReachableStates: the same; which runs with such requests it holds of is in `JoinContacts`.
- JoinContacts.OneAskedTooEarly: of what a node does while it joins, only its answers before anybody has spoken to it.
- ChordNode.ChordClient.CheckSuccessor: which nodes answer does not change during the call.
- SuccessorLists.RepairFindsNext: the repair of one node; the code establishes no guarantee for the ring under failures.
- Migration.AfterPasses: while the ring changes, and files newly stored during the passes. The nodes of a file are a
  parameter; `LookupPlaces` ties it to lookups.
- MigrationContents.SoundIff: a file that is created and not yet written is Unfinished, whatever part of it there is.
- ChordStabilization.Converges: that rounds are made; nodes that wait for each other's locks make none.
- MapReduceProgress.CanBeFinished: that the job ends; only that it always can.
- The command line, logging, and the pages that show a history.
