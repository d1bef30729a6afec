# fyai: a verified model

fyai is a terminal agent. Its invocations share an arena of branches, each with a conversation and a
store; a turn talks to a model and runs its tool calls; sub-agents run in processes of their own. This
project models the parts of it that hold most state and decisions, and proves what they keep.

| files | what they model |
|---|---|
| `StoreValue`, `StoreMerge*` | the three-way merge of the stores of two concurrent invocations, and the loops that compute it |
| `BranchEntry`, `BranchNames`, `BranchMove`, `BranchLoop`, `BranchContext` | branch entries, branch names, rename and delete of a subtree |
| `BranchHolders`, `BranchJoin`, `BranchFaults` | whose entry each name has afterwards, the publish of a table against other processes, and what a move loses or a failed one leaves |
| `TurnLog`, `TurnCalls`, `TurnReads`, `TurnGate`, `TurnAccounts`, `TurnRun`, `ModelStep` | a turn: model steps, parallel and exclusive tool calls, rounds of the tool gate, cancels |
| `TurnJobs`, `TurnFixed` | which job's result a call gets, and runs in which every scan reads the calls by one function |
| `TurnFaults` | runs of a turn that leave a call with no result, with two, or with that of another call |
| `EventSpec`, `EventQueue` | the linked list of pending events |
| `CasStore`, `CasLaws`, `CasCopy` | concurrent publishing in the content-addressed store, the copy loop, and the shared probe of a copy method |
| `AgentNet`, `AgentNetLaws`, `AgentNetQuiet`, `AgentSpec`, `AgentRegistry` | requests forwarded through a tree of processes, and the registry of one process |
| `Catalog*` | reading and writing a catalogue by paths |
| `Utf8`, `Utf8Chars`, `CastLog`, `CastRecorder` | the recorder of terminal output |
| `BranchRows` | the order of the rows of the branch browser |
| `Base64*` | the base64 decoder |
| `Options`, `Selection` | an optional value, and what is selected out of a sequence |

`dafny verify dfyconfig.toml` verifies the whole project.

How things are modelled:

- What the program updates step by step is a class or a method with loops, proved against a function; the
  laws are about the function, or are invariants that every method keeps. Concurrent workers and the tree
  of processes are state machines, one step for each system call or each item of a list, in any order.
- The hash is a parameter. Where a law needs that different bytes have different digests, it asks for it.
- Times, the model's replies, the answers of system calls, the order in which a mapping gives its keys, how
  each scan of a response reads which calls are parallel, and what other processes do are parameters or free
  choices of a step.
- A store value has string keys; a conflict path is a list of keys, and the merge reports a set of them.
- A string of the C program is a sequence of characters, one for each byte.

Where the code and what it is for disagree, the model follows the code:

- Whether a call runs in the parallel group is read from the context at each scan of the response
  (`src/fyai_tools.c:4710-4732`): a skill that forks counts as an agent, and the skills can change when a todo
  list is published between two scans (`src/fyai_storage.c:1476-1477`). A call that is read differently then is
  answered twice (`TurnFaults.DoubledRun`) or never (`TurnFaults.MissingRun`). `TurnReads.SettledIff` states
  exactly when a response is settled, and `TurnRuns.TurnRun.Play` carries that over a whole run. Where every scan
  reads the calls by one function, each request has one result for each call (`TurnFixed.Play`).
- Collecting the parallel group takes the jobs by position (`src/fyai.c:2016-2029`). When it reads the calls
  differently than the scan that submitted the group, a call can get the result of another one, with the turn
  settled all the same (`TurnFaults.SwappedRun`). `TurnJobs.OwnResultsIff` states exactly when each result is that
  of the call's own job.
- A cancel, or a stop in an after round, can leave exclusive calls without a result
  (`TurnFaults.InterruptedRun`), and a cancel of a half-answered before round the calls that it had denied
  (`TurnFaults.DeniedRun`). `TurnReads.SettledIff` and `TurnGate.CancelledRoundIsSettled` state exactly when the
  turn is settled then.
- A clone of a whole file checks the size of the source first and clones then. When the source grows in
  between, the object has more bytes than were hashed and does not hash to its name, although the private
  copy is meant to rule that out (`CasLaws.GrownCloneIsMisnamed`). `CasLaws.AddressedIff` states exactly when the
  store is content-addressed.
- A rename accepts names of up to 511 characters and a delete can make the name HEAD; neither is a valid
  branch name (`BranchNames.RenameCanExceed`, `BranchNames.DeleteCanMakeHead`). `BranchNames.RenamedValid` and
  `BranchNames.ReparentedValid` state exactly when names stay valid.
- A rename or a delete that stops, at a current branch whose new name is not valid or, for a delete, at an entry
  that does not decode, leaves the table alone, but what came before the stop has followed
  (`BranchFaults.StoppedDelete`). One that cannot be published also leaves the table alone, but the current branch
  and HEAD have followed (`BranchFaults.UnpublishedRename`). `BranchContexts.BranchContext.Rename` and `Delete`
  state exactly which happens and what is selected then, and `BranchLoop.AfterMoveStays` when that is what was
  selected before.
- A publish that fails after it joined the changes of another process, and does not move HEAD itself, leaves the
  context with the HEAD of that process and without its table (`BranchFaults.AdoptedHead`).
- A name whose entry does not decode counts as free, so a move overwrites that entry
  (`BranchFaults.OverwrittenEntry`), or loses the branch that moves to it when the name itself moves later
  (`BranchFaults.SwallowedBranch`). A delete of the empty name, where the table has it, lets other names collide
  (`BranchFaults.CollidingDelete`). `BranchHolders.LostIff` states exactly which entries are lost.
- Deleting the branch that HEAD names leaves HEAD dangling (`BranchFaults.DanglingDelete`), and nothing else
  does (`BranchLoop.HeadDangles`).
- A catalogue write that makes an item under a numeric name can make one that its own path does not find
  (`CatalogLaws.NumberedItemIsLost`). `CatalogLaws.NewItemIsFound` and `CatalogLaws.PutThenGet` state exactly when
  the path finds what it wrote.
- When a held start of a character turns out to be no character, the recorder writes one replacement for all
  held bytes, so for invalid output the number of replacements depends on where it is cut
  (`Utf8.CutLosesOne`, `CastLog.CutIsRecorded`). `Utf8.PutIsRepairIff` and `CastLog.ClosedIsRepairIff` state
  exactly when nothing is lost. The text is valid UTF-8 all the same.

## Model

| member | source | states |
|---|---|---|
| StoreMergeLoops.IndexSequence | src/fyai_branch.c:494-513 | The loop over a sequence gives the index of its items by name, or none when an item has no name or shares one |
| StoreMergeLoops.MergeItems | src/fyai_branch.c:520-561 | The merge of two named sequences, in its two passes, gives the assembled items and the conflict paths of all names |
| StoreMergeLoops.MergePass | src/fyai_branch.c:520-561 | One pass over the items of a side visits the names that an earlier pass did not, in order |
| StoreMergeLoops.MergeEntries | src/fyai_branch.c:603-647 | The passes over the keys of the three mappings visit each key once and leave out absent results |
| StoreMergeLoops.MergeValue | src/fyai_branch.c:569-648 | The loops with a conflict accumulator compute the merge that the laws are about: same value, same conflict paths |
| StoreMergeLaws.NoUpdateIsLost | src/fyai_branch.c:578-647 | At every place with no conflict at it or above it the merge holds the change of the only side that made one; where all three differ it is one that can be merged below |
| StoreMergeLaws.ConflictKeepsOurs | src/fyai_branch.c:589-602 | Every reported path is a place where base, ours and theirs pairwise differ and cannot be merged below, and ours is kept there |
| StoreMergeLaws.DescendsIff | src/fyai_branch.c:578-602 | Three values that pairwise differ are merged below exactly when the place is not the list of todos, the depth is less than 32, and the sides are mappings over a mapping or none, or sequences of differently named items over such a sequence or none |
| StoreValue.HasNamesIff | src/fyai_branch.c:478-513 | A sequence has an index exactly when its items have different names: each a string under "name", or else under "canonical_id" |
| StoreMergeConflicts.ConflictIff | src/fyai_branch.c:578-602 | Exactly which places are reported: all three sides differ there and cannot be merged below it, and each place above it is merged below; for any values |
| StoreMergeConflicts.StoreConflictIff | src/fyai_branch.c:650-671 | The same for whole stores, where anything but a mapping counts as empty |
| StoreMergeConflicts.ChangesOfKeysUnite | src/fyai_branch.c:594-647 | Mappings, over a mapping or none, of which no key was changed in two ways, are merged to both changes without a conflict |
| StoreMergeConflicts.AddedMappingsUnite | src/fyai_branch.c:594-602 | Mappings that both sides add, with no key in common, are merged to their union without a conflict |
| StoreMergeLaws.LevelValue | src/fyai_branch.c:520-647 | Below a merged mapping or named sequence the merge holds, at each key or name, the merge of what is there |
| StoreMergeLaws.MergeKeepsName | src/fyai_branch.c:478-488 | The merge of items of one name, named by one key, is absent or keeps the name |
| StoreMergeLaws.MergeWellFormed | src/fyai_branch.c:569-648 | A merge of well-formed values is well formed |
| StoreMergeLaws.MergeIsNeverBase | src/fyai_branch.c:578-602 | Below the early exits a merge never gives back the base |
| StoreMergeLaws.TheirsIsNoConflict | src/fyai_branch.c:569-648 | A merge that gives theirs reports no conflict |
| StoreMergeLaws.MergeIsFixed | src/fyai_branch.c:569-648 | Merging the result again with the same base and theirs gives the same value and the same conflict paths |
| StoreMergeSwap.SwapKeepsConflicts | src/fyai_branch.c:569-648 | Swapping the two sides gives the same set of conflict paths, for all values |
| StoreMergeSwap.SwapKeepsValue | src/fyai_branch.c:472-648 | Without a conflict, swapped sides give the same result up to the order of items of named sequences |
| StoreMergeSwap.SwapOfTrees | src/fyai_branch.c:472-648 | On trees of mappings, swapped sides without a conflict give an equal result |
| StoreMergeTheorems.NamedMergeOrder | src/fyai_branch.c:520-561 | Of the names of ours and then of theirs, a named merge has exactly those of ours that stay and those that only theirs has and that stay, in that order, with distinct names, each item the per-name merge |
| StoreMergeTheorems.MergeIsAbsent | src/fyai_branch.c:578-588 | A merge gives nothing exactly when ours deleted the value, neither side has it, or theirs deleted what ours left untouched |
| StoreMergeTheorems.ItemIsGone | src/fyai_branch.c:545-560 | Exactly which items a named merge drops: an item that one side deleted and the other left untouched is gone, and a deletion of ours that theirs changed is kept and reported |
| StoreMergeTheorems.StoreMergeIsFixed | src/fyai_branch.c:650-671 | The fixed point at the level of whole stores, where anything but a mapping counts as empty |
| StoreMergeTheorems.StoreMergeIsMapping | src/fyai_branch.c:650-671 | A store merge gives a mapping |
| StoreMergeTheorems.StoreMergeSwaps | src/fyai_branch.c:650-671 | The swap law at the level of whole stores |
| StoreMergeTheorems.MixedKeysLoseTheName | src/fyai_branch.c:478-488 | A concrete merge of items named by different keys whose result has another name: why the laws ask for one naming key |
| BranchNames.NameValid | src/fyai_branch.c:164-207 | The walk over a name accepts exactly the valid ones: not HEAD, at most 255 characters, no white space, control or reserved character except the mark of an agent where that is allowed, and no component that is empty, "." or ".." |
| BranchEntry.StoreRebuilds | src/fyai_branch.c:440-456 | The store that is built from a decoded entry is its store without the known members that are null |
| BranchEntry.DecodeBuilt | src/fyai_branch.c:673-692 | Decoding a built entry gives back conversation, chain, origin, operation, project and store |
| BranchEntry.CleanedMember | src/fyai_branch.c:424-438 | Every known member reads from the rebuilt store as before, and members unknown to the program stay |
| BranchNames.RenamedValid | src/fyai_branch.c:1457-1468 | A renamed branch has a valid name exactly when the name is no longer than 255 |
| BranchNames.RenameCanExceed | src/fyai_branch.c:1460-1464 | A concrete rename below the checked 512 makes a name that is too long to be valid |
| BranchNames.ReparentedValid | src/fyai_branch.c:1378-1391 | A branch that a delete moves has a valid name exactly when that name is not the reserved HEAD |
| BranchNames.DeleteCanMakeHead | src/fyai_branch.c:1400-1403 | A concrete delete makes the reserved name |
| BranchMove.SourceOfTarget | src/fyai_branch.c:1400-1403 | The old name of a moved branch can be read off its new name, for rename and delete |
| BranchMove.TargetsDiffer | src/fyai_branch.c:1475-1476 | A rename and a delete give different branches different new names |
| BranchMove.MovesOne | src/fyai_branch.c:1492-1493 | One step of the loop, whatever was moved before it, moves its name and nothing else |
| BranchMove.MoveIsUnique | src/fyai_branch.c:1470-1506 | The whole move gives one table, so the iteration order does not matter |
| BranchMove.MovedEntryKeeps | src/fyai_branch.c:1479-1491 | A moved entry keeps its head, its project and its store up to null members, chains to its old entry, and names the rename, its old name and the time; the current branch keeps its entry on a rename |
| BranchMove.OldNamesAreGone | src/fyai_branch.c:1395-1399 | No old name of the subtree is left |
| BranchMove.MoveDecodes | src/fyai_branch.c:338-375 | A simultaneous move keeps every entry of the table decodable |
| BranchHolders.LoopDecodes | src/fyai_branch.c:1470-1506 | The loop keeps a table decodable, for any names |
| BranchHolders.HolderHas | src/fyai_branch.c:1470-1506 | For any table, each name has the entry of its holder after the loop, as it was or as a move records it, and no other name has one |
| BranchHolders.LostIff | src/fyai_branch.c:1394-1425 | Exactly which entries a move loses: a deleted one, one outside the subtree that a branch moves onto, and one whose new name a later branch moves away from or onto |
| BranchHolders.FreeLosesNothing | src/fyai_branch.c:1455-1468 | Where no new name is taken only the deleted branch is lost |
| BranchContexts.BranchContext.CheckTargets | src/fyai_branch.c:1456-1468 | The first loop of a rename accepts exactly when no new name is that of a branch that is found, and all are shorter than 512 |
| BranchContexts.BranchContext.CheckFree | src/fyai_branch.c:1377-1391 | The first loop of a delete accepts exactly when no new name is that of a branch that is found |
| BranchContexts.BranchContext.MoveAll | src/fyai_branch.c:1470-1506 | The loop, in any order of the table, is the specified run of single moves: its table, and what the current branch and HEAD are when it ends or stops |
| BranchJoin.Join | src/fyai_storage.c:1710-1757 | The two loops join exactly when no changed name was changed in between, and give the latest table with those changes |
| BranchJoin.JoinIsUnique | src/fyai_storage.c:1710-1757 | There is one joined table, whatever order the loops take |
| BranchJoin.JoinKeepsBoth | src/fyai_storage.c:1710-1757 | The changes of both processes are in the joined table, whichever publishes first |
| BranchContexts.BranchContext.PublishTable | src/fyai_storage.c:1759-1853 | A publish joins each race it loses, fails at the first that clashes or after four, and takes the HEAD of the last joined one unless it moves HEAD |
| BranchLoop.MoveLaw | src/fyai_branch.c:1470-1506 | Where no new name is taken, that run is one simultaneous re-keying of the subtree exactly when it stops at no name; the current branch and HEAD have followed then, and else each has exactly when it came before the stop |
| BranchLoop.AfterMoveStays | src/fyai_branch.c:1494-1506 | What is selected after a move is what was selected before exactly when neither the current branch nor the branch of HEAD moves |
| BranchLoop.HeadDangles | src/fyai_branch.c:1395-1425 | After a delete a HEAD that named a branch names none exactly when it named the deleted one |
| BranchFaults.UnpublishedRename | src/fyai_branch.c:1500-1519 | A concrete rename that fails when it is published and leaves HEAD at a name that no branch has |
| BranchFaults.StoppedDelete | src/fyai_branch.c:1395-1425 | A concrete delete that stops at the current branch and leaves HEAD at a name that no branch has |
| BranchFaults.DanglingDelete | src/fyai_branch.c:1395-1425 | A concrete delete that succeeds and leaves HEAD dangling |
| BranchFaults.AdoptedHead | src/fyai_storage.c:1829-1844 | A concrete failed rename that leaves the context at the HEAD of another process, no branch of its table |
| BranchFaults.OverwrittenEntry | src/fyai_branch.c:1466-1493 | A rename onto a name whose entry does not decode loses that entry |
| BranchFaults.SwallowedBranch | src/fyai_branch.c:1470-1506 | A rename to a name below, whose entry does not decode and moves later, loses the renamed branch |
| BranchFaults.CollidingDelete | src/fyai_branch.c:1394-1403 | A delete of the empty name moves two names to one, and one entry is lost |
| BranchContexts.BranchContext.Rename | src/fyai_branch.c:1439-1524 | For any table, exactly when a rename is refused, stops, cannot be published or succeeds, and in each case the table, the current branch, HEAD and the link of the chain; tables that decode stay so |
| BranchContexts.BranchContext.Delete | src/fyai_branch.c:1360-1437 | For any table and name, exactly when a delete is refused, stops, cannot be published or succeeds, and in each case the table, the current branch and HEAD; tables that decode stay so |
| TurnLog.OwedAreTheOthers | src/fyai.c:1471-1484 | In a log that owes some results every call has one result or is owed one |
| TurnLog.AtMostOneResult | src/fyai.c:1549-1590 | No call of a turn has more results than calls |
| TurnLog.ExactlyOneResult | src/fyai.c:1471-1484 | In a settled turn each call has exactly one result |
| TurnLog.OwesOnlyOne | src/fyai.c:1471-1484 | What a turn owes is determined by its messages |
| TurnLog.ResponseIsAnswered | src/fyai.c:1549-1590 | The results between a response and the next one are exactly those of its own calls: none missing, doubled or late |
| TurnLog.BooksSettled | src/fyai.c:1471-1484 | With calls that miss a result and calls that have too many, a log is settled exactly when these are the same |
| TurnLog.BooksCount | src/fyai.c:1999-2078 | Calls and surplus results together are the results and what is owed |
| TurnCalls.NextExclusive | src/fyai.c:1549-1590 | The next call that this scan does not read as parallel is found, and only calls that it reads as parallel are skipped |
| TurnCalls.ParallelCount | src/fyai.c:2127-2138 | The loop counts the calls that this scan reads as parallel; the count is zero exactly when it reads none so |
| TurnCalls.GroupsMakeAll | src/fyai.c:2127-2138 | The calls that one scan reads as parallel and the other ones together are the calls of the response |
| TurnCalls.AppendResults | src/fyai.c:1999-2078 | Collecting a group appends one result for each call that the scan at collection takes for one of the group, in their order, each with the text of the next job, and reports these calls |
| TurnCalls.OneResult | src/fyai.c:1999-2078 | Collecting an exclusive call answers that call alone, unless this scan reads it as parallel: then none |
| TurnJobs.OwnJobsIff | src/fyai.c:2016-2029 | A call that collecting takes is at the position of its own job exactly when both scans read it and all calls before it alike; every submitted call is, exactly when they read all calls alike |
| TurnJobs.OwnResultsIff | src/fyai.c:2016-2041 | Each result is that of the own job of the call, whatever the jobs give, exactly when collecting reads each call that it takes, and all before it, as the submitting scan did |
| TurnReads.GroupKeeps | src/fyai.c:2012-2041 | Collecting the parallel group, however it reads the calls, adds exactly the results that the readings say |
| TurnReads.CollectKeeps | src/fyai.c:2012-2041 | So does collecting an exclusive call: a first result, a second one, or none |
| TurnReads.AgreeSettles | src/fyai.c:1999-2078 | A response whose calls are all read alike is settled |
| TurnReads.SettledIff | src/fyai.c:1549-1590 | A response with different call ids is settled exactly when each call got one result, which is exactly when no call was read differently by a later scan that decides on it |
| TurnAccounts.OpenCloses | src/fyai.c:1471-1484 | Between responses the turn is settled when every response so far was read alike, and where call ids differ only then |
| TurnGate.FreshRound | src/fyai.c:1644-1689 | A new round waits for every slot |
| TurnGate.AnswerCounts | src/fyai.c:1705-1720 | An answer to a slot that waits lowers the count of unanswered slots by one |
| TurnGate.AllAnswered | src/fyai.c:1705-1720 | The count is zero exactly when all slots are answered |
| TurnGate.FindRelay | src/fyai.c:1748-1761 | The first relayed round of an id is found |
| TurnGate.RemovedRelay | src/fyai.c:1748-1761 | A relayed round that is taken is gone, ids stay different, and no round is added |
| TurnGate.DeniedAndHeld | src/fyai.c:1923-1964 | The calls of a round are the denied ones and the held ones |
| TurnGate.IdsOfAllowed | src/fyai.c:1949-1958 | The calls that go on to run are exactly those not denied |
| TurnGate.ResolveCalls | src/fyai.c:1923-1964 | The loop gives the turn with each denied call answered by its text and no other call; the calls that go on are those not denied, in order, each with its id and its arguments, or the edited ones where the gate gave others and the call is not native |
| TurnGate.DenialsLeaveAllowed | src/fyai.c:1949-1964 | After the denials the turn owes exactly the calls that go on to run |
| TurnGate.RefuseCalls | src/fyai.c:1875-1894 | The loop answers each call that was not denied, with the cause, and no denied one |
| TurnGate.RefusalsLeaveDenied | src/fyai.c:1875-1894 | After a cancel the turn owes exactly the calls that were denied so far |
| TurnGate.StopAnswersAll | src/fyai.c:1965-1975 | After a stop of a before round, with its denials and refusals, no call of the round is owed a result |
| TurnGate.AddContexts | src/fyai.c:1930-1948 | The texts of an after round are appended as input of the user, those that are not empty, in order, and answer nothing |
| TurnGate.FirstStop | src/fyai.c:1926-1929 | Whether an answer stops the turn, and the text of the first that does |
| TurnGate.CancelledRoundIsSettled | src/fyai.c:1875-1894 | A cancelled before round leaves a settled turn exactly when it had denied no call yet |
| TurnRuns.TurnRun.SubmitModel | src/fyai.c:1471-1547 | The next request is made below the limit and with the record of what each call has so far, or the turn ends with what it has |
| TurnRuns.TurnRun.RequestModel | src/fyai.c:1513-1547 | What a request submits, and what is kept when it cannot be made |
| TurnRuns.TurnRun.SubmitExclusive | src/fyai.c:1549-1590 | The next call that this scan reads as exclusive runs, or with none the response is over and the next request is made |
| TurnRuns.TurnRun.DispatchTools | src/fyai.c:2185-2194 | The calls that the first scan reads as parallel run first as a group, else the first exclusive one |
| TurnRuns.TurnRun.GateOpen | src/fyai.c:1644-1689 | A round gets a new id and a waiting slot for each call |
| TurnRuns.TurnRun.Allow | src/fyai.c:1810-1830 | An allow answers a relayed round of its id, or the waiting slot of the open before round that it names, or changes nothing |
| TurnRuns.TurnRun.Deny | src/fyai.c:1832-1852 | A deny, likewise, with its text |
| TurnRuns.TurnRun.Done | src/fyai.c:1854-1872 | An answer of an after round, likewise |
| TurnRuns.TurnRun.RelayRound | src/fyai.c:1776-1808 | A relayed round gets an id from the same counter |
| TurnRuns.TurnRun.AnswerRelay | src/fyai.c:1764-1774 | A relayed round is answered once, to the sub-agent that asked |
| TurnRuns.TurnRun.ResolveBefore | src/fyai.c:1910-1997 | A resolved before round answers denials and goes on with the other calls, in order and with their edited arguments, or with a stop leaves every held call with exactly one result |
| TurnRuns.TurnRun.ResolveAfter | src/fyai.c:1910-1997 | A resolved after round goes on, or with a stop ends the turn with exactly the results that the readings so far say |
| TurnRuns.TurnRun.CollectTools | src/fyai.c:1999-2078 | A collected group gets its results, call by call, as the scan at collection reads the calls; the turn then ends with exactly these, waits for its gate round, or goes on |
| TurnRuns.TurnRun.ProcessModel | src/fyai.c:2209-2244 | Each kind of model response has its own effect: the turn ends, the calls go to the gate or run, or the model is asked again |
| TurnRuns.TurnRun.AbortOutput | src/fyai.c:1297-1319 | A failed turn keeps what was settled, or nothing |
| TurnRuns.TurnRun.Stop | src/fyai.c:1322-1340 | A stopped turn keeps what it has |
| TurnRuns.TurnRun.Transition | src/fyai.c:1208-1250 | A run changes its state exactly as the table allows; anything else fails it, unless it has ended |
| TurnRuns.TurnRun.Cancel | src/fyai.c:2322-2341 | A cancel ends an open round at once and then owes exactly the calls denied so far, or what the readings say; else it only is remembered |
| TurnRuns.TurnRun.Handle | src/fyai.c:2294-2320 | Anything that happens, at any time, has exactly its effect and keeps the invariant; what does not fit the state changes nothing at all; round ids only grow, a round that is over stays over, and an ended run keeps its result |
| TurnRuns.TurnRun.Play | src/fyai.c:1471-1504 | In every run each request is made with exactly one result for each call so far when every scan read the calls alike, and where call ids differ only then; there are at most max_tool_iterations requests; no call is answered twice unless a later scan read it differently |
| TurnFixed.Play | src/fyai_tools.c:4710-4732 | In any run whose scans read each call by one function of the call, every request has exactly one result for each call, and what the run leaves answers no call twice |
| TurnRuns.TurnRun.Echo | src/fyai.c:1810-1872 | Answers with the id of a round that is over, or of none, change nothing, however many come, for any starting counter and relayed rounds |
| TurnFaults.DoubledRun | src/fyai_skill.c:2184-2210 | A run in which a call that the group read as parallel is read as exclusive later: the next request has two results for it |
| TurnFaults.MissingRun | src/fyai_skill.c:2184-2210 | A run in which a call outside the group is read as parallel later: the next request has no result for it |
| TurnFaults.SwappedRun | src/fyai.c:2016-2041 | A run with one result for each call in which the group is collected for another call than it was submitted for: that call has the result of the other one |
| TurnFaults.InterruptedRun | src/fyai.c:2062-2068 | A run interrupted before an exclusive call, with a log that is not settled |
| TurnFaults.DeniedRun | src/fyai.c:2322-2341 | A run cancelled after a denial, with a log that owes the denied call |
| ModelSteps.ModelStep.RequestComplete | src/fyai.c:937-1011 | A reply ends the step, or a chain miss or a refusal of log probabilities is tried again, without the link or the extents; in each case the state, the result, the link, the extents and the previous turn |
| ModelSteps.ModelStep.Retry | src/fyai.c:925-935 | A retry that cannot start ends the step |
| ModelSteps.ModelStep.Finish | src/fyai.c:912-923 | A step ends once and reports it once |
| ModelSteps.ModelStep.Submit | src/fyai.c:1042-1074 | The first transfer of a step |
| ModelSteps.ModelStep.Transition | src/fyai.c:567-605 | A step changes its state exactly as the table allows; anything else fails it, unless it has ended |
| ModelSteps.ModelStep.Cancel | src/fyai.c:1076-1085 | A cancel of a step that goes on is remembered |
| ModelSteps.ModelStep.Play | src/fyai.c:937-1011 | Whatever replies come, a step makes at most three transfers, ends after the third, and reports its end once |
| EventSpec.RunGood | src/fyai.c:2896-3219 | In every run each injected event has exactly one fate, and live takes deliver in the order of injection, each event once |
| EventSpec.TakeLiveIsFirst | src/fyai.c:3185-3219 | A live take hands out the first event that is unseen and live; the unseen ones before it are gone as stale, the seen ones stay, and no other fate changes |
| EventSpec.PeekIsFirst | src/fyai.c:3084-3100 | A peek hands out the first live event with the prefix and only marks it |
| EventSpec.PurgeSheds | src/fyai.c:3102-3119 | A purge keeps exactly the unseen events, in order and as they were; the others have that fate, and no other fate changes |
| EventSpec.DropOwnerSheds | src/fyai.c:3122-3145 | The drop of an owner keeps exactly the events of other owners, in order and as they were; those of the owner have that fate, and no other fate and no delivery changes |
| EventQueues.EventQueue.Inject | src/fyai.c:2922-2965 | The new event is linked at the tail link, which then is its next field |
| EventQueues.EventQueue.Take | src/fyai.c:3030-3045 | The first event is unlinked and handed out |
| EventQueues.EventQueue.Unlink | src/fyai.c:3102-3119 | Linking past an event keeps the chain and the tail link, also for the last event |
| EventQueues.EventQueue.Purge | src/fyai.c:3102-3119 | The pointer walk removes exactly the events that a waiter has seen |
| EventQueues.EventQueue.DropOwner | src/fyai.c:3122-3145 | The pointer walk removes exactly the events of a named owner, and none for an owner without a name |
| EventQueues.EventQueue.TakeLive | src/fyai.c:3185-3219 | The pointer walk drops stale events and delivers the first unseen one with no owner or an owner that is still live; without one it delivers nothing |
| EventQueues.EventQueue.Peek | src/fyai.c:3084-3100 | The walk marks and hands out the first event that starts with the prefix and has no owner or a live one; without one it changes nothing |
| EventQueues.EventQueue.Queued | src/fyai.c:3047-3055 | Whether an unseen event is in the list |
| CasLaws.RunInv | src/fyai_cas.c:610-687 | In every interleaving a published inode was hashed complete and is read-only, or was closed, and each worker holds its own temporary file |
| CasLaws.TempsAreSeparate | src/fyai_cas.c:610-687 | Two workers never share a temporary name or file |
| CasLaws.TempsAreHeld | src/fyai_cas.c:610-687 | In every interleaving the store has exactly the temporary names that some worker still publishes from: none is left behind |
| CasLaws.FailureIsCleaned | src/fyai_cas.c:682-687 | A worker whose system call failed removes its own temporary name, changes nothing else, and reports nothing |
| CasLaws.PublishedForever | src/fyai_cas.c:610-687 | A published object is never replaced and its bytes never change |
| CasLaws.AddressedIff | src/fyai_cas.c:309-372 | The store is content-addressed after a run exactly when each copy linked under a new digest has the size that was hashed |
| CasLaws.ExactClonesAreAddressed | src/fyai_cas.c:309-372 | Where each clone meets a source of the size that the worker saw, every owned object hashes to its name in every interleaving, whatever else writers do |
| CasLaws.GrownCloneIsMisnamed | src/fyai_cas_linux.c:38-57 | A concrete run in which a source grows between the size check and the clone and the published object does not hash to its name |
| CasLaws.ShortcutIsStored | src/fyai_cas.c:469-492 | An object accepted by its form or its inode has the digest and the size |
| CasLaws.CheckIsExact | src/fyai_cas.c:494-536 | A worker that links a closed file under a name that is taken reports success exactly when the bytes of the object hash to the digest and have the size |
| CasLaws.LinkedIsReported | src/fyai_cas.c:494-536 | A closed file is linked under a name that is new and then reported; under a name that is taken the link changes no entry, and exactly an object with the digest and the size is reported |
| CasLaws.CollisionIsExact | src/fyai_cas.c:667-680 | A copy whose digest is stored already is reported exactly when the bytes of the stored object hash to the digest and have the size; else the publish fails |
| CasLaws.PublishReports | src/fyai_cas.c:610-687 | In every interleaving with exact clones, a publish that ends without a failed system call reports the hash and the size of its copy, whether that content was stored before or not |
| CasLaws.CopyIsHashed | src/fyai_cas.c:309-372 | A complete exact copy is hashed as it is |
| CasLaws.ShortCopyIsHashedIff | src/fyai_cas.c:309-372 | A copy that is shorter than the size is never hashed up to 64 KiB, and above exactly when its end and the size are in one page, as its bytes with zeros behind them |
| CasLaws.PublishEnds | src/fyai_cas.c:650-680 | In every interleaving with exact clones, a hashed copy can be published at any time: the steps that are left end with its blob reported and stored |
| CasLaws.PublishStores | src/fyai_cas.c:610-687 | In every interleaving with exact clones, a worker that is free can publish any content, copied or cloned: the store then has exactly these bytes under their digest, whether it had them before or not, and their blob is reported |
| CasLaws.ReportIsStored | src/fyai_cas.c:610-687 | Where each clone is exact, what a worker reports is stored, owned or borrowed: the bytes have the digest and the size |
| CasLaws.ReportIsStoredIff | src/fyai_cas.c:610-687 | In any run what a worker reports is stored exactly when it is borrowed or the stored copy has the size that was hashed |
| CasCopy.CopyBytes | src/fyai_cas.c:164-194 | The copy loop moves exactly the size, falls back once to sendfile and names the method that moved the last bytes, exactly when the answers of the calls, each of at most 1 GiB, add up to the size before one of them ends the copy; else it fails |
| CasCopy.ChunksCount | src/fyai_cas.c:164-194 | A copy under way has moved what is not left; a complete one exactly its size |
| CasCopy.RunInv | src/fyai_cas.c:212-273 | The invariant of the shared probe in every interleaving |
| CasCopy.OneProbes | src/fyai_cas.c:212-273 | At most one worker probes, and none follows a method before one is published |
| CasCopy.SomeoneProbes | src/fyai_cas.c:212-273 | While the shared state says that a probe runs, some worker runs it |
| CasCopy.StaysPublished | src/fyai_cas.c:212-273 | Once a method is published the shared state never returns to none or probing |
| CasCopy.BytesAreCounted | src/fyai_cas.c:212-273 | Copied plus reflinked bytes are the sizes of the calls that succeeded |
| CasCopy.CallEnds | src/fyai_cas.c:212-273 | A call alone clones or copies by the shared method, or as the probe; its method is then shared if it was the probe or dropped to sendfile, its bytes are counted once, and a failed call leaves the shared state as it was |
| AgentNetLaws.RunKeeps | src/fyai_agents.c:246-321 | In every run each request is in one place: on its way, with the user, sent onward, answered once, or dropped with its connection |
| AgentNetLaws.AtMostOnce | src/fyai_agents.c:260-274 | No request is answered twice and no client learns of two answers |
| AgentNetLaws.NothingWaits | src/fyai_agents.c:276-321 | In a quiet state nothing is pending, since a pending request waits for a later one |
| AgentNetLaws.ExactlyOnce | src/fyai_agents.c:246-321 | In a quiet state each own request completed once and each request was answered once unless its connection is gone, over any hops and closures |
| AgentNetQuiet.QuietIsReached | src/fyai_agents.c:246-321 | Every run goes on to a quiet state without cutting a connection that works, and there every request is answered exactly once unless its connection is gone |
| AgentNetLaws.AnswersPassThrough | src/fyai_agents.c:260-274 | A server answers, and a process gets, the value that the last process of the chain gave; where no end of a connection failed or closed that is so for a failure too |
| AgentNetLaws.AnswerHasCause | src/fyai_agents.c:246-321 | In every run an answer was given by a process that did not send the request onward, or is a failure and on the chain an end that waited for the answer failed or closed |
| AgentNetLaws.NothingFails | src/fyai_agents.c:246-321 | Where nothing failed or closed, and processes answer values and send onward on other connections of theirs, no request fails, over any hops |
| AgentNetLaws.PassedIff | src/fyai_agents.c:276-321 | A request to pass is sent onward exactly on another connection of the process that is not closed; else it fails there |
| AgentNetLaws.GoneIff | src/fyai_agents.c:897-944 | The ends that failed or closed in a run are exactly those that a step was for |
| AgentNetLaws.SilentEndsHearNothing | src/fyai_agents.c:246-321 | In every run an end that failed or closed takes no request and learns of no answer any more |
| AgentNetLaws.SubmittedIff | src/fyai_agents.c:246-258 | A process sends a request of its own exactly on a connection that it has and never closed |
| AgentNetLaws.SweptIsGone | src/fyai_agents.c:897-944 | After the sweep of a closed end its server holds no question and no forward that came there, and sends no answer to it |
| AgentNetLaws.SweptFails | src/fyai_agents.c:897-944 | After the sweep of a closed end its client waits for nothing: its own request failed, and so did the one that it forwarded |
| AgentSpec.CloseConserves | src/fyai_agents.c:897-944 | When a connection closes, each answer that a forward owes to any other connection is still owed or was sent once, and none is sent to the closed one |
| AgentSpec.CloseAsks | src/fyai_agents.c:897-944 | The questions of other connections are all kept, and none of the closed one |
| AgentSpec.KeptForwardsAre | src/fyai_agents.c:897-944 | Exactly the forwards that do not name the connection are kept, in their order |
| AgentSpec.KeptQuestionsAre | src/fyai_agents.c:897-944 | Exactly the questions from other connections are kept, in their order |
| AgentSpec.FailedForwardsAre | src/fyai_agents.c:897-944 | Exactly the forwards of other connections to the closed one are answered, each with a failure |
| AgentRegistries.AgentRegistry.ForwardRequest | src/fyai_agents.c:276-321 | When a request is sent onward; it is then counted as taken, and each taken request is still in exactly one place |
| AgentRegistries.AgentRegistry.ForwardDone | src/fyai_agents.c:260-274 | The answer of a forward goes to where it came from, no other request is answered, and each taken request is still waiting, answered once, or gone with its connection |
| AgentRegistries.AgentRegistry.Survey | src/fyai_agents.c:568-607 | Whether an active agent has the name, and how many are active |
| AgentRegistries.AgentRegistry.Admit | src/fyai_agents.c:568-607 | The root admits exactly below the limit, with a valid name that no active agent has, under a new execution number; others ask their parent |
| AgentRegistries.AgentRegistry.Event | src/fyai_agents.c:367-428 | Only a newer report, on the route of an active record, changes it; a process below the root adds the agents that it hears of |
| AgentRegistries.AgentRegistry.Ask | src/fyai_agents.c:493-530 | A question waits behind the others; each taken request is still in exactly one place |
| AgentRegistries.AgentRegistry.Settle | src/fyai_agents.c:1241-1264 | The question at the head is answered to its connection, no other request is answered, and none is lost |
| AgentRegistries.AgentRegistry.ConnClosed | src/fyai_agents.c:897-944 | After a connection closed nothing active names it; of the taken requests exactly those that it brought are gone, and every other one is still waiting or answered once |
| CatalogLoops.NamingKey | src/fyai_catalog.c:344-355 | The loop finds the key that names the items: the canonical id exactly when an item has one and neither it nor an earlier item has a name |
| CatalogLoops.SequenceFind | src/fyai_catalog.c:357-382 | The loops select the item of that index only where the component writes a decimal number, and else the first item with that name under the naming key, or, where there is none, with that provider id |
| CatalogFind.NumberIff | src/fyai_catalog.c:363-365 | A component is read as an index exactly when it is white space, a sign or none, and digits, and as the number that these write |
| CatalogLoops.GetAt | src/fyai_catalog.c:408-424 | The loop reads the value at a path |
| CatalogLaws.PutThenGet | src/fyai_catalog.c:431-492 | Reading a written location back gives the value, or nothing after a delete, also where the write makes members, mappings or an item on its way, exactly when its own component selects an item that it makes |
| CatalogLaws.PutFrame | src/fyai_catalog.c:431-492 | Every path neither above nor below a written location, and not into what the write makes, takes the same steps and reads as before |
| CatalogLaws.PutKeepsKind | src/fyai_catalog.c:431-492 | A write below a value keeps its kind, and everything that names it as an item |
| CatalogLaws.SameFind | src/fyai_catalog.c:357-382 | Replacing an item by one that names the same changes no lookup |
| CatalogLaws.AppendKeepsFind | src/fyai_catalog.c:357-382 | An appended item changes the lookup of no other component |
| CatalogLaws.NewItemIsFound | src/fyai_catalog.c:431-492 | A new item is found under its path exactly when the last component is no number, or is the index of the new item |
| CatalogLaws.NumberedItemIsLost | src/fyai_catalog.c:357-382 | A concrete write of the item "5" that its own path does not find |
| CatalogLaws.NameWriteLosesPath | src/fyai_catalog.c:344-355 | A write to the name of an item loses the path that selects it, so the frame needs the key to be another one |
| Utf8Chars.WholeIff | src/utils.c:121-152 | A scan finds a character exactly where the bytes begin with the bytes that section 3 of RFC 3629 writes for a scalar value |
| Utf8Chars.CutIff | src/utils.c:121-152 | A scan is cut exactly where the bytes are the start of such a character, but not all of it |
| Utf8.RepairIsValid | src/utils.c:121-152 | Repaired text is valid UTF-8 for any bytes, and what is held is the start of a character |
| Utf8.PutIsValid | src/fyai_cast.c:63-111 | The same for a piece that follows held bytes |
| Utf8.PutKeeps | src/fyai_cast.c:63-111 | In the start of valid bytes, text and held bytes together are exactly the bytes given |
| Utf8.RepairSplit | src/utils.c:121-152 | The repair of a stream is the repair of its first part and then of what that holds with the rest |
| Utf8.PutIsRepairIff | src/fyai_cast.c:63-111 | A piece behind held bytes is repaired as both at once exactly when at most one byte was held or the held bytes still start a character |
| Utf8.PutLoses | src/fyai_cast.c:63-111 | What is held is the same in any case, and the text is shorter by one replacement for each held byte but one |
| Utf8.CutLosesOne | src/fyai_cast.c:63-111 | Three concrete bytes that get two replacements at once, and one when cut after the second |
| Utf8.JoinedScan | src/fyai_cast.c:63-111 | The held bytes with at most four in all decide like all bytes, and a whole character is longer than the held start |
| Utf8.RemoveAscii | src/fyai_cast.c:205-216 | Taking ASCII bytes out of valid bytes leaves valid bytes |
| CastLog.CursorIsAscii | src/fyai_cast.c:182-202 | A body that only puts the cursor is ASCII |
| CastLog.IsCursorIff | src/fyai_cast.c:182-202 | A body only puts the cursor exactly when it is ESC, "[", digits and semicolons, and "H", or nothing, and then only ESC "[?25h" and ESC "[?25l" |
| CastLog.MatchesIff | src/fyai_cast.c:225-262 | A begin or an end is found at a place exactly when each of its bytes is there |
| CastLog.KeptIsValid | src/fyai_cast.c:205-216 | Dropping updates from valid output leaves valid output |
| CastLog.RecordKeeps | src/fyai_cast.c:147-169 | The recorded texts and the held bytes are exactly what was recorded |
| CastLog.ValidOutputIsRecorded | src/fyai_cast.c:218-285 | For valid output the recorded text is the output without the dropped updates, and nothing is held back |
| CastLog.RecordLoses | src/fyai_cast.c:147-169 | For any output, cut anywhere, the recorded text is shorter than the repair of all at once by exactly the replacements that the cuts lost |
| CastLog.ClosedIsRepairIff | src/fyai_cast.c:321-347 | The text of an ended recording is the repair of all that was recorded exactly when no cut lost a replacement |
| CastLog.CutIsRecorded | src/fyai_cast.c:147-169 | Two concrete chunks whose cut loses a replacement |
| CastRecorders.BodyIsCursor | src/fyai_cast.c:182-202 | The loop accepts exactly a cursor position or none, and then commands of six bytes that show or hide the cursor, and nothing else |
| CastRecorders.PutText | src/fyai_cast.c:63-111 | The scanning loop repairs a piece after the held bytes |
| CastRecorders.EndIsBehindBegin | src/fyai_cast.c:205-216 | The end of an update does not overlap its begin, so the length of the body never underflows |
| CastRecorders.EndIsNew | src/fyai_cast.c:218-285 | Looking for the end from eight bytes before the new ones misses none |
| CastRecorders.CastRecorder.SyncDone | src/fyai_cast.c:205-216 | An update is dropped exactly when it only puts the cursor and repeats what was recorded just before |
| CastRecorders.CastRecorder.Append | src/fyai_cast.c:218-285 | A chunk is added to a begun update, and the first end in all of it is found |
| CastRecorders.CastRecorder.Output | src/fyai_cast.c:218-285 | A chunk, cut at any byte, is recorded, dropped or held: together with earlier ones it is exactly the output so far |
| CastRecorders.CastRecorder.Close | src/fyai_cast.c:321-347 | At the end every text is valid; for any output the texts are those of the log, and equal the repair of all that was recorded exactly when no cut lost a replacement; for valid output they are the output without the dropped updates |
| BranchRows.Compare | src/fyai_browser.c:120-135 | The loop compares like the order that puts the end of a name first, then a slash, then other characters |
| BranchRows.OrderIsZero | src/fyai_browser.c:120-135 | Two names compare equal only when they are the same |
| BranchRows.OrderIsOpposite | src/fyai_browser.c:120-135 | The order is antisymmetric |
| BranchRows.OrderIsTransitive | src/fyai_browser.c:120-135 | The order is transitive |
| BranchRows.AncestorFirst | src/fyai_browser.c:120-135 | Every ancestor comes before its descendants |
| BranchRows.SubtreeIsContiguous | src/fyai_browser.c:120-135 | What comes between a name and one below it is below it |
| BranchRows.HasDescendantIffNext | src/fyai_browser.c:866-867 | In a sorted table a row has descendants exactly when the next row is below it |
| BranchRows.AncestorsAreNested | src/fyai_branch.c:230-242 | Of two names above a third one, one is above the other |
| BranchRows.LastAboveIsNearest | src/fyai_browser.c:626-638 | The last matching earlier row is the nearest ancestor in the whole table |
| BranchRows.Parents | src/fyai_browser.c:626-638 | The nested loops fill in that row for each row |
| BranchRows.Visible | src/fyai_browser.c:502-513 | With a filter a row shows exactly when the text occurs in its name; without one it is hidden exactly when some ancestor, anywhere in the table, is collapsed |
| Base64Laws.ShiftKeeps | src/fyai_auth_util.c:341-347 | One more value overflows nothing, keeps fewer than eight bits, and loses none |
| Base64Laws.BytesAreLeadingBits | src/fyai_auth_util.c:327-348 | For every text that is read, the decoded bytes are the leading bits of its values |
| Base64Laws.LeftOverIsSmall | src/fyai_auth_util.c:341-347 | Fewer than eight bits are left over, and the number of bytes follows from the number of values |
| Base64Laws.DecodeInverts | src/fyai_auth_util.c:313-356 | Decoding inverts both encodings of RFC 4648, padded or not, with white space put in anywhere, for every non-empty string of bytes |
| Base64.AlphabetIs | src/fyai_auth_util.c:328-337 | The alphabets are those of tables 1 and 2 of RFC 4648 |
| Base64.ReadIff | src/fyai_auth_util.c:327-340 | A text is read exactly when it has only characters of the two alphabets and white space before its first "=" |
| Base64.PaddedLength | src/fyai_auth_util.c:313-356 | A padded encoding has four characters for each three bytes or fewer, and only "=", at most two, more than one without padding |
| Base64Decoder.DecodeText | src/fyai_auth_util.c:313-356 | The loop computes that decoding, and the bytes with their end mark fit the buffer for every text |
| Base64Decoder.Fits | src/fyai_auth_util.c:323-351 | What is written fits the buffer |
| Base64Decoder.ToUrl | src/fyai_auth_util.c:233-256 | Cutting the padding and renaming two characters in place gives the encoding for URLs |

## Left out

- Terminal pages, Markdown and diagram rendering, the player, painting of the browser: presentation.
- curl transfers, OAuth, key stores, sockets, fork and exec, the OpenSSL encoder: foreign calls; only their results are parameters.
- Allocation failures, builders and internalization of values: values are immutable and allocation succeeds.
- StoreMergeLaws.NoUpdateIsLost: asks that the items of a named sequence are named by one key, as do the laws of the merge beside it, because a merge of items named by different keys can change a name (`StoreMergeTheorems.MixedKeysLoseTheName`).
- TurnReads.SettledIff: asks that the calls of the response have different ids, because a result too many of one call can answer another call of its id; `TurnLog.BooksSettled` has the condition for any ids, and one result for each call when all are read alike (`TurnReads.AgreeSettles`) asks for nothing.
- CasLaws.AddressedIff: asks that different bytes have different digests; `CasLaws.ExactClonesAreAddressed` does not.
- AgentNetLaws.ExactlyOnce: speaks of states in which nothing is on its way and both ends know of a lost connection; every run can go on to one (`AgentNetQuiet.QuietIsReached`), but when messages arrive is not modelled.
- The registry of one process as a part of the network of processes: each is modelled on its own.
- The compare-and-swap of the arena root under a publish, and the rebase of the state of one branch: which races a publish loses is a parameter.
- Keys of store mappings other than strings, and the byte-level path of a conflict with its limit of 256.
- fsync and directory durability in the object store, and the sixteen attempts at a temporary name: a create that collides is no step.
- The recorded device, inode, mode and owner of a borrowed object: a borrowed object is checked by inode or content only.
- File types other than regular files in the object store, and a mapping fault: the worker then takes no more steps.
- The text form of object names: an owned, a borrowed and a temporary name are different names, and digests are names.
- The links of the question list of an agent registry: it is a sequence; a tail link is modelled for the pending events.
- Delivery of agent messages, progress, subscriptions and views; the path of an agent event further up to the root.
- How a call is expanded and its eligibility computed: what each scan reads is a free choice of a step.
- A turn's messages from before the run: the log holds those of the run only.
- Splitting the text of a catalogue path into components, and the schema check of a catalogue.
- Input, resize and marker events of a recording: a run of a recorder is output and then the close.
- A recording whose file cannot be written: nothing is recorded from then on.
- `fyai_base64url_decode`: its decoding is a foreign call.
- BranchLoop.MoveLaw: speaks of tables in which no new name is taken, as any table is whose entries all decode and whose names the checks accept; for all others `BranchHolders.LostIff` says what is left.
