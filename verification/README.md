# Verified models of an operating systems course repository

Five programs of the repository, each modelled with the branches, constants and error cases of its code, and what is
proved of each. Every statement is for all inputs, all runs or all interleavings.

## The programs

**Five-level page table** (`hw01/pt.c` over `hw01/os.c`; `Machine`, `TableSpec`, `TableForest`, `TableTraces`,
`TableHistories`, `PageTable`). A radix trie in raw 64-bit words of page frames; each level takes nine bits of the
page number, and bit 0 of a word says whether it is valid. `PageTable` holds the loops, in place on arrays of words,
and proves that they compute the functions of `TableSpec`. `TableForest` is the invariant: frames form a forest, and
each is reached by one digit path from one root. `TableTraces` proves, for all histories of frame allocations and
updates on any number of roots, that queries refine a flat map, that no walk leaves the allocated frames, and how many
frames are in use. `TableHistories` says the same to a client, in numbers: which update a query answers with, what the
entries hold, and that a history runs exactly as long as the frames it needs are at most 2^20. Shifts are defined bit
by bit and 64-bit wrap-around is explicit: page numbers that agree modulo 2^45 share an entry, and a physical page
number keeps its low 52 bits.

**Parallel directory search** (`hw04/pfind.c`; the `Search*` modules and `Sums`). `main` and n >= 1 workers as a state
machine over an arbitrary finite tree, one step for each lock region and each access to shared data outside one. A
worker looks into the directories queue, releases the lock, and only later joins the sleepers, so both queues can be
non-empty at once. What saves the search is `SearchInvariant.Watched`: while a directory is queued, some worker has
yet to look. A failed `opendir` is modelled: it leaves `errno` set, and the check after the `readdir` loop then kills
the worker. Every run comes to an end, and the ends report exactly when every directory opens; `SearchOutcomes` has
concrete searches that return without a report and that wait for ever. `SearchTotal` says what is reported and what
the paths name by looking at the tree alone: files whose name contains the term, counted one by one, and a path for
each directory, shared with no other. `SearchQueues` has the two linked queues on the heap and proves that the lock
regions, run on them, take them through the steps of the state machine.

**Message slot driver** (`hw03/message_slot.c`; `SlotSpec`, `SlotMap`, `SlotWide`, `SlotDriver`). Append-only lists of
channels for 256 minors, with open files that point into them. `SlotDriver` is the driver on the heap, proved to
compute `SlotSpec` over any sequence of calls. `SlotMap` is the reference, a map from (minor, channel) to a message
without lists. The driver is that map for exactly the sets of ioctl parameters that lie below 2^32
(`SlotWide.IsTheMapIffParametersFit`). From 2^32 on a parameter is stored truncated but compared in full. So a wide
channel is never found again, and a narrow one can find the node of a wide one; `SlotWide` says for any two selections
whether they share a node, and has concrete histories in which a message is lost and in which it reaches another
channel.

**Prime work sharing** (`rec09-mutex/mutex_ex3.c`; `PrimeSharing`). n threads draw numbers from an atomic counter. The
final counter, the set of numbers drawn and the set printed are the same in every interleaving, and each thread
returns the number of its own draws. The primality test stops before half of its argument and so takes 4, and every
number below 2, for a prime.

**Count watcher** (`rec09-mutex/cond_var_ex1.c`; `CountWatcher`). n threads count, and one waits for a limit on a
condition variable that may also wake up unasked. Nobody sleeps for ever if the threads count far enough, and only
then.

## What is taken for granted

- Page table: frames come zero-filled from an anonymous `mmap` that does not fail; clients pass only frames they were
  given and do not write to tables.
- pfind: memory from `malloc` is zero where the code relies on it; waits return only on a signal, since the code has
  no loop around them; `stat`, `readdir`, `malloc` and thread creation succeed; the tree is finite, without link
  cycles, and paths fit their buffers.
- Message slot: calls are atomic, user buffers do not fault, and `unsigned long` is wider than `unsigned int`.

## Model

| member | source | states |
|---|---|---|
| Machine.ShrTwelve | hw01/pt.c:14 | `x >> 12`, bit by bit, is division by 4096 |
| Machine.ShlTwelve | hw01/pt.c:39 | `x << 12` keeps exactly the low 52 bits of a 64-bit word |
| TableSpec.SameDigitsIffCongruent | hw01/pt.c:13 | two page numbers select the same five entries exactly when they agree modulo 2^45 |
| TableSpec.LeafEntry | hw01/pt.c:39 | the word stored for a page is valid and gives back the low 52 bits of the page number |
| TableForest.ReachedByOnePathOnly | hw01/pt.c:10-17 | following a path of at most four digits from a root lands on a frame exactly when the forest gives it that place |
| TableForest.WalkStaysInForest | hw01/pt.c:48-56 | a walk never reads an unallocated frame and stops on the entry its digits select |
| TableForest.LinkKeepsForest | hw01/pt.c:32-33 | linking a fresh frame below an invalid entry keeps the forest |
| TableForest.LinkKeepsQueries | hw01/pt.c:32-33 | and no query through any root notices |
| TableForest.LeafWriteKeepsForest | hw01/pt.c:24 | any word may be written into a last-level table without harm to the forest |
| TableForest.LeafWriteChangesOneAnswer | hw01/pt.c:39 | such a write changes the answer for the pages of that entry of that root, and no other |
| TableTraces.GrowKeepsForest | hw01/pt.c:30-37 | the creation loop adds exactly the missing tables on the way to the page, in order, and no query notices |
| TableTraces.DestroyRefinesRemoval | hw01/pt.c:19-27 | a destroy allocates nothing, changes at most the one leaf word of its page, and unmaps that page only |
| TableTraces.MapRefinesInsertion | hw01/pt.c:28-40 | a mapping whose walk first meets an invalid word at level L takes 5 - L frames, fails exactly when they do not fit, and maps that page only |
| TableTraces.MappedSlotIsWalked | hw01/pt.c:30-39 | the creation loop ends on the slot that a later walk for the page stops on |
| TableTraces.QueryAnswersLastUpdate | hw01/pt.c:43-66 | after any history a query returns what the last update of a congruent page through the same root stored, or NO_MAPPING |
| TableTraces.QueryReturnsWhatFits | hw01/pt.c:39-60 | a query gives back the page number of the update before it exactly when 52 bits hold it or it is NO_MAPPING |
| TableTraces.NoWalkFaults | hw01/pt.c:10-17 | in no history does a walk leave the allocated frames |
| TableTraces.FramesInUse | hw01/os.c:17-36 | frames in use are the clients' allocations plus, per root, the distinct prefixes of one to four digits of all pages ever mapped |
| TableTraces.EveryFrameHasOnePath | hw01/pt.c:30-37 | after any history every frame is reached from exactly one root by exactly one path |
| TableHistories.QueryOverHistory | hw01/pt.c:43-66 | after any history a query answers ~0 exactly when no update through the root was of a page congruent modulo 2^45, or the last one passed ~0; otherwise the low 52 bits of what the last one passed |
| TableHistories.UpdatedEntry | hw01/pt.c:19-40 | after an update with a page number below 2^52 the walk ends on the last level, on a valid word that is the number times 4096 plus 1, and a query gives it back; after one with ~0 it ends on an invalid word |
| TableHistories.WordsAreTagged | hw01/pt.c:24-39 | in any history every word of every frame is 0 or a multiple of 4096 plus 1 |
| TableHistories.ExitsWhenFramesDoNotFit | hw01/os.c:23-28 | a call makes the program exit exactly when the frames needed with it, for clients and for distinct prefixes, are more than 2^20 |
| TableHistories.RunsIffFramesFit | hw01/os.c:13-28 | a history whose clients name only frames they were given is still running exactly if it needs at most 2^20 frames |
| PageTable.PhysicalMemory.constructor | hw01/os.c:15-19 | no frame is allocated at first |
| PageTable.PhysicalMemory.AllocPageFrame | hw01/os.c:17-36 | hands out frames in order, zero-filled and apart from all others, until there are 2^20 |
| PageTable.PhysicalMemory.PhysToVirtOfFrame | hw01/os.c:38-48 | an address finds the byte of its frame at its low twelve bits, and nothing if the frame is not allocated or not below 2^20 |
| PageTable.PhysicalMemory.Store | hw01/pt.c:33 | a store through a table pointer changes one word of one frame |
| PageTable.ReadLevel | hw01/pt.c:12-16 | one turn of the walk loop: the table, the entry selected, where it points and its valid bit |
| PageTable.WalkTable | hw01/pt.c:8-17 | the do-while loop stops where the recursive walk does |
| PageTable.PageTableQuery | hw01/pt.c:43-66 | the query on arrays answers what the specification's query does, and ~0 where the walk ends on an invalid word |
| PageTable.AddTable | hw01/pt.c:30-37 | one turn of the creation loop takes the specification's growth one table further |
| PageTable.AddTables | hw01/pt.c:30-37 | the creation loop leaves the memory and the slot that the specification's growth does, or exits when it does |
| PageTable.UpdateEntry | hw01/pt.c:19-40 | destroy or create on arrays, from the entry the walk stopped on |
| PageTable.PageTableUpdate | hw01/pt.c:6-41 | the update on arrays leaves exactly the words that the specification's update does; ~0 clears the word on which the walk ends if it is valid |
| SearchTree.ContainsIsOccurrence | hw04/pfind.c:261 | a name matches exactly when the term occurs at some position of it |
| SearchTotal.TotalIsTheNumberOfFiles | hw04/pfind.c:204-267 | the total is the number of positions in the tree that hold a non-directory, not named `.` or `..`, with the term somewhere in its name |
| SearchTotal.PathsByName | hw04/pfind.c:215-242 | the path of a directory is that of the one that lists it, then its name and a slash |
| SearchTotal.PathsTellDirectoriesApart | hw04/pfind.c:215-242 | no two directories have the same path, when names hold no slash and are not repeated in a directory |
| SearchPreservation.ReachableInv | hw04/pfind.c:114-294 | the invariant of the protocol holds after every schedule of main and the workers |
| SearchTheorems.NeverStopsEarly | hw04/pfind.c:172-175 | when all sleep, and from the moment `done` is set, no directory is queued or in hand and the whole tree has been read |
| SearchTheorems.ReportsTheTotal | hw04/pfind.c:258-267 | the count printed is the number of positions in the whole tree of non-directories, `.` and `..` apart, with the term somewhere in their name |
| SearchTheorems.ExactlyOnePlace | hw04/pfind.c:204-292 | a discovered directory is queued, scanned, carried or finished, in exactly one of these ways and in one hand at most |
| SearchTheorems.ScannedExactlyOnce | hw04/pfind.c:150-160 | no directory is taken up twice, and at the end each has been |
| SearchTheorems.TakenUpWasListed | hw04/pfind.c:204-255 | a directory other than the root is taken up only after the entry that lists it, in a directory that was taken up too, has been read |
| SearchTheorems.ReadersAreApart | hw04/pfind.c:282-292 | two workers never read directories of the same path |
| SearchTheorems.CompletesIffAllOpen | hw04/pfind.c:234-279 | a run that cannot go on has reported exactly when every directory opens; it returns early exactly when all workers failed, hangs when only some have, and has reported exactly when all have left cleanly |
| SearchTheorems.HandOffIsSound | hw04/pfind.c:243-255 | a worker that is handed a directory is blocked, out of the queue, handed to by nobody else, and signalled with a directory and its own path |
| SearchTheorems.WakesWithADirectoryOrToLeave | hw04/pfind.c:177-189 | a worker wakes with a directory and its path before `done`, and without one after |
| SearchTheorems.NoSignalIsLost | hw04/pfind.c:479-525 | whenever a signal is about to be sent, the thread it is meant for is waiting for it |
| SearchTermination.EveryRunEnds | hw04/pfind.c:114-191 | a measure falls with every step, so every run is finite |
| SearchTermination.RunsToAnEnd | hw04/pfind.c:114-191 | every run, however scheduled so far, goes on to a state in which nobody can move |
| SearchTermination.StepBound | hw04/pfind.c:204-292 | a run has at most 8 steps per entry of the tree, 11 per thread and 13 more |
| SearchTermination.StuckOutcomes | hw04/pfind.c:507-545 | a state in which nobody can move is the end of the program, unless some but not all workers have failed |
| SearchOutcomes.AllRunsReportOrNone | hw04/pfind.c:234-279 | there are ends, and every run comes to one; if all directories open each end has printed the number of files of the whole tree with the term in their name, otherwise none has printed |
| SearchOutcomes.OneThreadAborts | hw04/pfind.c:269-279 | one thread on a root that holds one directory that does not open: every end is main's early return |
| SearchOutcomes.TwoThreadsMayHang | hw04/pfind.c:507-514 | two threads on the same root: a run after which main waits for a signal that nobody is left to send |
| SearchOrder.SubdirsAreOneDeeper | hw04/pfind.c:231-249 | the subdirectories that a directory lists lie one deeper than it |
| SearchOrder.BreadthFirstByLevels | hw04/pfind.c:281-292 | along the directories visited and waiting depths never fall, and those waiting lie at most one deeper than the first of them |
| SearchOrder.OneThreadIsBreadthFirst | hw04/pfind.c:281-292 | with one thread no directory is taken up before one that lies less deep; the order is that of a breadth-first traversal, complete by the end |
| SearchQueues.DirQueue.constructor | hw04/pfind.c:73-86 | the queue starts empty |
| SearchQueues.DirQueue.Enqueue | hw04/pfind.c:334-372 | appends a directory with its path in a fresh entry, whatever `last` was left behind |
| SearchQueues.DirQueue.Dequeue | hw04/pfind.c:296-306 | removes the first entry, or answers null when there is none |
| SearchQueues.ThreadQueue.constructor | hw04/pfind.c:87-99 | the queue starts empty |
| SearchQueues.ThreadQueue.Enqueue | hw04/pfind.c:374-386 | appends a worker's own entry |
| SearchQueues.ThreadQueue.Dequeue | hw04/pfind.c:308-321 | removes the first entry, or answers null when there is none |
| SearchQueues.ThreadQueue.SignalAll | hw04/pfind.c:519-525 | the walk at shutdown signals each worker of the queue once, in order |
| SearchQueues.TakeDirectory | hw04/pfind.c:282-292 | on the linked queue and the worker's entry this is the protocol's step |
| SearchQueues.TakeSleeper | hw04/pfind.c:243-249 | the lock region on the linked queues is the protocol's step |
| SearchQueues.FillIn | hw04/pfind.c:250-253 | filling in the sleeper's entry is the protocol's two steps outside the lock |
| SearchQueues.Deliver | hw04/pfind.c:243-255 | queues and entry go through the protocol's step for the lock region and, for a sleeper, the two that fill in its entry, with directory and path together |
| SearchQueues.FallAsleep | hw04/pfind.c:164-175 | on the linked queue this is the protocol's step, with the signal exactly when the queue holds all initialized workers |
| SearchQueues.FirstInFirstOut | hw04/pfind.c:296-386 | under any mix of operations, as `RunDirs` and `RunThreads` make them, what comes out is what went in, in order, and the rest is still queued |
| SearchQueues.RunDirs | hw04/pfind.c:296-372 | any series of calls on the linked queue of directories takes out and leaves what the operations on a sequence do |
| SearchQueues.RunThreads | hw04/pfind.c:308-386 | the same for the threads queue, with each worker's one entry coming back with a stale `next` |
| SlotSpec.ListsOnlyGrow | hw03/message_slot.c:132-155 | through any calls nodes keep their place and id, so saved pointers stay good |
| SlotSpec.FailuresChangeNothing | hw03/message_slot.c:113-145 | a call that fails, for a bad argument or for want of memory, changes no state |
| SlotMap.NarrowCallsAgree | hw03/message_slot.c:107-158 | after any calls with ioctl parameters below 2^32 ids in a list are distinct, and nodes and files hold the map |
| SlotMap.AnswersFollowTheMap | hw03/message_slot.c:43-158 | in every history with ioctl parameters below 2^32, every open, ioctl, write and read is answered as by the map |
| SlotMap.MapHoldsTheLastWrite | hw03/message_slot.c:94-104 | the map holds for each channel the message last written to it with success by any file; other channels are not affected |
| SlotMap.ReadReturnsTheLastWrite | hw03/message_slot.c:43-75 | with ioctl parameters below 2^32 a read returns the last message written by any file to the channel of its file, or says that there is none or that the buffer is too small |
| SlotWide.IsTheMapIffParametersFit | hw03/message_slot.c:127-146 | for a set of ioctl parameters, every history that uses them is answered as by the map exactly when all of them are below 2^32 |
| SlotWide.IdsFit | hw03/message_slot.c:127-146 | whatever is called, stored ids are below 2^32 |
| SlotWide.IdsAreSelections | hw03/message_slot.c:119-155 | an id is in a list exactly when some selection on the minor had a parameter with these low 32 bits |
| SlotWide.SelectsANode | hw03/message_slot.c:134-156 | a successful ioctl binds to the first node with its id, or, for a parameter from 2^32 on, to a new node |
| SlotWide.WhenSelectionsShareANode | hw03/message_slot.c:119-157 | after any calls, a selection of q shares the node of an earlier one of p on its minor exactly when q is below 2^32 and equals the low 32 bits of p, and p is below 2^32 too or was the first selection with these low bits |
| SlotWide.SameNodeIffParameterFits | hw03/message_slot.c:119-157 | two selections of the same parameter on a minor share a node exactly when it is below 2^32 |
| SlotWide.RoundTripIffParameterFits | hw03/message_slot.c:77-158 | selecting, writing, selecting again and reading, through one file and after any calls, gives the message back exactly when the parameter is below 2^32 |
| SlotWide.TheMessageComesBackBelow | hw03/message_slot.c:127-146 | a process alone with a channel reads back what it wrote for every parameter below 4294967296 and for none from there on |
| SlotWide.AliasedRead | hw03/message_slot.c:127-146 | what is written through a parameter from 2^32 on is read on the channel of its low 32 bits, if these were not selected before on the minor |
| SlotWide.AWideParameterLosesTheMessage | hw03/message_slot.c:136 | with any parameter from 2^32 on a message that was written is reported missing, against the map |
| SlotWide.AWideParameterReachesAnotherChannel | hw03/message_slot.c:127 | a message for channel 2^32 + 5 is read on channel 5, to which nothing was written |
| SlotDriver.Node.constructor | hw03/message_slot.c:140-148 | a new node holds the low 32 bits of the parameter and no message |
| SlotDriver.Driver.constructor | hw03/message_slot.c:28 | all lists are empty at first |
| SlotDriver.Driver.Open | hw03/message_slot.c:31-35 | a new file is bound to no node |
| SlotDriver.Driver.Write | hw03/message_slot.c:77-105 | the write on the heap has the specification's outcome and changes one node's buffer only; it returns -22 when no channel is selected, -90 for a length of 0 or above 128, and else the length |
| SlotDriver.Driver.Read | hw03/message_slot.c:43-75 | the read on the heap returns the specification's answer and writes no more of the user's buffer than the message; -22 when no channel is selected, -11 when it holds no message, -28 when the buffer is too short, and else the length |
| SlotDriver.Driver.FindOrAppend | hw03/message_slot.c:119-155 | the search loop ends on the first node of the channel or on a new one at the tail; without memory nothing changes |
| SlotDriver.Driver.Ioctl | hw03/message_slot.c:107-158 | the ioctl on the heap has the specification's outcome; lists grow at the tail, and a failure changes nothing; -22 for another command or the parameter 0, -12 when there is neither a node with the id nor memory, and else 0 |
| SlotDriver.FileOperations.constructor | hw03/message_slot.c:161-182 | the module starts with no calls made |
| SlotDriver.FileOperations.Open | hw03/message_slot.c:161-169 | keeps the heap in the state of all calls so far |
| SlotDriver.FileOperations.Ioctl | hw03/message_slot.c:161-169 | returns the code of the specification's answer to the sequence of all calls so far, and of the map's answer when all their parameters are below 2^32; in numbers, -22, -12 and 0 as for Driver.Ioctl |
| SlotDriver.FileOperations.Write | hw03/message_slot.c:161-169 | the same for a write, with -22, -90 and the length |
| SlotDriver.FileOperations.Read | hw03/message_slot.c:161-169 | the same for a read, with the message at the start of the user's buffer; for parameters below 2^32, -22 exactly when no channel is selected, -11 when nothing was written to it, -28 when the last message written does not fit the buffer, and else its length |
| SlotDriver.Driver.Exit | hw03/message_slot.c:185-201 | unloading frees every node ever allocated exactly once and reads none that it has freed |
| PrimeSharing.IsPrime | rec09-mutex/mutex_ex3.c:25-31 | the test answers yes exactly for the primes, 4 and the numbers below 2 |
| PrimeSharing.VerdictIsPrimalityButForFour | rec09-mutex/mutex_ex3.c:25-31 | no divisor strictly below half: exactly the primes, 4 and the numbers below 2 |
| PrimeSharing.CounterEndsTheSame | rec09-mutex/mutex_ex3.c:34-52 | in every complete interleaving the counter ends at TOTAL + n - 1, or at n + 1 or 1 for a TOTAL of 1 or less, and the threads' counts add up to one less |
| PrimeSharing.CountsItsOwnTurns | rec09-mutex/mutex_ex3.c:42-51 | the count a thread keeps and returns is that of its own draws: two of its turns in the schedule each, less one while a number is not judged, and one more for returning |
| PrimeSharing.HoldsItsLastDraw | rec09-mutex/mutex_ex3.c:42-45 | the number a thread judges, and tests its loop with, is the one it drew last |
| PrimeSharing.EachNumberIsDrawnOnce | rec09-mutex/mutex_ex3.c:15-22 | each number from 2 to the final counter is drawn exactly once, and no other |
| PrimeSharing.PrintsThePrimesAndFour | rec09-mutex/mutex_ex3.c:42-48 | the numbers printed are the primes up to the final counter and 4, each once |
| PrimeSharing.EveryRunEnds | rec09-mutex/mutex_ex3.c:42-52 | a run is complete exactly when it has the one length that no run exceeds |
| CountWatcher.BlockedOnlyBelowTheLimit | rec09-mutex/cond_var_ex1.c:25-39 | a blocked watcher sees a count below the limit, and the signal is given once, when the limit is reached |
| CountWatcher.RestsWithTheFullCount | rec09-mutex/cond_var_ex1.c:60-72 | when no thread can move the watcher has gone exactly if the threads count far enough, and the count is theirs plus 125 |
| CountWatcher.CountsItsOwnTurns | rec09-mutex/cond_var_ex1.c:25-27 | a thread has counted as often as it had a turn in the schedule |
| CountWatcher.EveryRunEnds | rec09-mutex/cond_var_ex1.c:60-72 | runs are bounded apart from unasked wakeups, each of which costs one more look at the count |

## Left out

- SearchTheorems.CompletesIffAllOpen: failures other than that of `opendir` (`stat`, `readdir`, `malloc`, thread creation) are not modelled; they end workers or the program in ways outside the protocol.
- SearchTheorems.ReportsTheTotal: `num_of_files_found`, `len` and the other counters are `int` in the program and unbounded here.
- SearchTree.PathOf: paths are unbounded strings; overflow of the fixed buffers is not modelled.
- PrimeSharing.CounterEndsTheSame: the atomic counter is an `int` in the program and unbounded here.
- SlotDriver.Driver.Write: a fault in the user's buffer, which can leave part of a new message with the old length, is not modelled; nor is one in Driver.Read.
- SlotDriver.Driver.Exit: `unregister_chrdev`, and the kernel's rule that the module is unloaded only when no file is open.
- pfind's argument parsing, its printing, how `strstr` searches, the closing of directories (which it never does), and the destruction of mutexes and condition variables.
- The failure of `mmap`, and clients that write to table frames directly, as one test does.
- The shell of hw02: fork, exec, pipes and signals over a dispatch on one special token.
- The sender and reader of hw03, all testers and scripts.
- The recitation programs other than the two above: single system calls, small drivers, plain counters.
