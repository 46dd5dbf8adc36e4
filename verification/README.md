# Verified models of the operating-systems labs

This project models five pieces of the repository in Dafny and proves what they guarantee over all
inputs, all schedules and all numbers of processes. `dafny verify dfyconfig.toml` checks it.

* **Bakery lock server** (`unix-lab-06/bakery/bakery_server.c`). `BakeryLock` is the lock as a step
  machine in which every load and store of `choosing[]`, `number[]` and `symbol` is one step and any
  number of `get_number` bodies may overlap. `BakeryServer` puts the single dispatcher thread and
  the three RPC handlers around it, `BakeryTickets` and `BakeryTheorems` state what holds over whole
  runs, `BakeryTermination` and `BakeryProgress` what happens under fair schedules, `BakeryService`
  which calls are accepted and that everybody can be served, `BakeryTorn` what the torn scan can do,
  and `BakeryThreads` is the code on its arrays, proved equal to the machine step by step. The number of slots is a parameter (30 in the code).
* **Infix to postfix** (`unix-lab-02/task3/lab_4_9/array_operations.c`). `ShuntingYard`
  says what the translation of an expression means, against a grammar that names the operators;
  `TokenConservation` and `Nesting` say what happens to any string; `Translator` is the array stack
  and the loops.
* **Producers and consumers** (`unix-lab-04/pc.c`) and **readers and writers** (`unix-lab-04/rw.c`)
  over `Semaphores`, which is `semop` of POSIX.1-2017 (System Interfaces, XSI option).
  `SharedBuffer` and `SharedCounter` are the loops of the processes on the shared memory;
  `SegmentUse` says how far the producers' pointer runs.
* **Timer interrupt** (`lab-01/src/INT8.LST`): `TimerTick`.

## What the proofs found

* The max scan of `get_number` reads `number[j]` twice, and with overlapping bodies the second read
  can take the running maximum back to 0 (`RereadCanLower`). This never matters: mutual exclusion and
  first-come-first-served order survive it (`MutualExclusion`, `DoorwayOrder`), and with the serial
  dispatcher of this program the re-read never even lowers the maximum (`RereadNeverLowers`).
* A ticket handed out undisturbed is the largest one held plus one. While workers give theirs back it
  can be smaller, but it is always 1 or one more than a ticket an earlier client was told
  (`GetNumberCompletes`, `TicketBetween`, `TicketBound`).
* `bakery_res` blocks the only dispatcher thread in `pthread_join`. If every smaller id with a ticket
  already has a worker it returns under every fair schedule, in which every worker and the join get
  their turn again and again; if not, it returns under no schedule at all (`JoinReturnsIff`). With two
  or more slots a client that overtakes another one between its calls blocks the server for ever
  (`DeadlockReachable`); from every other state everybody can still be served (`ServableIff`).
* Even with overlapping `get_number` bodies and equal tickets the waiting loops end: once nobody is
  inside `get_number`, a worker gets through in at most quadratically many rounds of the workers
  ahead of it (`FairTermination`, `WorkBound`).
* A client gets its own letter if and only if its `bakery_res` call has the same rank as its
  `wait_queue` call (`ReplyMatching`).
* The consumers of `pc.c` never advance their pointer; they increment the first cell instead. What they
  print is a FIFO queue's output all the same (`RefinesFifo`). The producers' pointer never turns back,
  so a single producer runs past the end of the segment (`SegmentTooSmall`).
* `rw.c` passes 4 to a list of five operations and waits for `BIN_WRITER` to be 0, so readers enter
  only while a writer is inside. The readers-writers notes in `unix-lab-04/Readme.md` give writers
  exclusive access; the code does not (`OverlapIff`, `EntryRules`). Writers do exclude each
  other and no increment is lost.
* `infix_to_postfix` takes an unmatched closing parenthesis for the end of the expression
  (`UnmatchedClose`) and writes an unmatched opening one to the output (`UnmatchedOpen`).

## Model

| member | source | states |
|---|---|---|
| BakeryLock.MutualExclusion | unix-lab-06/bakery/bakery_server.c:36-75 | Over every schedule, overlapping get_number bodies and torn max scans included, at most one worker is between the end of its waiting loop and `number[i] = 0`. |
| BakeryLock.DoorwayOrder | unix-lab-06/bakery/bakery_server.c:42-66 | Whoever holds a ticket when another process announces itself is served first: as long as it holds the ticket the other's is larger and the other does not enter. |
| BakeryLock.LettersCounted | unix-lab-06/bakery/bakery_server.c:67-68 | With overlapping bodies too, `symbol` is 'a' plus the letters handed out, a pending store of `symbol++` was loaded from the current value, and two workers past line 67 have taken different letters. |
| BakeryLock.EqualTicketsArise | unix-lab-06/bakery/bakery_server.c:42-49 | For every number of slots from two on, a schedule of two overlapping bodies that gives and reports ticket 1 to both processes. |
| BakeryLock.InvKept | unix-lab-06/bakery/bakery_server.c:42-73 | The lock invariant survives any load or store of any process. |
| BakeryLock.InvAllocate | unix-lab-06/bakery/bakery_server.c:39-41 | Handing out the next id keeps the invariant. |
| BakeryLock.InvSpawn | unix-lab-06/bakery/bakery_server.c:98-101 | Creating the worker of a ticketed id keeps the invariant. |
| BakeryLock.WillSeeOther | unix-lab-06/bakery/bakery_server.c:45-46 | When the holder of a larger ticket gives it up between the two loads of a scan, the scan still cannot end below a ticket already seen. |
| BakeryLock.WillSeeWorker | unix-lab-06/bakery/bakery_server.c:64 | A worker gets past `choosing[k]` only when the scan of k has not begun, so that scan will meet its ticket. |
| BakeryLock.BeforeOwn | unix-lab-06/bakery/bakery_server.c:65 | A worker leaves the loop for k only if k holds no ticket or a later one by (number, slot). |
| BakeryLock.Exclusive | unix-lab-06/bakery/bakery_server.c:62-73 | Two workers in the critical section are the same worker, in every state of the invariant. |
| BakeryLock.AheadKept | unix-lab-06/bakery/bakery_server.c:42-73 | One step of any process keeps a held ticket ahead of a later announcement. |
| BakeryServer.ValidReact | unix-lab-06/bakery/bakery_server.c:36-118 | Every event of the server keeps the whole invariant: tickets in id order, letters, books of the dispatcher, slots. |
| BakeryServer.SmallerDone | unix-lab-06/bakery/bakery_server.c:62-66 | A worker in its critical section has outlived every smaller id. |
| BakeryServer.ScanAdvances | unix-lab-06/bakery/bakery_server.c:43-47 | The running maximum of the serial scan covers every ticket of the slots read and stays at most the id. |
| BakeryServer.RereadOfZero | unix-lab-06/bakery/bakery_server.c:45-46 | If a larger worker is already past `choosing[g]`, the slot being re-read is empty. |
| BakeryServer.TicketsDispatched | unix-lab-06/bakery/bakery_server.c:42-49 | A load or store of get_number keeps the ticket order and the scan conditions. |
| BakeryServer.TicketsWorked | unix-lab-06/bakery/bakery_server.c:61-73 | So does a load or store of a worker, also when it zeroes the slot the dispatcher is re-reading. |
| BakeryServer.EntersInOrder | unix-lab-06/bakery/bakery_server.c:67-68 | The worker inside finds `symbol` equal to 'a' plus its own id. |
| BakeryServer.LettersKept | unix-lab-06/bakery/bakery_server.c:67-73 | The letters handed out remain exactly those of the smallest ids. |
| BakeryServer.WithinSlots | unix-lab-06/bakery/bakery_server.c:97-115 | Clients calling in order never index the slot arrays out of bounds. |
| BakeryServer.BooksQueued | unix-lab-06/bakery/bakery_server.c:98-101 | wait_queue appends a fresh id and keeps one slot per worker. |
| BakeryServer.SlotsWorked | unix-lab-06/bakery/bakery_server.c:67 | A worker writes only its own slot, and only its own letter. |
| BakeryTheorems.WorkersExclude | unix-lab-06/bakery/bakery_server.c:62-73 | Mutual exclusion of the server's worker threads over every run. |
| BakeryTheorems.TornScanHarmless | unix-lab-06/bakery/bakery_server.c:42-49 | Over every run the ticket stored at line 47 exceeds every ticket still held, is at most id + 1, and is 1 or one more than the ticket some earlier client was told. |
| BakeryTheorems.TicketBetween | unix-lab-06/bakery/bakery_server.c:42-49 | Whatever workers do during a call, the ticket it stores lies between the largest one still held then plus one and the largest one held when it began plus one. |
| BakeryTheorems.RereadNeverLowers | unix-lab-06/bakery/bakery_server.c:45-46 | Over every run the second load finds more than the running maximum, or 0 in place of 0. |
| BakeryTheorems.TicketBound | unix-lab-06/bakery/bakery_server.c:43-48 | Every ticket of id i is 0 or in 1..i+1, live tickets increase with the id, the ticket reported to a client is the one it holds, and it is 1 or one more than that of an earlier client. |
| BakeryTheorems.FirstComeFirstServed | unix-lab-06/bakery/bakery_server.c:62-73 | While worker i is inside, all smaller ids are done, no larger one is inside or done, and what it records and stores is its own letter. |
| BakeryTheorems.ReplyMatching | unix-lab-06/bakery/bakery_server.c:97-115 | The k-th reply carries the letter of the k-th wait_queue caller; all clients answered got their own letter if and only if both call orders agree. |
| BakeryTheorems.CompleteRun | unix-lab-06/bakery/bakery_server.c:97-115 | In every run, with any number of clients so far, no letter is handed out twice or to nobody, and all clients have been answered if and only if every client's letter has been handed out. |
| BakeryProgress.StuckForever | unix-lab-06/bakery/bakery_server.c:112 | A ticket without a worker below the awaited id keeps the dispatcher in the join, whatever happens. |
| BakeryTermination.LeastAdvances | unix-lab-06/bakery/bakery_server.c:62-73 | With nobody in get_number, every step of the worker with the least ticket (ties by slot) reduces what it still has to do: it never waits. |
| BakeryTermination.LeastUndisturbed | unix-lab-06/bakery/bakery_server.c:62-73 | No step of another process changes a ticket, or sets that worker back. |
| BakeryTermination.WorkStep | unix-lab-06/bakery/bakery_server.c:62-73 | The work left before c is through drops with each step of the front process, and no other step raises it. |
| BakeryTermination.FairTermination | unix-lab-06/bakery/bakery_server.c:62-73 | After as many rounds as that work, in each of which every worker up to c steps, in any order and amid any other steps, c has given its ticket back. |
| BakeryTermination.WorkBound | unix-lab-06/bakery/bakery_server.c:62-66 | The work is less than (n + 1) * (8 * n + 7) for n slots. |
| BakeryTermination.WorkerEnds | unix-lab-06/bakery/bakery_server.c:61-74 | In every reachable state with nobody in get_number: if every ticket up to that of worker c has its worker, c ends after that many fair rounds. |
| BakeryProgress.HopefulStep | unix-lab-06/bakery/bakery_server.c:62-117 | In the good case an event is the reply with the awaited client's letter, or a step of the lock alone that leaves the case good. |
| BakeryProgress.FairEnd | unix-lab-06/bakery/bakery_server.c:61-74 | In the good case the awaited worker ends under every schedule with as many fair rounds as its work. |
| BakeryProgress.FairReply | unix-lab-06/bakery/bakery_server.c:107-118 | With one fair round more the reply has been given, and it is the letter of the awaited client. |
| BakeryProgress.HopefulAlways | unix-lab-06/bakery/bakery_server.c:62-112 | No schedule spoils the good case: until the reply the lock makes exactly the steps of its workers. |
| BakeryProgress.JoinReturnsIff | unix-lab-06/bakery/bakery_server.c:107-118 | In every reachable state with a blocked dispatcher, the join returns with the awaited letter under every fair schedule if every smaller id with a nonzero ticket has a worker, and under no schedule otherwise. |
| BakeryProgress.GetNumberCompletes | unix-lab-06/bakery/bakery_server.c:42-49 | get_number is wait-free: from any reachable state the dispatcher alone finishes it and changes nothing but the lock; run from its beginning it stores and reports the largest ticket held plus one. |
| BakeryProgress.TakeTicket | unix-lab-06/bakery/bakery_server.c:36-50 | In every reachable idle state with a free slot a whole get_number call gives the next id the largest ticket held plus one. |
| BakeryTickets.ChainReact | unix-lab-06/bakery/bakery_server.c:42-49 | Every event keeps the law that a ticket, or the running maximum on the way to it, is 0 or follows a ticket told earlier. |
| BakeryTickets.StoredBetween | unix-lab-06/bakery/bakery_server.c:42-49 | From any valid state in which a call begins, its ticket is bounded by the tickets held at its end and at its beginning. |
| BakeryService.Accepts | unix-lab-06/bakery/bakery_server.c:36-118 | In every reachable idle state get_number is accepted exactly while a slot is free, wait_queue exactly from a ticketed client without a worker, bakery_res exactly from a queued client that has not asked yet. |
| BakeryService.EveryOrderServed | unix-lab-06/bakery/bakery_server.c:36-118 | From every reachable idle state, and for every order of the remaining wait_queue calls, some run answers all n clients; the k-th reply is 'a' plus the k-th id in that order. |
| BakeryService.InOrderService | unix-lab-06/bakery/bakery_server.c:33-118 | For every n some run answers 'a', 'a' + 1 and so on, n letters in all. |
| BakeryService.ServableIff | unix-lab-06/bakery/bakery_server.c:107-118 | In every reachable state all clients can still be answered if and only if the dispatcher is not waiting for a client while a smaller ticket has no worker. |
| BakeryTorn.SoloTicket | unix-lab-06/bakery/bakery_server.c:42-49 | A body of get_number run alone gives its process the largest ticket plus one and changes nothing else. |
| BakeryTorn.SoloWait | unix-lab-06/bakery/bakery_server.c:62-66 | A worker alone, with nobody choosing and no earlier ticket held, leaves the waiting loop. |
| BakeryTorn.SoloCritical | unix-lab-06/bakery/bakery_server.c:67-73 | A worker alone in the critical section takes the letter, leaves the next one and gives its ticket back. |
| BakeryTorn.RereadCanLower | unix-lab-06/bakery/bakery_server.c:45-46 | For every number of slots from three on, a schedule of overlapping bodies after which the second load finds 0 and takes the running maximum from 1 back to 0. |
| BakeryProgress.DeadlockReachable | unix-lab-06/bakery/bakery_server.c:91-118 | For two or more slots a run exists after which the dispatcher never answers again. |
| BakeryThreads.Bakery.constructor | unix-lab-06/bakery/bakery_server.c:24-33 | The initial values of the globals. |
| BakeryThreads.Bakery.GetNumberStep | unix-lab-06/bakery/bakery_server.c:42-49 | Each load or store of get_number on the arrays is the step of the lock machine. |
| BakeryThreads.Bakery.BakeryStep | unix-lab-06/bakery/bakery_server.c:62-73 | Each load or store of a worker on the arrays is the step of the lock machine. |
| BakeryThreads.Bakery.GetNumber | unix-lab-06/bakery/bakery_server.c:39-41 | The next id is taken and the dispatcher enters get_number; invariant kept. |
| BakeryThreads.Bakery.Dispatch | unix-lab-06/bakery/bakery_server.c:42-49 | One step of the running get_number, back to idle after the last; invariant kept. |
| BakeryThreads.Bakery.WaitQueue | unix-lab-06/bakery/bakery_server.c:91-104 | From a ticketed client without a worker the call puts the id into the next slot and starts its worker; invariant kept. |
| BakeryThreads.Bakery.BakeryRes | unix-lab-06/bakery/bakery_server.c:106-112 | The call of a queued client that has not asked yet blocks the dispatcher in the join; invariant kept. |
| BakeryThreads.Bakery.Join | unix-lab-06/bakery/bakery_server.c:112-117 | Once the joined worker has ended, its slot's result is the reply, and that is the letter of the client in that slot; invariant kept. |
| BakeryThreads.Bakery.Worker | unix-lab-06/bakery/bakery_server.c:61-74 | One step of the q-th worker thread, which records its letter in slot q; invariant kept. |
| BakeryThreads.Bakery.Run | unix-lab-06/bakery/bakery_svc.c:101 | Any schedule of calls and steps is the run of the server machine; of the arrays themselves: never two processes in the critical section, and the k-th reply is the letter of the client in slot k. |
| Semaphores.SemopNet | unix-lab-04/pc.c:33-36 | A granted list changes each semaphore by exactly its net amount. |
| Semaphores.SemopGrantedIff | unix-lab-04/pc.c:43 | A list is granted if and only if, with the effects of the operations before it, each operation finds 0 if its delta is 0 and otherwise enough. |
| Semaphores.SemaphoreSet.Attempt | unix-lab-04/pc.c:43 | A semop attempt applies the whole list in order or leaves the set untouched. |
| ProducerConsumer.Entering | unix-lab-04/pc.c:33-35 | The start lists are granted exactly when both semaphores are positive, and take one from each. |
| ProducerConsumer.Leaving | unix-lab-04/pc.c:34-36 | The stop lists are always granted and give one to each. |
| ProducerConsumer.PhaseStep | unix-lab-04/pc.c:50-81 | Each load, store or print of the process inside moves the books to the next phase. |
| ProducerConsumer.PhaseStart | unix-lab-04/pc.c:43-72 | A start that is granted opens the books with one claimed unit and takes SB. |
| ProducerConsumer.PhaseStop | unix-lab-04/pc.c:59-85 | A stop balances the books and gives SB back. |
| ProducerConsumer.InvKept | unix-lab-04/pc.c:38-92 | Every step of every process keeps the invariant. |
| ProducerConsumer.RefinesFifo | unix-lab-04/pc.c:38-92 | Every step of every run is a step of a FIFO queue of capacity 128, although the consumers' pointer stays 0. |
| ProducerConsumer.ConsumedIsPrefix | unix-lab-04/pc.c:51-81 | What is consumed is a prefix of what is produced, and its k-th letter is 'a' + k mod 256. |
| ProducerConsumer.Conservation | unix-lab-04/pc.c:33-36 | SB plus the processes inside is 1, SE + SF plus the processes inside is 128. |
| ProducerConsumer.NeverStuck | unix-lab-04/pc.c:170-172 | With a producer and a consumer some process can step in every reachable state. |
| ProducerConsumer.FillsUp | unix-lab-04/pc.c:40-66 | Producers alone fill the buffer with exactly 128 letters and then all block. |
| ProducerConsumer.DeadlockFreeIff | unix-lab-04/pc.c:94-132 | Some process can always step if and only if there are producers and consumers. |
| SharedBuffer.Segment.constructor | unix-lab-04/pc.c:151-181 | The semaphores start at 1, 128 and 0, both pointers at the first cell, the letter at 'a'; the processes are those main forks. |
| SharedBuffer.Segment.Producer | unix-lab-04/pc.c:40-66 | Each step of the producer loop on the segment is the machine's step; invariant kept. |
| SharedBuffer.Segment.Consumer | unix-lab-04/pc.c:70-91 | Each step of the consumer loop on the segment is the machine's step; invariant kept. |
| SharedBuffer.Segment.Execute | unix-lab-04/pc.c:94-132 | Any schedule of the forked processes; what is consumed is a prefix of what is produced, the letters in their order, and the consumers' pointer has not moved. |
| SegmentUse.StoresAtTheEnd | unix-lab-04/pc.c:50-53 | The k-th letter is stored in the k-th cell, the first one not yet written. |
| SegmentUse.CellsBound | unix-lab-04/pc.c:33-36 | The cells in use exceed the letters eaten by at most 128. |
| SegmentUse.Cycle | unix-lab-04/pc.c:40-91 | At rest a producer with a free cell or a consumer with a filled one completes its loop body, adding exactly one letter to its log. |
| SegmentUse.SegmentOverrun | unix-lab-04/pc.c:50-53 | Some run writes behind the first `room` cells if and only if there is a producer and either a consumer or fewer than 128 such cells. |
| SegmentUse.SegmentTooSmall | unix-lab-04/pc.c:138-158 | For every pointer size that fits, some run writes behind the end of the 128-byte segment if and only if there is a producer. |
| ReadersWriters.ReadEntry | unix-lab-04/rw.c:30-41 | The four operations executed are granted exactly when BIN_WRITER and WAITING_WRITERS are 0, and raise both reader counters. |
| ReadersWriters.WriteEntry | unix-lab-04/rw.c:33-52 | A writer starts exactly when no reader is active and BIN_WRITER is positive; only BIN_WRITER changes. |
| ReadersWriters.CallEffect | unix-lab-04/rw.c:41-56 | The full effect of each of the four semop calls. |
| ReadersWriters.InvKept | unix-lab-04/rw.c:37-58 | Every step of every process keeps the invariant. |
| ReadersWriters.WritersExclude | unix-lab-04/rw.c:33-58 | BIN_WRITER plus the writers inside is 1, so writers exclude each other. |
| ReadersWriters.NoLostUpdate | unix-lab-04/rw.c:50-57 | With load and store split, `*shm` is the number of completed increments, and together with the writers that have theirs still to do it is the number of writers let in. |
| ReadersWriters.WriterIncrements | unix-lab-04/rw.c:53-54 | From every reachable state, three steps of a writer that was let in increment the counter by one and print the result, whoever else is inside. |
| ReadersWriters.WriterSession | unix-lab-04/rw.c:50-57 | A writer that finds nobody inside is let in, increments, prints and leaves all semaphores and processes as they were. |
| ReadersWriters.PrintsAscend | unix-lab-04/rw.c:42-54 | Readers and writers print the number of completed increments, so the printed values never decrease, and everybody let in prints exactly once. |
| ReadersWriters.CounterMeaning | unix-lab-04/rw.c:30-35 | WAITING_WRITERS and ACTIVE_WRITER are 0, ACTIVE_READERS counts the readers inside, WAITING_READERS all read starts, BIN_WRITER is 0 exactly while a writer is inside. |
| ReadersWriters.EntryRules | unix-lab-04/rw.c:30-35 | A waiting reader can move exactly while a writer is inside, a waiting writer exactly when nobody is, and everyone inside always. |
| ReadersWriters.LeftoversFirst | unix-lab-04/rw.c:30-35 | After a writer has left with readers inside, exactly those readers can move. |
| ReadersWriters.DeadlockFreeIff | unix-lab-04/rw.c:60-100 | Some process can always step if and only if there is a writer. |
| ReadersWriters.OverlapIff | unix-lab-04/rw.c:30-54 | A writer before its increment and a reader before its print can be inside together if and only if there is one of each. |
| SharedCounter.Counter.constructor | unix-lab-04/rw.c:125-140 | The counter starts at 0 and only BIN_WRITER at 1; the processes are those main forks. |
| SharedCounter.Counter.Reader | unix-lab-04/rw.c:39-45 | Each step of the reader loop is the machine's step; invariant kept. |
| SharedCounter.Counter.Writer | unix-lab-04/rw.c:50-57 | Each step of the writer loop is the machine's step; invariant kept. |
| SharedCounter.Counter.Execute | unix-lab-04/rw.c:60-100 | Any schedule of the forked processes; `*shm` plus the writers yet to increment is the number of writers let in, everybody let in prints once, printed values never decrease, and no two writers are inside. |
| ShuntingYard.Keep | unix-lab-02/task3/lab_4_9/array_operations.c:87-91 | An operator leaves a prefix of the stack whose top binds weaker, and pops only operators that bind at least as tightly. |
| ShuntingYard.GrammarIsLayered | unix-lab-02/task3/lab_4_9/array_operations.c:49-59 | The precedences of the code are those of the grammar: + - below * / % below every other operator, all grouped to the left. |
| ShuntingYard.TranslatesText | unix-lab-02/task3/lab_4_9/array_operations.c:73-104 | In any context that cannot reach into it a text contributes the postorder of its tree and leaves the stack as it was. |
| ShuntingYard.TranslationIsPostorder | unix-lab-02/task3/lab_4_9/array_operations.c:66-105 | For every text of the grammar, with necessary or redundant parentheses, the output is the postorder of its tree. |
| ShuntingYard.RenderIsLegal | unix-lab-02/task3/lab_4_9/array_operations.c:49-59 | Every tree has a text in the grammar that denotes it. |
| ShuntingYard.EvaluatesPostorder | unix-lab-02/task3/lab_4_9/array_operations.c:73-104 | Evaluating a postorder on a value stack pushes the value of the tree. |
| ShuntingYard.TranslationPreservesMeaning | unix-lab-02/task3/lab_4_9/array_operations.c:66-105 | Under any interpretation of operands and operators the output evaluates to the value of the expression. |
| ShuntingYard.SameOutputIffSameTree | unix-lab-02/task3/lab_4_9/array_operations.c:66-105 | Two legal texts have the same output if and only if they denote the same tree. |
| ShuntingYard.Unambiguous | unix-lab-02/task3/lab_4_9/array_operations.c:49-59 | A text denotes at most one tree. |
| TokenConservation.OperandsInOrder | unix-lab-02/task3/lab_4_9/array_operations.c:76-77 | For every string the operands come out in their order. |
| TokenConservation.TokensConserved | unix-lab-02/task3/lab_4_9/array_operations.c:73-102 | From every stack and every string, each character comes out as often as it went in, parentheses excepted. |
| TokenConservation.Conservation | unix-lab-02/task3/lab_4_9/array_operations.c:73-102 | For every string the output is its non-parenthesis tokens plus the unclosed opening parentheses, with the exact length; it is free of parentheses if and only if every opening one is closed. |
| TokenConservation.StackIncreases | unix-lab-02/task3/lab_4_9/array_operations.c:79-93 | Precedences strictly increase from each `(` upward and the stack never exceeds the tokens read. |
| TokenConservation.OperatorStackBound | unix-lab-02/task3/lab_4_9/array_operations.c:25-32 | The stack is at most 3 higher than 4 times its open parentheses, and never higher than the text is long. |
| Nesting.PairAlone | unix-lab-02/task3/lab_4_9/array_operations.c:79-84 | In any string, and on any stack, the text between matching parentheses is translated on its own. |
| Nesting.UnmatchedClose | unix-lab-02/task3/lab_4_9/array_operations.c:82-84 | After a text with no open parenthesis left, a closing one ends the expression: what follows is translated afresh. |
| Nesting.UnmatchedOpen | unix-lab-02/task3/lab_4_9/array_operations.c:79-102 | The text behind an unmatched opening parenthesis is translated on its own, followed by that parenthesis, inside the output of what came before. |
| Translator.Stack.Push | unix-lab-02/task3/lab_4_9/array_operations.c:25-32 | Appends, or fails and changes nothing when MAXSIZE elements are on the stack. |
| Translator.Stack.Pop | unix-lab-02/task3/lab_4_9/array_operations.c:34-42 | Removes and returns the top, or returns ERR_LENGTH on an empty stack. |
| Translator.Stack.Top | unix-lab-02/task3/lab_4_9/array_operations.c:44-47 | The top; nothing is promised on an empty stack. |
| Translator.Stack.Empty | unix-lab-02/task3/lab_4_9/array_operations.c:11-16 | ERR_LENGTH exactly on an empty stack. |
| Translator.Stack.Init | unix-lab-02/task3/lab_4_9/array_operations.c:61-64 | The stack is empty. |
| Translator.PushChar | unix-lab-02/task3/lab_4_9/array_operations.c:80-92 | With fewer than MAXSIZE - 1 pending operators a push never fails. |
| Translator.CloseParen | unix-lab-02/task3/lab_4_9/array_operations.c:82-84 | The loop for `)` writes and drops exactly down to the innermost open parenthesis, or everything. |
| Translator.PushOperator | unix-lab-02/task3/lab_4_9/array_operations.c:87-92 | The loop for an operator, whatever top returns on an empty stack. |
| Translator.ReadText | unix-lab-02/task3/lab_4_9/array_operations.c:73-94 | After the main loop, what is written and what the stack will still give make up the translation. |
| Translator.Flush | unix-lab-02/task3/lab_4_9/array_operations.c:96-102 | The rest of the stack is written from the top down. |
| Translator.InfixToPostfix | unix-lab-02/task3/lab_4_9/array_operations.c:66-105 | For every ASCII text shorter than MAXSIZE the buffer holds the NUL-terminated translation, no longer than the text; no push fails. |
| TimerTick.TickCount | lab-01/src/INT8.LST:14-27 | One tick adds one, except from the last tick of a day and from the largest 32-bit value, which give 0. |
| TimerTick.DayCounter | lab-01/src/INT8.LST:14-27 | From any time of day the counter is (c0 + n) mod 0x1800B0 after n ticks, and the rollover byte is 1 if and only if it was or a day has passed. |
| TimerTick.MotorOffs | lab-01/src/INT8.LST:33-39 | After n ticks (n + 256 - m0) / 256 motor-off commands were sent (0 counted as 256), with the exact countdown and motor status. |
| TimerTick.BeyondADay | lab-01/src/INT8.LST:14-26 | A counter set beyond a day runs through the whole 32-bit range before the days count again. |
| TimerTick.Bios.Interrupt | lab-01/src/INT8.LST:14-39 | The instructions on the words and bytes are one tick of the clock. |
| TimerTick.Bios.Run | lab-01/src/INT8.LST:14-39 | n interrupts are n ticks, and keep the time of day modulo a day. |

## Left out

- RPC stubs, XDR, sockets, timeouts and retransmission: only the serial dispatch of `svc_run` and the call order of the client are kept.
- More clients than slots, repeated calls, reused or forged ids, and a failing `pthread_create`: the clients are assumed to behave as `bakery_client.c` does.
- Weak memory and caching of the non-volatile globals: loads and stores are sequentially consistent.
- `printf`, `sleep`, `time` and `setbuf` in the server and the processes: prints that matter are logs, the others are dropped.
- Overflow of `int`: tickets and letters stay small by `TicketBound`; the counter of `rw.c` is taken as unbounded.
- SEMVMX: the model's WAITING_READERS grows without bound, while a kernel refuses values above 32767.
- SharedBuffer.Segment.Producer: a store behind the end of the shared segment is modelled like any other, because its effect is undefined; the cells are a tape that grows, and `SegmentTooSmall` says exactly when this matters.
- `fork`, `shmget`, `semget`, `ftok`, error exits and the pointer casts of the shared layout: replaced by the initial states.
- Translator.InfixToPostfix: texts with characters outside ASCII are not modelled, because `isalnum` of a negative char is undefined; char is taken as signed.
- Menus, timing comparison and the stack commands of `start_array_menu`.
- `list_operations.c`: its `top_list` returns the bottom of the stack, so it is a different translation.
- `unix-lab-05/main.c`, the queue simulation of `lab_05_02`, the fork, pipe and signal exercises and the daemon.
- The calls of sub_2, INT 1Ch and the end-of-interrupt command in `INT8.LST`: they do not touch the modelled cells.
