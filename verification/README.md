# Verified models of the operating-systems workspace

Dafny models of the concurrent and algorithmic programs of this repository, with proofs of
what they keep in every run. `dafny verify dfyconfig.toml` checks everything.

| file | program |
|---|---|
| `CInts.dfy` | C's unsigned conversions and truncating remainder |
| `Greedy.dfy`, `Fgrep.dfy` | `4-pfgrep`: one substring scan of a file against four scans of overlapping chunks |
| `Slices.dfy`, `RoundRobin.dfy`, `Planner.dfy` | `PLANNER`: the slice loop, and priority round robin as a policy on values and as linked lists on the heap |
| `Runs.dfy` | runs of a transition system, for the concurrent programs below |
| `CommandQueue.dfy` | first program of `01_02_2023/server.c`: bounded command list, two semaphores, shutdown |
| `ProdCons.dfy` | `7-prodcons`: producer and consumer around a stack, mutex and two condition variables |
| `Nasty.dfy` | `nasty.c`: a device that reads and writes a random number of bytes |
| `FileLocks.dfy`, `LockOrder.dfy`, `ListCapacity.dfy`, `Checksum.dfy` | `30.01.2023/server.c`: locks by file name, their order, the size of the list, the chunked checksum |
| `Jobs.dfy` | `PART2_lab14/server.c`: admission of jobs and reaping of children |
| `Blocked.dfy` | `5-blocked`: two searchers that look at each other's result |

## How the programs are modelled

Code that updates memory in place is a class or a method on arrays: the lists of the planner
are `Task` objects linked by `next`, the command list and the file list are arrays with a
counter, the scan and the checksum are loops. The specification functions these methods are
proved against (`Greedy.Scan`, `RoundRobin.Dispatched`, `Nasty.Written`, `Checksum.Digest`)
are then the subject of the lemmas, which pin down what they compute without naming them.

A concurrent program is a transition system. A thread has a program counter; one step is one
section under a mutex, one semaphore operation, or one access to shared data. `Enabled` says
which steps do not block, `Legal(.., acts)` that the list of steps `acts` can happen in that
order, and `After` is the state it leads to. A lemma about all `acts` that are `Legal` from
`Init` is a statement about every interleaving. The class `Program` (`Server` in `Jobs.dfy`)
carries out the same steps on the program's arrays and records, updated in place, and its `Run`
is proved to end, for every interleaving, in the state the transition system says; no access
falls outside an array on the way (provided the list of files is large enough, which
`ListCapacity` settles). Numbers of threads, capacities and iteration counts are parameters (2 workers and 4 rows in `01_02_2023`, 3 and 10 in `prodcons.c`, 5 jobs
in `PART2_lab14`). What comes from outside is a parameter too: the bytes of the file, what the
reads from a pipe or a file return, the random lengths, which bytes a user copy misses, which
forks fail, which operations the input file names.

| transition system | steps and the lines they stand for |
|---|---|
| `CommandQueue.MainStep`, `CommandQueue.WorkerStep` | `EXAMS/01_02_2023/server.c` 143-180 and 65-97 |
| `ProdCons.Apply` | `prodcons.c` 72-99 and 117-139; `Spurious` is a return from `pthread_cond_wait` without a signal |
| `FileLocks.TaskStep`, `FileLocks.Apply` | `EXAMS/30.01.2023/server.c` 51-96, 104, 118-120, 136-137, 163-166, 194-204; a pass of the waiting loop that finds the flag set is no step |
| `Jobs.HandlerStep`, `Jobs.ReaperStep`, `Jobs.ReapUnregisteredStep` | `EXAMS/PART2_lab14/server.c` 145-163, 107-119 and 318-341; `BadStatus` is 174-185 for an id without a process; `ReapUnregistered` is a return from `wait` with a child whose handler is before 110 |
| `Blocked.Apply` | `blocked.c` 58-97 and 99-135, the same code with the roles exchanged |

## What was found

- The parallel count is not always the serial count. It is larger by at most one match at each
  of the three chunk boundaries (`Fgrep.ParallelGap`), for every pattern with a border it is
  larger by three on some file (`Fgrep.ThreeExtraMatches`), and the two agree on every file
  exactly for patterns without a border (`Fgrep.AgreeOnEveryFileIffBorderless`).
- The branch of `split_file_mapping` that clips the third chunk gives correct chunks as
  geometry, but then `count` is called on a last chunk shorter than the pattern and its number
  of start positions wraps around (`Fgrep.SplitIsSafeIff`).
- The planner's slice loop stops after `time_slice / time_quantum` turns only if the quantum
  divides the slice; otherwise the unsigned subtraction wraps around (`Slices.StopsInTimeIff`).
  It stops at all exactly when the greatest common divisor of the quantum and 2^32 divides the
  slice (`Slices.StopsIff`), and then within 2^32 divided by that divisor turns
  (`Slices.NeededBound`). Fairness does not depend on it (`RoundRobin.Fairness`).
- In `01_02_2023` commands still in the list when `finished` is set are dropped unless a worker
  has already passed its test (`CommandQueue.AllProcessedIff`). A complete run can hand out
  any beginning of the input that leaves no more commands than there are rows
  (`CommandQueue.CanHandOutIff`), so only an empty input is safe
  (`CommandQueue.AllProcessedAlwaysIff`). The shift reads one
  row past the array when the list is full, which is possible exactly when there are at least
  as many commands as rows (`CommandQueue.ShiftStaysInsideIff`).
- In `30.01.2023` operations can wait for each other for ever, exactly when the files of the
  checksum lines cannot be ordered (`LockOrder.AllCanFinishIff`); a checksum of a file with
  itself is the smallest case (`FileLocks.SameFileNeverFinishes`). The program checks the number
  of lines against the size of its list, but a checksum line can add two entries, and a name can
  be listed again: it is found missing between another task's test and append, and always when
  it is at index 0. How many entries are needed is `ListCapacity.ListFitsIff`; copies of one
  checksum line need two each (`ListCapacity.CopiesFitIff`), so 16 lines overflow 30 entries.
  The checksum depends on how the bytes are divided into reads as
  soon as they can have both signs (`Checksum.DigestIndependentIff`).
- In `PART2_lab14` a job whose fork fails stays counted (`Jobs.CounterReturnsIff`), so after as
  many failed forks as there are slots the server rejects every request. A `get_status` for an
  id without a process locks `jobs_mutex` twice in one thread; from then on the server admits no
  more requests than there are slots (`Jobs.LastAdmissions`). Whether it can still admit one is
  `Jobs.AdmitsAgainIff`.
- In `blocked.c` the product of `factorial` starts with the factor 0, so `is_super_number` is
  false for every number and the program always reports that nothing was found
  (`Blocked.NoneIsSuper`, `Blocked.SearchAsWritten`). The other results about it are for any
  test: with one that can hold, a thread can stop without having reported the hit of its range
  (`Blocked.CanMissIff`), but the two together never miss (`Blocked.SearchIsComplete`).

## Model

| member | source | states |
|---|---|---|
| CInts.U32Wraps | Lab7_threads/practice/PLANNER/planner.c:114 | the wrapped value lies in the range of an `unsigned int` and differs from the exact one by a multiple of it |
| CInts.SizeTWraps | Lab7_threads/lin_Exercises/4-pfgrep/parallel_fgrep.c:105-111 | the same for `size_t` |
| CInts.TruncRemIs | EXAMS/30.01.2023/server.c:152 | the remainder differs from the dividend by a multiple of the divisor, is smaller than it, and never has the other sign |
| Greedy.ScanSplit | Lab7_threads/lin_Exercises/4-pfgrep/serial_fgrep.c:53-60 | a scan cut at any position is the sum of its two parts, if the second starts where the first stopped |
| Greedy.ScanShift | Lab7_threads/lin_Exercises/4-pfgrep/serial_fgrep.c:53-60 | moving the start forward by at most a pattern length never gains a match and loses at most one |
| Greedy.NoLargerPacking | Lab7_threads/lin_Exercises/4-pfgrep/serial_fgrep.c:53-60 | no set of pairwise non-overlapping occurrences is larger than the count |
| Greedy.ScanIsPacking | Lab7_threads/lin_Exercises/4-pfgrep/serial_fgrep.c:53-60 | some set of pairwise non-overlapping occurrences is as large as the count |
| Greedy.ScanIsMaximum | Lab7_threads/lin_Exercises/4-pfgrep/serial_fgrep.c:47-63 | the greedy count is the maximum size of a set of pairwise non-overlapping occurrences |
| Greedy.WholeScanIsMost | Lab7_threads/lin_Exercises/4-pfgrep/serial_fgrep.c:47-63 | over a whole text the greedy count is the largest number of positions where the pattern occurs, no two overlapping |
| Greedy.OverlapIsBorder | Lab7_threads/lin_Exercises/4-pfgrep/serial_fgrep.c:53-60 | what two overlapping occurrences share is a border of the pattern |
| Greedy.ApartScanCountsAll | Lab7_threads/lin_Exercises/4-pfgrep/serial_fgrep.c:53-60 | if no two occurrences overlap, the scan counts every occurrence of its range |
| Greedy.ApartScanSplit | Lab7_threads/lin_Exercises/4-pfgrep/parallel_fgrep.c:154-157 | if no two occurrences overlap, the counts of two adjacent ranges add up to that of both |
| Fgrep.SplitFileMapping | Lab7_threads/lin_Exercises/4-pfgrep/parallel_fgrep.c:94-114 | the table ends up holding the four chunks, with `size_t` subtraction and the patched third row |
| Fgrep.ChunkSizeIsLeast | Lab7_threads/lin_Exercises/4-pfgrep/parallel_fgrep.c:99 | the chunk size is the least that lets four chunks cover the file |
| Fgrep.ChunksReach | Lab7_threads/lin_Exercises/4-pfgrep/parallel_fgrep.c:94-114 | for every size and in both branches: where each chunk starts and how far it reaches into the next, and where the last one ends |
| Fgrep.SplitIsSafeIff | Lab7_threads/lin_Exercises/4-pfgrep/parallel_fgrep.c:94-114 | all four scans are well defined if and only if `3 * chunk_size + string_size - 1 <= size` for a non-empty string, and the clipped branch is then not taken |
| Fgrep.ThreeChunksFit | Lab7_threads/lin_Exercises/4-pfgrep/parallel_fgrep.c:99-109 | three chunks fit in the file for every size except 1, 2 and 5 |
| Fgrep.WindowsArePartitioned | Lab7_threads/lin_Exercises/4-pfgrep/parallel_fgrep.c:94-114 | in both branches all chunks lie in the mapping and every window of the pattern's length lies in exactly one chunk |
| Fgrep.Equal | Lab7_threads/lin_Exercises/4-pfgrep/parallel_fgrep.c:70 | the comparison holds exactly at the occurrences of the pattern |
| Fgrep.Count | Lab7_threads/lin_Exercises/4-pfgrep/parallel_fgrep.c:63-79 | the loop, on `unsigned int`, returns the greedy count over the window starts of the chunk |
| Fgrep.SerialIsMost | Lab7_threads/lin_Exercises/4-pfgrep/serial_fgrep.c:47-63 | for every file and every pattern that is not empty the serial total is the largest number of non-overlapping occurrences |
| Fgrep.SerialFgrep | Lab7_threads/lin_Exercises/4-pfgrep/serial_fgrep.c:65-80 | the serial program returns the largest number of non-overlapping occurrences of the pattern in the file |
| Fgrep.ParallelFgrep | Lab7_threads/lin_Exercises/4-pfgrep/parallel_fgrep.c:116-160 | the parallel program returns the sum of the greedy counts of the four chunks, never scanning outside the mapping, which is the serial total or up to 3 more |
| Fgrep.OvercountIsZeroOrOne | Lab7_threads/lin_Exercises/4-pfgrep/parallel_fgrep.c:81-92 | a thread that restarts at a boundary counts at most one match more than carrying on would, and never fewer |
| Fgrep.ParallelIsFourScans | Lab7_threads/lin_Exercises/4-pfgrep/parallel_fgrep.c:94-157 | the chunks' window starts tile the window starts of the file, in order |
| Fgrep.ParallelGap | Lab7_threads/lin_Exercises/4-pfgrep/parallel_fgrep.c:63-157 | parallel equals serial plus what is gained at the three boundaries, so it lies between serial and serial + 3, and they agree on a file if and only if nothing is gained |
| Fgrep.BorderlessTotalsAgree | Lab7_threads/lin_Exercises/4-pfgrep/parallel_fgrep.c:63-157 | for a pattern without a border both totals are the number of all occurrences |
| Fgrep.BorderIsCountedTwice | Lab7_threads/lin_Exercises/4-pfgrep/parallel_fgrep.c:63-157 | for every pattern with a border, up to 1 GiB, there is a file on which the parallel total is larger |
| Fgrep.AgreeOnEveryFileIffBorderless | Lab7_threads/lin_Exercises/4-pfgrep/parallel_fgrep.c:63-157 | the two programs agree on every file they can split if and only if the pattern has no border, or is longer than 1 GiB, when there is no such file |
| Fgrep.ThreeExtraMatches | Lab7_threads/lin_Exercises/4-pfgrep/parallel_fgrep.c:63-157 | for every pattern with a border, below 512 MiB, there is a file on which serial finds 3 and parallel 6: the bound is reached |
| Slices.NeededIsLeast | Lab7_threads/practice/PLANNER/planner.c:102-126 | the turns of the slice loop end at the first one that leaves nothing |
| Slices.NeededStep | Lab7_threads/practice/PLANNER/planner.c:114 | a turn leaves a slice that needs one turn less, wrapping around or not |
| Slices.WholeIsDivision | Lab7_threads/practice/PLANNER/planner.c:114 | repeated subtraction of the quantum is division: it reaches 0 if and only if the quantum divides the slice, after `slice / quantum` steps |
| Slices.SliceAfterExact | Lab7_threads/practice/PLANNER/planner.c:114 | as long as whole quanta are left the unsigned subtraction is exact |
| Slices.StopsInTimeIff | Lab7_threads/practice/PLANNER/planner.c:102-126 | after `slice / quantum` turns the slice is 0 if and only if the quantum divides it; otherwise the next turn wraps around |
| Slices.WholeNeedsQuotient | Lab7_threads/practice/PLANNER/planner.c:102-126 | a slice that the quantum divides takes `slice / quantum` turns |
| Slices.SliceCongruent | Lab7_threads/practice/PLANNER/planner.c:114 | what is left differs from the slice by the quanta taken and a multiple of 2^32 |
| Slices.StopsIff | Lab7_threads/practice/PLANNER/planner.c:102-126 | the slice loop stops if and only if the greatest common divisor of the quantum and 2^32 divides the slice |
| Slices.NeededBound | Lab7_threads/practice/PLANNER/planner.c:102-126 | a loop that stops takes fewer turns than 2^32 divided by that greatest common divisor |
| RoundRobin.DispatchedValid | Lab7_threads/practice/PLANNER/planner.c:69-119 | a hand-off brings the end of the record it selects one turn nearer, and keeps the queues well formed and every slice one that stops |
| RoundRobin.ApplyWellFormed | Lab7_threads/practice/PLANNER/planner.c:39-149 | forks and hand-offs keep every record with time left queued once, at its own priority, and no other |
| RoundRobin.SliceLedger | Lab7_threads/practice/PLANNER/planner.c:39-149 | over any forks and hand-offs nothing is lost or run twice: for a slice that stops, turns still needed plus turns had equal the turns needed at the start |
| RoundRobin.AheadAfterEvent | Lab7_threads/practice/PLANNER/planner.c:39-79 | the record behind gets no turn before the one in front, which goes behind it after its own |
| RoundRobin.TurnsAlternate | Lab7_threads/practice/PLANNER/planner.c:39-119 | while both are unfinished, the record in front is ahead by zero or one turns, for any slices |
| RoundRobin.Fairness | Lab7_threads/practice/PLANNER/planner.c:39-119 | two unfinished records of equal priority never differ by more than one turn, for any slices and whatever is forked meanwhile |
| RoundRobin.ArrivesLast | Lab7_threads/practice/PLANNER/planner.c:130-149 | a forked record stands behind every record of its priority, with its slice; no other record moves or changes |
| RoundRobin.NewcomerWaits | Lab7_threads/practice/PLANNER/planner.c:39-149 | first come, first served: whatever happens after a fork, the new record gets no turn before each record queued at its priority has had one |
| RoundRobin.NewcomerLedger | Lab7_threads/practice/PLANNER/planner.c:39-149 | from its fork on a record keeps its priority, and its turns had and needed add up to those of the slice it was forked with |
| RoundRobin.RunTurns | Lab7_threads/practice/PLANNER/planner.c:186-206 | in a run until idle each record gets exactly the turns its slice loop takes |
| RoundRobin.RunDrainsQueues | Lab7_threads/practice/PLANNER/planner.c:186-206 | a run ends with all queues empty and all slices 0 after exactly the sum of the turns needed |
| RoundRobin.WholeSliceTurns | Lab7_threads/practice/PLANNER/planner.c:186-206 | in a run a record whose slice the quantum divides gets exactly `slice / quantum` turns |
| RoundRobin.HigherPriorityFirst | Lab7_threads/practice/PLANNER/planner.c:69-79 | in a run no record is dispatched before one of higher priority is finished |
| RoundRobin.RunIsDispatches | Lab7_threads/practice/PLANNER/planner.c:186-206 | a run until idle is a sequence of hand-offs, with the same log and end, so fairness holds in it |
| Planner.Scheduler.constructor | Lab7_threads/practice/PLANNER/planner.c:169-176 | all queues start empty |
| Planner.LinkBehind | Lab7_threads/practice/PLANNER/planner.c:39-55 | walking the list links the record behind its last one and changes nothing else of it |
| Planner.Scheduler.Enqueue | Lab7_threads/practice/PLANNER/planner.c:39-55 | the record is appended to this queue; lists stay acyclic and disjoint, slices and other queues unchanged |
| Planner.Scheduler.Dequeue | Lab7_threads/practice/PLANNER/planner.c:57-67 | unlinks and returns the head, or null for an empty queue |
| Planner.Scheduler.SelectNextTask | Lab7_threads/practice/PLANNER/planner.c:69-79 | dequeues from the highest non-empty queue: the heap follows `RoundRobin.Selected`; null if all are empty |
| Planner.Scheduler.SoFork | Lab7_threads/practice/PLANNER/planner.c:130-154 | a fresh record with the given slice and priority enters the end of its queue, the other queues and records unchanged |
| Planner.Scheduler.RunQuantum | Lab7_threads/practice/PLANNER/planner.c:112-119 | subtracts a quantum on `unsigned int` and re-enqueues while time is left: the heap follows `RoundRobin.Ran` |
| Planner.Scheduler.HandOff | Lab7_threads/practice/PLANNER/planner.c:193-199 | select and run one quantum: the heap follows `RoundRobin.Dispatched` |
| Planner.Scheduler.SoRun | Lab7_threads/practice/PLANNER/planner.c:186-206 | if every slice loop stops, the loop ends, having run what `RoundRobin.Run` says, in that order, with the linked lists in the state it says |
| CommandQueue.CommandList.Append | EXAMS/01_02_2023/server.c:155-156 | appends a row |
| CommandQueue.CommandList.TakeFirst | EXAMS/01_02_2023/server.c:82-87 | returns the first row and shifts the others up, so that the result followed by the new contents is the old contents |
| CommandQueue.MainKeepsInv | EXAMS/01_02_2023/server.c:143-180 | every step of main keeps the accounts of slots, tokens and commands |
| CommandQueue.WorkerKeepsInv | EXAMS/01_02_2023/server.c:65-97 | every step of a worker keeps them |
| CommandQueue.ListNeverUnderOrOverflows | EXAMS/01_02_2023/server.c:70-161 | in every interleaving free slots, main's slot, list and workers about to post add up to the capacity; appends find room, removals find a row, and removed followed by list is what was read, in order |
| CommandQueue.NoWorkerLeftWaiting | EXAMS/01_02_2023/server.c:171-175 | after the extra posts there is a token for every worker that waits for one |
| CommandQueue.NoDeadlockIff | EXAMS/01_02_2023/server.c:65-181 | no interleaving blocks before the end if and only if the list takes the whole input or there are a row and a worker |
| CommandQueue.RunsAreFinite | EXAMS/01_02_2023/server.c:65-181 | a bound on the length of every run |
| CommandQueue.LeftoverIsFixed | EXAMS/01_02_2023/server.c:71-87 | after `finished` is set only workers past their test take another command |
| CommandQueue.AllProcessedIff | EXAMS/01_02_2023/server.c:71-172 | every command is handed out if and only if, when `finished` is set, the list holds as many commands as workers are past their test |
| CommandQueue.CanHandOutIff | EXAMS/01_02_2023/server.c:65-181 | some complete run hands out exactly the first k commands if and only if the rest fits in the list (and there is a worker, for k above 0) |
| CommandQueue.LastCommandCanBeLost | EXAMS/01_02_2023/server.c:71-172 | for every non-empty input a complete run that hands out all but the last command |
| CommandQueue.AllProcessedAlwaysIff | EXAMS/01_02_2023/server.c:65-181 | every complete run hands out the whole input if and only if it is empty or no run is complete |
| CommandQueue.ShiftStaysInsideIff | EXAMS/01_02_2023/server.c:83-86 | the shift stays inside the array in every interleaving if and only if there are fewer commands than rows |
| CommandQueue.Program.StepMain | EXAMS/01_02_2023/server.c:143-180 | the statement carried out on the list, counters and semaphores is main's step of the transition system |
| CommandQueue.Program.StepWorker | EXAMS/01_02_2023/server.c:65-97 | the same for a worker, shift loop included |
| CommandQueue.Program.Run | EXAMS/01_02_2023/server.c:65-180 | every interleaving runs on the array without leaving it and ends in the state the transition system says |
| ProdCons.Buffer.constructor | Lab7_threads/lin_Exercises/7-prodcons/prodcons.c:27-31 | the buffer starts empty |
| ProdCons.Buffer.InsertItem | Lab7_threads/lin_Exercises/7-prodcons/prodcons.c:33-37 | pushes |
| ProdCons.Buffer.RemoveItem | Lab7_threads/lin_Exercises/7-prodcons/prodcons.c:39-43 | pops what was pushed last |
| ProdCons.Buffer.IsFull | Lab7_threads/lin_Exercises/7-prodcons/prodcons.c:45-48 | true exactly when no item fits |
| ProdCons.Buffer.IsEmpty | Lab7_threads/lin_Exercises/7-prodcons/prodcons.c:50-53 | true exactly when there is no item |
| ProdCons.StepKeepsWakeUps | Lab7_threads/lin_Exercises/7-prodcons/prodcons.c:82-139 | every step keeps: a thread that waits has nothing to do or is about to be signalled |
| ProdCons.BufferInvariant | Lab7_threads/lin_Exercises/7-prodcons/prodcons.c:72-139 | in every interleaving inserted items are those in the buffer and those consumed, the buffer is increasing and within bounds, work finds room or an item, critical sections exclude each other |
| ProdCons.ConsumedIsOutcome | Lab7_threads/lin_Exercises/7-prodcons/prodcons.c:72-139 | at the end the buffer is empty and each item was consumed once, in an order of a stack of that size |
| ProdCons.WaitersAreBlocked | Lab7_threads/lin_Exercises/7-prodcons/prodcons.c:82-139 | no lost wake-up: an unsignalled waiter, with the mutex free, faces a full (empty) buffer |
| ProdCons.NoDeadlockIff | Lab7_threads/lin_Exercises/7-prodcons/prodcons.c:72-139 | without spurious wake-ups no interleaving deadlocks if and only if the buffer has room for an item or there is none |
| ProdCons.BothSleep | Lab7_threads/lin_Exercises/7-prodcons/prodcons.c:82-127 | with a buffer of size 0 both threads go to sleep |
| ProdCons.RunsAreFinite | Lab7_threads/lin_Exercises/7-prodcons/prodcons.c:72-139 | a bound on the length of every run, three steps more per spurious wake-up |
| ProdCons.OutcomeComesAbout | Lab7_threads/lin_Exercises/7-prodcons/prodcons.c:72-139 | every order of a stack of that size is the result of some interleaving |
| ProdCons.OutcomesIff | Lab7_threads/lin_Exercises/7-prodcons/prodcons.c:72-139 | the orders in which items can be consumed are exactly those: each item once, last in first out, item number below position plus size |
| ProdCons.Program.Step | Lab7_threads/lin_Exercises/7-prodcons/prodcons.c:72-139 | the statement carried out on the buffer, with its own full and empty tests, is the step of the transition system |
| ProdCons.Program.Run | Lab7_threads/lin_Exercises/7-prodcons/prodcons.c:72-139 | every interleaving runs on the array without leaving it and ends in the state the transition system says |
| Nasty.RandomLengthReaches | LAB2/ex3/nasty/nasty.c:68-102 | each length from 1 to 16 is drawn, for exactly the numbers congruent to one less than it modulo 16 |
| Nasty.ChunkLength | LAB2/ex3/nasty/nasty.c:68-74 | a transfer moves at least one byte unless none is asked for, at most 16, at most what is asked for, and none past the limit |
| Nasty.Copy | LAB2/ex3/nasty/nasty.c:75 | copies the bytes and leaves the rest |
| Nasty.WrittenOverwrites | LAB2/ex3/nasty/nasty.c:109-118 | a write replaces the bytes of its range and no others, grows the file if it ends past it and never shrinks it |
| Nasty.Device.Open | LAB2/ex3/nasty/nasty.c:43-50 | truncation sets the size to 0 and keeps the bytes |
| Nasty.Device.Read | LAB2/ex3/nasty/nasty.c:58-86 | at the end 0; otherwise the bytes at the position are in the buffer and the position moves on, or a short user copy gives an error and the position stays |
| Nasty.Device.Write | LAB2/ex3/nasty/nasty.c:88-121 | nothing asked 0, past the end an error; otherwise the bytes are in the file, whose size is the larger of before and the end of the write, or a short user copy gives an error and the size stays |
| Nasty.WriteLoop | LAB2/ex3/nasty/nasty.c:88-121 | a caller that repeats writes on the device, whatever the size of its file, leaves it with as much of its buffer as fits and everything else unchanged, for all random lengths |
| Nasty.ReadLoop | LAB2/ex3/nasty/nasty.c:58-86 | a caller that repeats reads until 0 has the bytes from its position to the end, for all random lengths |
| Nasty.WriteAllWrites | LAB2/ex3/nasty/nasty.c:88-121 | repeated short writes put as much of the data as fits in the file and change nothing else |
| Nasty.WriteAllOverwrites | LAB2/ex3/nasty/nasty.c:88-121 | repeated short writes at any position replace the bytes that fit and no others; the size is the larger of before and the end of what fits |
| Nasty.ReadAllReads | LAB2/ex3/nasty/nasty.c:58-86 | repeated short reads until 0 return the file from the position to its end |
| Nasty.RoundTripIff | LAB2/ex3/nasty/nasty.c:43-121 | truncate, write, read: for all random lengths the data comes back cut to 4096 bytes, so all of it if and only if it fits, and the bytes past it are unchanged |
| Nasty.RoundTripKeeps | LAB2/ex3/nasty/nasty.c:43-121 | write without truncation, read from the start: the data where it was written and everything else as it was |
| FileLocks.FirstStable | EXAMS/30.01.2023/server.c:66-79 | appending a name, even a listed one, moves no first index |
| FileLocks.FilesList.VerifyExistency | EXAMS/30.01.2023/server.c:51-65 | returns the first index of the name, and 0 also when it is not listed |
| FileLocks.FilesList.Append | EXAMS/30.01.2023/server.c:72-76 | appends an unused entry |
| FileLocks.FilesList.TryTake | EXAMS/30.01.2023/server.c:85-94 | takes the entry exactly when it is unused |
| FileLocks.FilesList.Release | EXAMS/30.01.2023/server.c:163-166 | frees the entry |
| FileLocks.StepKeepsInv | EXAMS/30.01.2023/server.c:51-173 | every step keeps: names listed before use, ids are first indices, an entry has one holder, a flag is set exactly while held |
| FileLocks.FilesAreExclusive | EXAMS/30.01.2023/server.c:80-173 | in every interleaving no two operations hold the same file, and the flag at a name's first index is set if and only if one holds it, although names can be listed twice |
| FileLocks.FilesAreTakenInOrder | EXAMS/30.01.2023/server.c:104-137 | in every interleaving a checksum takes the first entry of its first file and then of its second, a generate that of its file, and works exactly when it has all |
| FileLocks.SameFileNeverFinishes | EXAMS/30.01.2023/server.c:136-137 | a checksum of a file with itself never gets its second lock |
| FileLocks.Program.Step | EXAMS/30.01.2023/server.c:51-173 | the locked section carried out on the arrays of names and flags is the step of the transition system |
| FileLocks.Program.Run | EXAMS/30.01.2023/server.c:51-173 | on arrays that hold the names of every interleaving, each one stays inside them and ends in the state the transition system says |
| ListCapacity.SecondAppended | EXAMS/30.01.2023/server.c:66-79 | a checksum appends its second name only if that is the name at index 0 or comes later in the list than its first |
| ListCapacity.NamesBounded | EXAMS/30.01.2023/server.c:66-79 | every list is bounded by the operations plus the checksums that add both names, for its first entry and its order |
| ListCapacity.ListThatMany | EXAMS/30.01.2023/server.c:66-79 | for every first name and every order some interleaving lists that many entries |
| ListCapacity.ListFitsIff | EXAMS/30.01.2023/server.c:51-79 | the list has room in every interleaving if and only if its capacity is at least that number for every first name and every order |
| ListCapacity.OrderedListFitsIff | EXAMS/30.01.2023/server.c:51-79 | if the files can be ordered so that each checksum names its lower file first, the list has room if and only if there is an entry for every name added, repeated or not |
| ListCapacity.CopiesFitIff | EXAMS/30.01.2023/server.c:265-269 | n copies of one checksum line need exactly 2n entries, where the program checks n |
| LockOrder.RunsAreFinite | EXAMS/30.01.2023/server.c:193-204 | a bound on the length of every run, not counting failed passes of the waiting loop |
| LockOrder.Chase | EXAMS/30.01.2023/server.c:80-96 | if files are ordered, following who holds what a blocked operation wants leads to one that can move |
| LockOrder.OrderOrKnot | EXAMS/30.01.2023/server.c:136-137 | the checksum lines can be ordered or contain a circle of lines with distinct first files |
| LockOrder.KnotNeverFinishes | EXAMS/30.01.2023/server.c:136-137 | given a circle some interleaving reaches a state from which the operations can never all finish |
| LockOrder.AllCanFinishIff | EXAMS/30.01.2023/server.c:80-173 | from every reachable state all operations can still finish if and only if the files can be ordered so that each checksum names its lower file first |
| Checksum.SumFile | EXAMS/30.01.2023/server.c:146-153 | the two loops compute the digest of the reads |
| Checksum.SumOne | EXAMS/30.01.2023/server.c:150 | a byte counts for itself |
| Checksum.DigestOneMore | EXAMS/30.01.2023/server.c:146-153 | a read more adds its sum and takes away a multiple of 1000 that leaves less than 1000 of the same sign |
| Checksum.DigestCongruent | EXAMS/30.01.2023/server.c:146-162 | for every division into reads the digest is congruent to the byte sum modulo 1000 and below 1000 in magnitude |
| Checksum.OneSignDigest | EXAMS/30.01.2023/server.c:146-162 | for bytes of one sign the digest is the byte sum reduced once |
| Checksum.PlainDigest | EXAMS/30.01.2023/server.c:146-162 | for non-negative bytes the digest is the byte sum modulo 1000 |
| Checksum.NegativeDigest | EXAMS/30.01.2023/server.c:146-162 | for bytes at most 0 the digest is minus the remainder of the opposite sum |
| Checksum.MixedSignsMatter | EXAMS/30.01.2023/server.c:150-152 | for any positive and negative byte value there is a file with two divisions whose digests differ in sign |
| Checksum.DigestIndependentIff | EXAMS/30.01.2023/server.c:146-162 | the division into reads never matters if and only if the byte values allowed do not have both signs |
| Jobs.Counters.NewId | EXAMS/PART2_lab14/server.c:145-147 | returns the seed and increments it |
| Jobs.Counters.Admit | EXAMS/PART2_lab14/server.c:149-161 | admits and counts exactly below the limit |
| Jobs.Counters.Uncount | EXAMS/PART2_lab14/server.c:339-341 | decrements the counter |
| Jobs.StepKeepsAccounts | EXAMS/PART2_lab14/server.c:107-341 | every step, a failed fork and a stuck `jobs_mutex` included, keeps the accounts of counted jobs, children and posts |
| Jobs.RunningIsBounded | EXAMS/PART2_lab14/server.c:145-168 | in every interleaving unreaped children are at most the counter, which stays between 0 and the limit; ids are distinct |
| Jobs.HandlerPath | EXAMS/PART2_lab14/server.c:107-168 | in every interleaving every request takes its id once and its test once; it ends there for good if the limit is reached, and otherwise forks once and registers and posts its child once unless the fork fails |
| Jobs.RejectedForGood | EXAMS/PART2_lab14/server.c:150-156 | a request that comes to its test while the limit is reached is done in every later state and takes no further step |
| Jobs.ClassesAreFixed | EXAMS/PART2_lab14/server.c:149-161 | the requests past their test are admitted or rejected once and for all, and only admitted ones fork |
| Jobs.IdsInOrder | EXAMS/PART2_lab14/server.c:145-147 | the k-th request to take an id gets the k-th number from the initial seed, nobody else has one, and the seed is the next |
| Jobs.ReaperAlwaysFindsAChild | EXAMS/PART2_lab14/server.c:318-319 | the reaper never calls wait without a child |
| Jobs.CounterReturnsIff | EXAMS/PART2_lab14/server.c:107-119 | at rest the counter equals the failed forks, so it is 0 if and only if none failed |
| Jobs.FreeSlot | EXAMS/PART2_lab14/server.c:311-341 | whenever a slot can become free there is a run that frees one |
| Jobs.AdmitsAgainIff | EXAMS/PART2_lab14/server.c:107-341 | another request can be admitted if and only if a slot is or can become free: while `jobs_mutex` is usable, if fewer forks have failed than there are slots; once it is stuck, if the reaper is about to decrement or is due a child that is not in the table |
| Jobs.LastAdmissions | EXAMS/PART2_lab14/server.c:171-188 | after a `get_status` for an id without a process at most as many requests are admitted as there are slots, in every interleaving |
| Jobs.Server.StepHandler | EXAMS/PART2_lab14/server.c:107-161 | the section carried out on the counters is the handler's step of the transition system |
| Jobs.Server.StepReaper | EXAMS/PART2_lab14/server.c:318-341 | the same for the reaper |
| Jobs.Server.Run | EXAMS/PART2_lab14/server.c:107-341 | every interleaving carried out on the counters ends in the state the transition system says |
| Jobs.Serve | EXAMS/PART2_lab14/server.c:107-341 | the server run from its start keeps its counter within the limit and above the number of unreaped children, and waits only with a child |
| Blocked.StepKeepsLocks | Lab7_threads/lin_Exercises/5-blocked/blocked.c:58-135 | every step keeps: a mutex is held by the thread between locking and unlocking it, and no thread holds two |
| Blocked.StepKeepsOwnSearch | Lab7_threads/lin_Exercises/5-blocked/blocked.c:58-135 | every step keeps what the thread knows about the part of its range it has searched |
| Blocked.StepKeepsOtherSearch | Lab7_threads/lin_Exercises/5-blocked/blocked.c:58-135 | no step disturbs what the other thread knows |
| Blocked.SearchIsComplete | Lab7_threads/lin_Exercises/5-blocked/blocked.c:58-155 | at the end some thread has found something if and only if there is a hit, and what it reports is the least hit of its own range |
| Blocked.NoDeadlock | Lab7_threads/lin_Exercises/5-blocked/blocked.c:58-135 | every reachable state with an unfinished thread has a step |
| Blocked.RunsAreFinite | Lab7_threads/lin_Exercises/5-blocked/blocked.c:58-135 | a bound on the length of every run |
| Blocked.CanMissIff | Lab7_threads/lin_Exercises/5-blocked/blocked.c:58-135 | a thread can end without reporting if and only if its range has no hit, or the other range has one and its own first number is not a hit |
| Blocked.Program.Step | Lab7_threads/lin_Exercises/5-blocked/blocked.c:58-135 | the statement carried out on the shared records in place is the step of the transition system |
| Blocked.Program.Run | Lab7_threads/lin_Exercises/5-blocked/blocked.c:58-135 | every interleaving carried out on the two records ends in the state the transition system says |
| Blocked.Search | Lab7_threads/lin_Exercises/5-blocked/blocked.c:137-158 | main, after any interleaving of the threads up to their ends, reports a hit if and only if there is one, the least of its range, and the first thread's if both have one |
| Blocked.ComputeFactorial | Lab7_threads/lin_Exercises/5-blocked/blocked.c:39-47 | the loop computes the product of 0 to n - 1, which stays 0 or 1 |
| Blocked.NoneIsSuper | Lab7_threads/lin_Exercises/5-blocked/blocked.c:53-56 | no number passes the test |
| Blocked.SearchAsWritten | Lab7_threads/lin_Exercises/5-blocked/blocked.c:22-34 | with its own ranges and test the program always reports that nothing was found |

## Left out

- Sockets, pipes, message queues, memory mapping, `fork`, `exec`, terminal output and timers: only their effect on the shared state appears.
- Signals and their handlers, in every program.
- SoRun: slices whose loop never stops, for which `so_runnnn` does not return either.
- `planner.c`: the raw interleaving of its condition variables and handlers that call `so_fork`; a hand-off is one step. The `state` strings of the records and a failing `pthread_create` are not modelled.
- `parallel_fgrep.c` and `serial_fgrep.c`: files of 4 GiB and more, where the `unsigned int` index wraps around; an empty pattern, on which the scan never advances; a pattern longer than the file by two bytes or more, where `count` reads outside it. `Fgrep.SplitIsSafeIff` says which files the parallel program can scan.
- ThreeExtraMatches: patterns of 512 MiB and more, for which the file built would exceed 4 GiB.
- CommandList: the array has one spare row, so that the shift can be kept as written; `CommandQueue.ShiftStaysInsideIff` says when the program needs it.
- `01_02_2023/server.c`: `total_comands`, the children that generate the commands, and reads from the pipe that return less than a command.
- `30.01.2023/server.c`: the semaphore of the progress messages, `current_tasks`, the contents written by `generate`, failing opens, and lines that are neither `generate` nor `checksum`.
- `PART2_lab14/server.c`: the contents of the table of jobs, its size of 1000 entries, `kill_job`, the query commands other than `get_status` for an id without a process (they release `jobs_mutex`), and the shutdown flag of the reaper.
- `nasty.c`: concurrent calls; the driver has no lock.
- The block caches of `30.01.2024` and `cache_exam_30_01_2024`, the store of `examen_29_09_2024_STORE`, the thread pool, the timer server and `restanta_30_06_2023` with their bounded queues, and the exercises of the other laboratories.
