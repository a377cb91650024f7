# Named reader-writer lock, modelled in Dafny

The program (`rwlock.cpp`) is a cross-process reader-writer lock that
unrelated processes share by name. A named binary semaphore is the mutex. A
named shared-memory segment holds the record `shmbuf { readers_, writers_ }`,
two `size_t` counters. Each command-line run opens the lock by name, runs one
operation (`rlock`, `runlock`, `wlock`, `wunlock`, `stat`) and exits.

Every operation does its read-modify-write of the counters while it holds the
mutex. The model therefore treats each critical section as one atomic
transition on the record:

- `protocol.dfy` (module `Protocol`) has the record as a value `Counters`. It
  defines the transitions as pure functions and the lock invariant `Valid`
  (at most one writer, and no writer beside a reader). It also states the
  properties as lemmas: the invariant is preserved, the round trips hold,
  readers and writers exclude each other, and polling gets the lock on the
  first pass whose guard holds. `size_t` is modelled as `0 <= x < 2^64`, and
  `++` and `+` wrap explicitly. `sizeof(struct shmbuf)` is 16, as on a
  64-bit host.
- `rwlock.dfy` (module `RWLock`) has the objects. `Segment` is the shared
  segment: its size and its two counters. `NamedRWLock` is one process's
  handle on it, and several handles on one segment stand for several
  processes using the same name. The methods update the counters in place
  and are proved against the functions of `Protocol`.
- `command.dfy` (module `Command`) models `main`. It checks the argument
  count, opens the lock, picks the operation by name and returns the
  operation's result. `Exit.code` is `main`'s return value. The parent
  process sees only its low 8 bits (`ShellStatus`), so a return of -1 is
  seen as 255.

The acquisition loops in `RLock` and `WLock` retry forever. Here the caller
passes a schedule `gaps`: `gaps[j]` is the list of critical sections other
processes complete while this process sleeps after its `j`-th failed pass.
If the schedule runs out before the lock is obtained, the call returns
`StillWaiting`, and this stands for the process still polling. `Acquired(n)`
stands for the source's return value 0, obtained on retry `n`. The
constructor also releases the mutex (rwlock.cpp:116) before the operation
takes it again. So `Command.Run` takes a second schedule, `before`: the
critical sections other processes complete in that window.

`main` constructs `NamedRWLock` (rwlock.cpp:178) before it compares the
operation name (rwlock.cpp:179). So an unknown name still opens the segment,
and it may resize and zero it. `Command.Run` and `Command.Plan.UnknownOperation`
model this.

## Model

| member | source | states |
|---|---|---|
| `RWLock.Segment.constructor` | rwlock.cpp:91-99 | a segment as the OS holds it: its size as `fstat` reports it and the counters mapped over it |
| `RWLock.NamedRWLock.constructor` | rwlock.cpp:85-116 | after opening, the segment has exactly the record's size; it is zeroed when its size was wrong, and otherwise its counters are kept |
| `RWLock.NamedRWLock.RLock` | rwlock.cpp:120-131 | the retry loop gives exactly the poll `PollLock(Reader, …)` of the starting record; when it gets the lock, no writer is present |
| `RWLock.NamedRWLock.RUnlock` | rwlock.cpp:132-138 | returns -1 iff a writer is present or no reader is, and then changes nothing; otherwise removes one reader, keeps the writers and returns 0 |
| `RWLock.NamedRWLock.WLock` | rwlock.cpp:140-151 | the retry loop gives exactly `PollLock(Writer, …)`; from a valid record, getting the lock leaves it at (0, 1) |
| `RWLock.NamedRWLock.WUnlock` | rwlock.cpp:152-158 | returns -1 iff some reader is present or the writer count is not 1, and then changes nothing; otherwise leaves (0, 0) and returns 0 |
| `RWLock.NamedRWLock.Stat` | rwlock.cpp:159-163 | returns 0 and both counters as they are; it modifies nothing |
| `RWLock.LockTestScenario` | rwlock.cpp:120-163 | two processes on a fresh name: wlock gets the lock at once; an rlock polls and gets it on its third pass, after the wunlock; stat reports (1, 0); then runlock returns 0, a second runlock and a wunlock return -1, and the record ends at (0, 0) |
| `Protocol.IncWraps` | rwlock.cpp:128 | `size_t` `++` is addition modulo 2^64 |
| `Protocol.AddWraps` | rwlock.cpp:143 | `size_t` `+` is addition modulo 2^64 |
| `Protocol.ReadAttempt` | rwlock.cpp:122-128 | a pass of RLock gets the lock iff no writer is present, and then adds one reader (`Inc`, modulo 2^64) and keeps the writers; a failed pass changes nothing; the invariant is kept |
| `Protocol.WriteAttempt` | rwlock.cpp:142-148 | a pass of WLock gets the lock iff the counters sum (`Add`, modulo 2^64) to 0, and then adds one writer (`Inc`, modulo 2^64) and keeps the readers; a failed pass changes nothing; under the invariant it gets the lock iff the record is (0, 0) and then leaves (0, 1); the invariant is kept |
| `Protocol.ReadRelease` | rwlock.cpp:134-137 | returns -1 iff a writer is present or no reader is, and then changes nothing; otherwise returns 0 with one reader fewer and the writers kept; the invariant is kept |
| `Protocol.WriteRelease` | rwlock.cpp:154-157 | returns -1 iff some reader is present or the writer count is not 1, and then changes nothing; otherwise returns 0 and leaves (0, 0); the invariant is kept |
| `Protocol.Initialised` | rwlock.cpp:99-115 | the record after opening: (0, 0) when the segment's size differs from `sizeof(struct shmbuf)`, the counters as they were otherwise; a valid record stays valid |
| `Protocol.Step` | rwlock.cpp:120-163 | any process's critical section (a lock pass, a release, a stat) keeps the invariant, and a stat changes nothing |
| `Protocol.RunAll` | rwlock.cpp:120-163 | every interleaving of critical sections by any processes keeps the invariant |
| `Protocol.PollLock` | rwlock.cpp:121-127 | the RLock/WLock retry loop (also rwlock.cpp:141-147) gets the lock within the passes the schedule allows, and it keeps the invariant |
| `Protocol.Observed` | rwlock.cpp:121-127 | the record seen at each pass of a poll (also rwlock.cpp:141-147) is valid when the first one is |
| `Protocol.UnlockRefusesWithoutChange` | rwlock.cpp:132-158 | a release returns 0 or -1, and it returns -1 exactly when the record is left unchanged |
| `Protocol.WriteGuardWrapsOutsideInvariant` | rwlock.cpp:143 | outside the invariant the `size_t` sum wraps: a writer is admitted at (2^64-1, 1) and leaves (2^64-1, 2) |
| `Protocol.ReadRoundTrip` | rwlock.cpp:122-136 | with no writer and fewer than 2^64-1 readers, an RLock pass succeeds and the RUnlock after it returns 0 and restores the record |
| `Protocol.ReadRoundTripWraps` | rwlock.cpp:128-134 | at 2^64-1 readers, one more reader wraps the count to 0, and the RUnlock after it is refused |
| `Protocol.WriteRoundTrip` | rwlock.cpp:142-157 | from a valid record, a successful WLock pass followed by WUnlock returns 0 and restores (0, 0) |
| `Protocol.InitialisedOnce` | rwlock.cpp:99-115 | opening an initialised segment again keeps its record, so of two processes racing to open a fresh segment only the first zeroes it |
| `Protocol.ReachableValid` | rwlock.cpp:99-163 | every record reached from a freshly initialised segment is valid |
| `Protocol.ReadersAccumulate` | rwlock.cpp:122-130 | n RLock passes starting with m readers and no writer all succeed and leave m + n readers |
| `Protocol.ConcurrentReaders` | rwlock.cpp:122-130 | N readers starting from (0, 0) all get the lock and leave (N, 0) |
| `Protocol.WriterExcludesAll` | rwlock.cpp:120-158 | while the writer holds the lock and nobody runs WUnlock, every other critical section fails and the record stays (0, 1) |
| `Protocol.ReadersExcludeWriter` | rwlock.cpp:120-158 | while readers hold the lock and no reader releases, no writer gets in and the reader count does not drop, provided the count cannot wrap |
| `Protocol.PollAcquiredFirst` | rwlock.cpp:121-128 | a poll that gets the lock on retry n gets it on the first pass whose guard holds, and the record afterwards is that pass's result |
| `Protocol.PollWaitingSawNoChance` | rwlock.cpp:121-127 | a poll still waiting saw its guard fail on every pass and leaves the record the other processes produced |
| `Protocol.PollAcquiredIff` | rwlock.cpp:121-127 | a poll gets the lock iff some pass observes its guard holding |
| `Protocol.PollWriterAlone` | rwlock.cpp:141-150 | a writer poll that gets the lock from a valid record leaves (0, 1), so the writer is alone |
| `Protocol.WriterBlocksPolls` | rwlock.cpp:121-147 | while a writer holds the lock and no scheduled step runs WUnlock, a polling RLock or WLock keeps waiting and the record does not change |
| `Command.ParseOperation` | rwlock.cpp:179-189 | picks the operation whose name matches the argument, and picks none only when no operation has that name |
| `Command.ParseName` | rwlock.cpp:179-189 | each operation is picked by its own name |
| `Command.Dispatch` | rwlock.cpp:173-192 | a usage error iff the argument count is not 3; an unknown operation iff no operation has that name; otherwise the operation with that name |
| `Command.Perform` | rwlock.cpp:179-188 | runs one operation: a lock returns 0 exactly when its poll gets the lock, is otherwise still waiting, and leaves the record its poll leaves; `runlock` returns -1, changing nothing, exactly when a writer is present or no reader is (rwlock.cpp:134), and `wunlock` exactly when a reader is present or the writer count is not 1 (rwlock.cpp:154); otherwise a release returns 0 and leaves what `ReadRelease`/`WriteRelease` give; stat returns 0 and changes nothing; every operation keeps the invariant |
| `Command.ShellStatus` | rwlock.cpp:175-193 | the status the parent sees is `main`'s return value modulo 256, in 0..255 |
| `Command.ShellStatuses` | rwlock.cpp:175-193 | the returns 0, 1 and -1 are seen as 0, 1 and 255 |
| `Command.FirstOpenerSeesOthers` | rwlock.cpp:116-137 | a first opener's runlock is refused on the record it zeroed, but succeeds when another process's rlock runs between its opening and its release |
| `Command.Run` | rwlock.cpp:172-194 | a wrong argument count returns 1 before opening the segment; otherwise it opens (and maybe initialises) the segment, then returns -1 for an unknown name, or runs exactly the named operation, on the opened record after the other processes' critical sections `before`, and returns its result |

## Left out

- The named semaphore (`sem_open`, `sem_wait`, `sem_post`, `sem_close`, `sem_unlink`) is not modelled. The model only gives its effect: each critical section is one atomic step.
- The shared-memory calls (`shm_open`, `fstat`, `ftruncate`, `mmap`, `close`) are not modelled. Resolving a name to its segment is the `seg` parameter of `Command.Run`, and `fstat` is the segment's `size` field.
- The model has no failures of the operating system's IPC calls, which abort the process. The semaphore calls `perror` and then throw `runtime_error` (rwlock.cpp:35-36, 50-51, 57-58). The shared-memory calls only throw (rwlock.cpp:93, 97, 102, 109).
- The `usleep(1000000)` between passes is left out; it is timing only.
- Unbounded polling is cut short at the end of the caller's schedule (`StillWaiting`). The model says nothing about fairness or about a writer starving behind readers.
- Real interleaving inside one critical section is not modelled. The mutex rules it out, so the other processes appear only as whole critical sections: between opening the lock and the operation's first critical section (`before` of `Command.Run`), and between the passes of a polling lock (`gaps`).
- Printing is left out: the usage message, `Stat`'s output line and `perror`. `Stat` returns the two counters instead of printing them.
- The destructors and the unlink-at-destruction option are left out. They do not affect the counters.
- The layout of the record is fixed at two 8-byte words, 16 bytes, as on a 64-bit host. Other word sizes are not modelled.
