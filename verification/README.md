# Shared state, protocols and drivers, verified

Dafny models of the parts of this repository that work by changing shared state step by step: the System V
semaphore wrapper, the hash-chained database store, the call server, a kernel work list, an LCD driver, and
three small stream protocols. `dafny verify dfyconfig.toml` checks the project.

How the sources appear in the models:

- A protocol between processes (semaphores, work list, ping-pong) is a state machine. An event names a process,
  `Do` is its next atomic step (`None`: blocked, or not at that place), and theorems quantify over every
  sequence of events. Beside it a class holds the shared fields, and its methods make the steps in place: each
  keeps the invariant, is the protocol's step, and says what a refused call waits for. `Play` and `RunBoth`
  run whole interleavings through these methods.
- A program that owns its state (database, call server, driver, `expect_str`, `recv_fd`) is a class or a method
  with loops. Its contract ties the new state to the old one through functions and predicates about which the
  lemmas speak.
- Frame interrupts come between any two steps of `setcolreg` (`Driver.Frames`). SIGCHLDs come wherever
  `Server.Interrupt` is called: between the statements of `loop`, `child_done`, `cli_done` and `request`, and
  between fork, lock_set and TELL_CHILD. The functions of lock.c, client.c, sysfile.c and devfile.c, the saving of
  a request's options and `childdone = 0` are single steps in this respect.
- What a program did about its clients is a log of acts (`Act`), each from one state of a client and of the lock
  table to another; `Chained` says that the acts, and exits recorded meanwhile, lead from one state to another.
- A fatal error is an outcome of its own: `Dead`, `Halted`, `quit`, `FormatError`.

| file | models |
|---|---|
| Common.dfy | an option type and a search function for the other files |
| Semaphores.dfy | sem_create, sem_open, sem_close, sem_op over semop, semctl and undo at exit |
| HashStore.dfy | the index and data files (`HashFiles`), and db_store with its helpers (`HashStore`) |
| CallTables.dfy | device locks, client table, the search of the Systems file |
| CallServer.dfy | the event loop, the SIGCHLD handler, retries |
| WorkQueue.dfy | submit_work and the worker thread |
| Palette.dfy | palette shadow buffer and frame interrupt |
| ScanOut.dfy | frame buffer sizing and scan-out addresses |
| ExpectString.dfy | expect_str |
| Framing.dfy | send_err, send_fd, writen, recv_fd |
| PingPong.dfy | two processes alternating on a shared counter |

Where the code does less than one may expect, and what is proved about it:

- A `sem_open` that gets in between a last `sem_close` and its removal has the set taken away (`OpenRace`).
  No process ever has a set open that a close has decided to remove, exactly when every open attaches outside a
  final close (`NeverDoomedIff`), as it does while somebody keeps the set open (`HeldIsGuarded`, `RemovalIsSafe`).
- With BIGCOUNT handles out the counter is 0, which the next `sem_create` takes for a new set: it overwrites the
  value in use (`CounterExhausted`). In runs of callers that close and operate only on what they have open, this
  happens exactly when a creation reads the counter with BIGCOUNT handles out (`RetakenIff`, `NeverRetakenIff`).
- Replacing a record by data of another length deletes first. A fatal size error after that loses the key, and
  only that key; `Db.Store` says exactly when, and `LosesKey` gets there.
- The sizing loop computes xres * yres * bpp in 32 bits. In a buffer sized by it, scan-out of a mode with whole
  bytes a line stays inside the allocation if and only if the product does not wrap (`ScanOutFits`, `SetMode`);
  `OversizedOverruns` puts a table that wraps through sizing and mode setting.
- `expect_str` never moves its window back to the start of its buffer: it finds the leftmost occurrence unless
  the bytes since the first matching character outgrow MAXLINE (`Expected`, `OverrunReached`).
- An error code comes back unchanged exactly from -255 to -1; below that only its magnitude modulo 256 comes
  back, with 0 turned into 1 (`ErrorCode`, `SendErrRoundTrip`).
- A comment in request.c says that `sysftell` is -1 whenever `request` fails. That is so if and only if no
  matching entry without a device stops the search; otherwise it is the position after that entry
  (`SearchGivesUp`, `FailsPastEntry`). The model follows the code.

## Model

| member | source | states |
|---|---|---|
| Semaphores.CounterConservation | unix_source/lib.sun/semaph.c:90-164 | in every interleaving, exits with undo included, counter plus outstanding creates and opens is BIGCOUNT, and the semaphore value plus all undo values is the initial value plus what undo could not take below 0 |
| Semaphores.NeverDumped | unix_source/lib.sun/semaph.c:233-248 | no process ever sees sem[1] above BIGCOUNT |
| Semaphores.LockIsMutex | unix_source/lib.sun/semaph.c:50-76 | sem[2] is 0 or 1, is 1 exactly while some process is in the create or close section, and there is at most one such process, crashes included |
| Semaphores.InitialisesOnlyUnopened | unix_source/lib.sun/semaph.c:136-154 | both SETVALs happen only in a set that nobody has ever opened |
| Semaphores.CreateNeverResets | unix_source/lib.sun/semaph.c:131-163 | after initialisation no run of creates, opens and closes changes the semaphore value while the set lives |
| Semaphores.ReadsZeroIff | unix_source/lib.sun/semaph.c:136-139 | under the lock, the counter reads 0 if and only if the set was never initialised or BIGCOUNT handles are out |
| Semaphores.StepInv | unix_source/lib.sun/semaph.c:90-292 | every system call of every process keeps the invariant that relates counter, lock, undo tables and places |
| Semaphores.RetakenIff | unix_source/lib.sun/semaph.c:136-154 | a step of a careful caller leads an initialised set to initialisation if and only if it reads the counter with BIGCOUNT handles out |
| Semaphores.NeverRetakenIff | unix_source/lib.sun/semaph.c:90-292 | the same for whole runs |
| Semaphores.WaitsOnlyFor | unix_source/lib.sun/semaph.c:50-82 | create and close wait only while another process holds the lock, open only for a free handle or for initialisation, an operation only while the value would be negative |
| Semaphores.InsideNeverWaits | unix_source/lib.sun/semaph.c:136-161 | inside the lock nothing waits, except the end of a creation for a free handle |
| Semaphores.InitialValue | unix_source/lib.sun/semaph.c:106-154 | in every run an initialised set started with the initial value of the sem_create that initialised it |
| Semaphores.CarriesInitval | unix_source/lib.sun/semaph.c:106-129 | through every "goto again" a sem_create keeps its own initial value |
| Semaphores.CreateRetries | unix_source/lib.sun/semaph.c:125-129 | a creation whose set was removed gets the current or a new set and goes on |
| Semaphores.DiesIff | unix_source/lib.sun/semaph.c:90-292 | a permitted run meets a fatal error exactly for a negative initial value, an open of a removed set, and an operation with amount 0 |
| Semaphores.ExitUndoesOps | unix_source/lib.sun/semaph.c:78-82 | after any operations, the exit of a process gives the value back as it was, and its handles |
| Semaphores.LastCloseIff | unix_source/lib.sun/semaph.c:239-253 | under the lock, a close goes on to remove the set if and only if no handle is left, and to unlock if and only if some are |
| Semaphores.CloseWhole | unix_source/lib.sun/semaph.c:223-254 | a sem_close that nobody interrupts removes the set for the last holder; for any other it leaves set, value and lock as they were and counts one handle back |
| Semaphores.DoomedIff | unix_source/lib.sun/semaph.c:175-254 | a step leaves a process holding a set about to be removed if and only if it is an open during a final close |
| Semaphores.NeverDoomedIff | unix_source/lib.sun/semaph.c:175-254 | the same for whole runs |
| Semaphores.RemovesOnlyUnused | unix_source/lib.sun/semaph.c:223-254 | in a run with guarded opens, sem_close removes the set only when no process has it open |
| Semaphores.OpenWhileHeldIsGuarded | unix_source/lib.sun/semaph.c:175-198 | one open made while some process keeps the set open is guarded |
| Semaphores.HeldIsGuarded | unix_source/lib.sun/semaph.c:168-198 | so are all opens of a run that happen while the set is held |
| Semaphores.RemovalIsSafe | unix_source/lib.sun/semaph.c:223-254 | from the start, in every such run, sem_close removes only a set that nobody has open |
| Semaphores.OpenRace | unix_source/lib.sun/semaph.c:175-254 | a complete run in which a close removes a set that another process has just opened |
| Semaphores.CounterExhausted | unix_source/lib.sun/semaph.c:136-154 | a complete run in which sem_create initialises a set in use, and the books no longer balance |
| Semaphores.LockEffect | unix_source/lib.sun/semaph.c:50-55 | op_lock waits for the lock to be free and takes it, with undo |
| Semaphores.EndCreateEffect | unix_source/lib.sun/semaph.c:57-62 | op_endcreate counts the process in and unlocks, both or neither |
| Semaphores.CloseEffect | unix_source/lib.sun/semaph.c:68-72 | op_close takes the free lock and counts the process out, all or nothing |
| Semaphores.OpEffect | unix_source/lib.sun/semaph.c:78-82 | op_op changes the value by the amount unless that would be negative |
| Semaphores.SharedSet.CallSemop | unix_source/lib.sun/semaph.c:50-82 | the kernel's loop over an operation array: the whole array or no change |
| Semaphores.SharedSet.ExitProcess | unix_source/lib.sun/semaph.c:15-24 | a process that exits has its undo values added back, stopping at 0 |
| Semaphores.SharedSet.SemCreate | unix_source/lib.sun/semaph.c:90-164 | the next system call of sem_create keeps the invariant; a finished creation is one handle more; it waits only for another process inside the lock or, at its end, for a free handle |
| Semaphores.SharedSet.SemOpen | unix_source/lib.sun/semaph.c:175-198 | keeps the invariant; a finished open is one handle more; it waits only for a free handle or for initialisation |
| Semaphores.SharedSet.SemClose | unix_source/lib.sun/semaph.c:223-254 | keeps the invariant; gives up one handle; waits only at its first call, for another process inside the lock; removes the set exactly if no handle is left, otherwise unlocks it; never dumps |
| Semaphores.SharedSet.SemOp | unix_source/lib.sun/semaph.c:284-292 | adds the amount to the value and keeps it non-negative, waits exactly while it cannot, and is fatal for amount 0 |
| Semaphores.SharedSet.Play | unix_source/lib.sun/semaph.c:90-292 | any interleaving of these calls in place is a run of the protocol, at whose end the books balance |
| HashStore.Db.Store | unix_source/db.lock.fine/store.c:7-92 | db_store refines updating a map: exact conditions for 0, 1, -1 and fatal errors, new data for this key, all other keys unchanged, chains and free list intact, the sizes that can be reused, the ends of both files, statistics |
| HashStore.Db.StoreNew | unix_source/db.lock.fine/store.c:25-55 | a key that is not there: reuses a deleted record when one fits, otherwise appends |
| HashStore.Db.StoreOver | unix_source/db.lock.fine/store.c:57-86 | a key that is there: overwrites in place when the length agrees, otherwise deletes and appends |
| HashStore.Db.Append | unix_source/db.lock.fine/store.c:40-44 | succeeds exactly within the size limits; otherwise changes the map for no key |
| HashStore.Db.Reuse | unix_source/db.lock.fine/store.c:47-53 | fills the record that left the free list and publishes it |
| HashStore.Db.DoDelete | unix_source/db.lock.fine/store.c:68-72 | removes the located key and no other; the record, blanked, joins the front of the free list with its sizes; unlinking first is this model's order |
| HashStore.Db.Find | unix_source/db.lock.fine/store.c:18-25 | finds a key if and only if the map has it, with the place of its record, its extent and the pointer to it |
| HashStore.Db.FindFree | unix_source/db.lock.fine/store.c:32-49 | takes a record off the free list if and only if one of the right sizes is there, and exactly that one |
| HashStore.LosesKey | unix_source/db.lock.fine/store.c:67-79 | for every configuration, a stored key lost by a replacement whose longer length no longer fits the index record |
| HashStore.Db.WriteDat | unix_source/db.lock.fine/writedat.c:7-34 | appends or overwrites data and newline; sets datoff and datlen |
| HashStore.Db.WriteIdx | unix_source/db.lock.fine/writeidx.c:9-48 | accepts exactly valid pointers and lengths; writes the record, which damages any record it covers; an append lengthens the file by the bytes written |
| HashFiles.TextLenIs | unix_source/db.lock.fine/writeidx.c:20-24 | the length used for a record is that of "key SEP datoff SEP datlen newline" in decimal |
| HashFiles.DecimalIs | unix_source/db.lock.fine/writeidx.c:20-21 | decimal digits stand for their number, and Digits counts them |
| HashFiles.DigitsIff | unix_source/db.lock.fine/writeidx.c:20-22 | d digits reach from 10^(d-1) up to 10^d |
| HashStore.Db.WritePtr | unix_source/db.lock.fine/writeptr.c:6-19 | accepts exactly valid pointers; changes one pointer field |
| HashFiles.PublicationSafety | unix_source/db.lock.fine/store.c:34-44 | after each of the three writes of an append all lists are intact and all stored keys keep their data; the last one adds the key |
| HashFiles.PointerFirstBreaks | unix_source/db.lock.fine/store.c:40-44 | with the pointer written before the index record no reading of the chains exists |
| HashFiles.Publish | unix_source/db.lock.fine/writeptr.c:6-19 | storing a chain pointer adds exactly one key in front of its chain |
| HashFiles.ReuseSteps | unix_source/db.lock.fine/store.c:47-53 | the same safety after each write of the reuse path |
| HashFiles.BlankSteps | unix_source/db.lock.fine/store.c:68-72 | with the writes of a deletion in the order data, index record, free-list pointer, which is this model's since _db_dodelete is not shown, nothing is lost after any of them |
| HashFiles.UnlinkChain | unix_source/db.lock.fine/store.c:64-72 | one pointer write takes a record off its chain: its key is gone, the others stay |
| HashFiles.UnlinkFree | unix_source/db.lock.fine/store.c:47-49 | one pointer write takes a record off the free list and changes no key |
| HashFiles.AppendIndex | unix_source/db.lock.fine/writeidx.c:29-43 | an appended index record damages none and stays unlisted |
| HashFiles.RewriteIndex | unix_source/db.lock.fine/writeidx.c:34-43 | a rewritten record of the same key and data lengths has the same size and damages none |
| HashFiles.OverwriteData | unix_source/db.lock.fine/writedat.c:19-29 | overwriting an extent with as many bytes changes the data of no other record |
| HashFiles.OverwriteListed | unix_source/db.lock.fine/store.c:81-85 | same-size replacement changes this key only |
| CallTables.LockedHolder | unix_source/calld/lock.c:50-58 | lock_set changes the holder of that line only and keeps lines and pids distinct |
| CallTables.ReleasedHolder | unix_source/calld/lock.c:60-73 | lock_rel frees exactly the line held by the process |
| CallTables.WithLineHolder | unix_source/calld/lock.c:18-48 | looking up a new line adds an entry and changes no holder |
| CallTables.SearchDialsFirst | unix_source/calld/request.c:10-48 | a request dials line k if and only if k is the first matching entry with an unlocked device and no malformed line or missing device comes before it |
| CallTables.SearchGivesUp | unix_source/calld/request.c:10-55 | a failing search leaves the position after line k if and only if k is the first to stop it and matches without having a device; otherwise it leaves -1 |
| CallTables.FailsPastEntry | unix_source/calld/request.c:22-24 | a Systems and a Devices file for which it leaves 1 |
| CallTables.SearchQuits | unix_source/calld/sysfile.c:19-47 | a search ends the program if and only if it meets a malformed line before anything else ends it |
| CallTables.SearchReports | unix_source/calld/request.c:22-54 | the count of entries found and the message: the holder of the last match's device, or the missing device |
| CallTables.FindDevFirst | unix_source/calld/devfile.c:57-69 | dev_find gives the line of the first device whose type and class both agree, and fails if and only if there is none |
| CallTables.SearchSkips | unix_source/calld/sysfile.c:19-47 | searching line by line is searching from entry to entry |
| CallTables.RetriesBounded | unix_source/calld/request.c:10-56 | the entries dialled for a request are distinct and no more than the matching ones |
| CallServer.DeviceExclusive | unix_source/calld/lock.c:18-79 | a locked line belongs to exactly one connected client, and a client holds at most one line |
| CallServer.ForkCross | unix_source/calld/request.c:35-37 | fork gives an idle client a fresh pid and keeps all relations between clients, locks and children |
| CallServer.DialCross | unix_source/calld/request.c:42-43 | so does lock_set for the waiting child, which then alone holds the line |
| CallServer.TellCross | unix_source/calld/request.c:44-45 | and so does letting the child run once its device is locked |
| CallServer.MarkedOk | unix_source/calld/sigchld.c:14-22 | recording an exit changes only the slot of that child and keeps the relations |
| CallServer.AddBooks | unix_source/calld/loop.c:50-57 | a new client keeps allset, maxfd and maxi exact |
| CallServer.DropBooks | unix_source/calld/loop.c:170-176 | so does giving one up |
| CallServer.Server.FindLine | unix_source/calld/lock.c:18-48 | returns the entry of the line, new at the end if there was none |
| CallServer.Server.LockSet | unix_source/calld/lock.c:50-58 | sets the pid of the entry of the line |
| CallServer.Server.LockRel | unix_source/calld/lock.c:60-73 | clears the first entry of the pid, if any |
| CallServer.Server.IsLocked | unix_source/calld/lock.c:75-79 | returns the holder of the line |
| CallServer.Server.ClientAdd | unix_source/calld/client.c:24-42 | takes the first free slot; a full table grows once and keeps its entries |
| CallServer.Server.ClientDel | unix_source/calld/client.c:46-58 | frees the first slot with that descriptor |
| CallServer.Server.ClientSigchld | unix_source/calld/client.c:64-76 | stores the status in the first slot with that pid |
| CallServer.Server.SigChld | unix_source/calld/sigchld.c:6-25 | sets the flag and records the exit of the child, for every normal exit |
| CallServer.Server.SysNext | unix_source/calld/sysfile.c:10-48 | returns the next entry and the position after it, skipping blank lines and comments |
| CallServer.Server.DevFind | unix_source/calld/devfile.c:57-69 | finds the first device of a type and class |
| CallServer.Server.SearchLoop | unix_source/calld/request.c:10-48 | under signals between its statements, the loop computes the search function and updates cursor, count and message |
| CallServer.Server.SearchTurn | unix_source/calld/request.c:11-32 | one turn of it ends the search or leaves the same search to be made from the entry's end |
| CallServer.Server.Fork | unix_source/calld/request.c:33-45 | a new child, its device locked before it runs, its entry added to the history; signals between the steps change no other client but for recorded exits |
| CallServer.Server.RequestStep | unix_source/calld/request.c:3-56 | returns 0 with one more child dialling the first usable entry, or -1 with the message that applies, under any signals |
| CallServer.Server.CliDone | unix_source/calld/loop.c:170-176 | frees the slot and takes its descriptor out of the set |
| CallServer.Server.RequestOrGiveUp | unix_source/calld/loop.c:155-160 | a client whose search fails is told the reason, given up and not watched any more; otherwise a new child dials for it |
| CallServer.Server.TryAgain | unix_source/calld/loop.c:149-161 | a failed child's device is released and the search goes on, or the client is given up; signals come between any two steps |
| CallServer.Server.Visit | unix_source/calld/loop.c:127-163 | one turn of the loop retries the client of slot i if and only if its child failed, and touches no other client, lock or message |
| CallServer.Server.ChildDone | unix_source/calld/loop.c:125-166 | returns only after a final test with the flag clear, and it does return; every failed child's line is free, its client given up and unwatched or dialled for by a new child; a client whose child succeeded keeps its line; the log accounts for every change, message and failure; the program ends only for a retry that meets a malformed line |
| CallServer.Server.ActStep | unix_source/calld/loop.c:149-161 | a retry added to the log keeps the account of what became of each client |
| CallServer.Server.RetryLines | unix_source/calld/loop.c:154-155 | a retry frees the line of the failed child and no line of another process |
| CallServer.DebtsMarked | unix_source/calld/sigchld.c:14-22 | a failure is owed to its client from the moment its exit is recorded, and nothing else is |
| CallServer.Server.Accept | unix_source/calld/loop.c:45-57 | adds a client and leaves the connected ones alone, under signals between its statements |
| CallServer.Server.SaveRequest | unix_source/calld/loop.c:93-104 | stores the options and restarts the search |
| CallServer.Server.ServeRequest | unix_source/calld/loop.c:93-113 | the first search starts at the top of the file and either dials or gives the client up |
| CallServer.Server.ServeOne | unix_source/calld/loop.c:63-116 | closing frees exactly the line of that client; a request dials or gives up; other clients are left alone |
| CallServer.Server.Serve | unix_source/calld/loop.c:63-117 | every ready client is read once, in order, and no other; the log says what was done for what each sent, and leads from the old tables to the new |
| CallServer.Server.Turn | unix_source/calld/loop.c:32-118 | recorded exits are dealt with first if and only if the flag says so; then a new client is in its slot and watched, or the ready clients are served, or exits are dealt with again; nothing else happens |
| WorkQueue.StepInv | excerpts/kernel_list.c:31-92 | every step of the worker and the submitters keeps lock, node, sleep and order invariants |
| WorkQueue.NoLostWakeup | excerpts/kernel_list.c:41-68 | the worker sleeps over a non-empty list only while the submitter that holds the lock is about to wake it, and then it runs |
| WorkQueue.ExecutedInOrder | excerpts/kernel_list.c:41-49 | the calls made are a prefix of the tail insertions |
| WorkQueue.ExecutesWhatIsAsked | excerpts/kernel_list.c:31-49 | no work is executed more often than submit_work was called with it, and exactly as often once everything has drained |
| WorkQueue.InsertsLastAsked | excerpts/kernel_list.c:38-44 | a tail insertion inserts the work of that submitter's latest call |
| WorkQueue.LeavesOnlyIfAsked | excerpts/kernel_list.c:60-91 | the worker leaves only after asked_to_die said so |
| WorkQueue.LeavesIfAsked | excerpts/kernel_list.c:60-91 | and then it does, with the task running |
| WorkQueue.CallsUnlocked | excerpts/kernel_list.c:73-86 | work runs with the lock released and the task running; no freed node is on the list |
| WorkQueue.LockExclusive | excerpts/kernel_list.c:70-87 | at most one submitter or the worker is inside the locked section |
| WorkQueue.Drains | excerpts/kernel_list.c:60-89 | with no submitter at work the worker, left alone, executes everything submitted |
| WorkQueue.Queue.SubmitWork | excerpts/kernel_list.c:31-40 | keeps the invariant; the new node holds exactly the given function and argument, or -1 and no change |
| WorkQueue.Queue.SubmitterStep | excerpts/kernel_list.c:41-48 | keeps the invariant; appends this submitter's work; leaves a sleeping worker ready to run; refused only while another has the lock |
| WorkQueue.Queue.WorkerStep | excerpts/kernel_list.c:51-92 | keeps the invariant; calls at most one work function, the next in submission order; refused asleep over work only while a submitter is about to wake it |
| WorkQueue.Queue.Play | excerpts/kernel_list.c:31-92 | any interleaving of these steps in place is a run of the protocol |
| Palette.StepInv | excerpts/s3c2440_LCD_driver.c:281-338 | register writes, updates and frame interrupts keep the agreement invariant |
| Palette.Agreement | excerpts/s3c2440_LCD_driver.c:996-1022 | after any run, whatever writes the hardware dropped: between calls each register shows its last colour or has it buffered with the interrupt on; a clear flag means a clear buffer |
| Palette.FrameCompletes | excerpts/s3c2440_LCD_driver.c:311-338 | one frame with all writes taken settles every register |
| Palette.Rgb565Fields | excerpts/s3c2440_LCD_driver.c:967-979 | the three colour fields do not overlap and never look like the clear mark |
| Palette.TrueFields | excerpts/s3c2440_LCD_driver.c:988-993 | in each true-colour format each field holds the top bits of its channel |
| Palette.PureColours | excerpts/s3c2440_LCD_driver.c:452-504 | the values of pure red, green and blue in every format |
| Palette.Driver.WritePalette | excerpts/s3c2440_LCD_driver.c:311-338 | entries that read back are cleared, the others stay, and the flag says whether any stay |
| Palette.Driver.Irq | excerpts/s3c2440_LCD_driver.c:281-308 | the interrupt in place is the frame step |
| Palette.Driver.SchedulePaletteUpdate | excerpts/s3c2440_LCD_driver.c:996-1022 | buffers the colour and enables the interrupt |
| Palette.Driver.SetColReg | excerpts/s3c2440_LCD_driver.c:946-986 | true colour by chan_to_field, palette, and rejected visuals; frames may interrupt it and agreement still holds |
| ScanOut.ScanOutBytes | excerpts/s3c2440_LCD_driver.c:208-217 | line length times height fits the frame's own size if the product does not wrap, and with whole bytes a line only then |
| ScanOut.LinesFit | excerpts/s3c2440_LCD_driver.c:711-712 | truncating each line never exceeds truncating the frame |
| ScanOut.ScanOutFits | excerpts/s3c2440_LCD_driver.c:208-217 | in a buffer as large as the sizing loop makes it, scan-out of a mode with whole bytes a line fits if and only if the product does not wrap |
| ScanOut.OversizedOverruns | excerpts/s3c2440_LCD_driver.c:208-217 | a table whose accepted mode runs past the end of the buffer that was sized for it |
| ScanOut.FbInfo.SizeBuffer | excerpts/s3c2440_LCD_driver.c:208-217 | smem_len ends as the largest of its old value and all frames |
| ScanOut.FbInfo.CheckVar | excerpts/s3c2440_LCD_driver.c:384-430 | accepts exactly the default mode and the table modes of its type |
| ScanOut.FbInfo.SetPar | excerpts/s3c2440_LCD_driver.c:690-718 | visual, line length and addresses of the current mode |
| ScanOut.FbInfo.SetLcdAddr | excerpts/s3c2440_LCD_driver.c:897-912 | the three address registers, in 32 bits |
| ScanOut.FbInfo.SetMode | excerpts/s3c2440_LCD_driver.c:384-718 | after check_var and set_par of any accepted mode of a table without wrapping products, scan-out ends inside the allocation; with whole bytes a line, exactly then |
| ExpectString.DecodeEncode | unix_source/calld/expectstr.c:21-42 | every text without a backslash can be written as an expect string and is decoded back |
| ExpectString.DecodeRefuses | unix_source/calld/expectstr.c:23-37 | after any text a backslash is refused at the end and before every character but r and s |
| ExpectString.CopyExpect | unix_source/calld/expectstr.c:21-42 | the copy loop decodes: text, invalid or unknown escape |
| ExpectString.SkipTo | unix_source/calld/expectstr.c:49-52 | reads to the first occurrence of the first character |
| ExpectString.Slide | unix_source/calld/expectstr.c:53-69 | the sliding window agrees with plain substring search |
| ExpectString.OneOutcome | unix_source/calld/expectstr.c:49-69 | that search has one outcome |
| ExpectString.OverrunReached | unix_source/calld/expectstr.c:62-69 | an input for which the window leaves its buffer |
| ExpectString.ExpectStr | unix_source/calld/expectstr.c:11-74 | succeeds having consumed exactly the bytes up to the end of the leftmost occurrence, with all other outcomes |
| Framing.Connection.Writen | unix_source/lib.sun/writen.c:3-19 | all bytes in order over any partial writes; fewer, and then 0, if and only if a write took nothing |
| Framing.Connection.SendFd | unix_source/lib.sun/sendfd.c:11-42 | the two-byte trailer, with the descriptor or a nonzero status |
| Framing.Connection.SendErr | unix_source/lib.sun/senderr.c:7-23 | message, then the trailer of a negative code; -1 if and only if a write took nothing |
| Framing.RecvFd | unix_source/lib.sun/recvfd.c:12-62 | the receive loop computes the outcome and the bytes for the user function, over any chunks |
| Framing.RoundTrip | unix_source/lib.sun/recvfd.c:37-60 | under any chunking, message and status arrive if the trailer stays together, unless status 0 comes without a descriptor; otherwise a format error |
| Framing.CutShort | unix_source/lib.sun/recvfd.c:32-35 | without a trailer everything is handed over and -1 returned |
| Framing.UserRefuses | unix_source/lib.sun/recvfd.c:54-56 | a chunk that the user function refuses ends the reception there |
| Framing.ErrorCode | unix_source/lib.sun/sendfd.c:25-36 | which codes survive, and what becomes of the others |
| Framing.SendErrRoundTrip | unix_source/lib.sun/senderr.c:7-23 | what recv_fd returns for what send_err sent, for every code |
| PingPong.StepInv | unix_source/advio/devzero.c:25-50 | every statement of either process keeps turn, counter and pipes in step |
| PingPong.StrictAlternation | unix_source/advio/devzero.c:29-42 | in every interleaving each process reads the value it expects, updates never overlap, no wrong byte arrives |
| PingPong.Progress | unix_source/ipc/tellwait.c:13-46 | never deadlocked before both have finished |
| PingPong.BothFinish | unix_source/advio/devzero.c:25-45 | every maximal schedule has the same length and finishes both loops |
| PingPong.EndsRoundedUp | unix_source/advio/devzero.c:29-43 | the counter ends as the loop bound rounded up to an even number |
| PingPong.Shared.ParentStep | unix_source/advio/devzero.c:29-34 | keeps the invariant; reads the value it expects; waits only for the child's byte |
| PingPong.Shared.ChildStep | unix_source/advio/devzero.c:36-42 | the same for the child |
| PingPong.Shared.RunBoth | unix_source/advio/devzero.c:25-45 | under any scheduler both processes finish, with the counter rounded up to an even number |

## Left out

Semaphores

- One key; the checks for IPC_PRIVATE and key -1; semget failing for permissions or full tables; SEMVMX limits.
- Direct calls of sem_rm. A semop that is blocked while the set is removed, which is fatal with EIDRM, is the event `Exit` of that process; when the process has not got to the call yet, the model follows the EINVAL branch.
- Callers close and operate only on sets they have open, and no sem_create reads the counter while BIGCOUNT handles are out (`Permitted`). `NeverRetakenIff` says that the second is needed exactly.
- Handles to a removed set count as gone; undo that would make a value negative stops at 0, and `lost` records the difference.

Database

- db.h and the files with _db_find, _db_findfree, _db_dodelete and _db_readptr are not part of this model; these functions follow the comments in store.c:18-23, 32-38, 47-49 and 64-72 and in writedat.c:4-5. The limits of db.h and the hash function are the fields of `Config`.
- BlankSteps: the order of the writes inside _db_dodelete, unlinking first and then blanking, is this model's choice.
- Record locking and access by several processes; the text layout of a record apart from its length; failing system calls; db_fetch, db_delete, db_nextrec and db_rewind.

Call server

- Sockets, termios, logging, the dialling child itself; a failing fork; malformed lines of the Devices file; send_err failures. log_quit and err_sys end the program (`quit`).
- Positions in the Systems file count lines. Fields of a new table entry that malloc leaves undefined are 0. The two growable arrays are sequences that grow by nalloc.
- A client closes its connection only after its child's exit was handled and makes one request per connection (`Server.Read`); accepted descriptors are new (`Server.Select`); pids are not reused. SIGCHLDs do not coalesce.
- Server.Fork: a child that dies while it waits for TELL_CHILD, before its device is locked. Server.ClientAdd: a signal while the table is being reallocated counts as arriving before or after.
- Server.Turn: a signal between the test of chld_flag and select waits for the next return of select. A child that dies abnormally leaves its device locked until its client closes; the model does the same.

Kernel work list

- Link pointers: the list is a sequence of node addresses. Memory ordering: a statement is one atomic step. Module initialisation and the semantics of asked_to_die, which is an input.

LCD driver

- Register macros, GPIO, clocks, DMA, blanking, suspend, the bit fields of the formats that are not true colour, the other LCD registers, and the rounding of the allocation to whole pages.

Stream protocols

- ExpectString.ExpectStr: timeouts, because exp_read returns a size_t that is never below 0; expect strings of MAXLINE characters or more, which the C buffer has no room for; strings hold no NUL.
- Framing.Connection.Writen: negative results of write, which its size_t hides. sendmsg and recvmsg failures. The user function is a predicate that says whether it took all the bytes.
- PingPong.StrictAlternation: failing pipes, fork and mmap; counter overflow.
