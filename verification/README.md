# Concurrency and storage properties of linux_fff

This project models the three groups of programs in the repository that carry unbounded
behaviour, and one kernel module, and proves what they guarantee:

- the worker pool with a printer allocator (`assignment8/printer.c`);
- the shared counter with and without a mutex (`assignment7/ex2.c`, `assignment7/ex2_race_condition.c`);
- the chat servers (`assignment9/chat_app/server.c`, `server_tls.c`, `server_tls_final.c`), including the
  user file of the last one;
- the multi-minor character device (`assignment11/multi_devices/multi_devices.c`).

Run `dafny verify dfyconfig.toml` to check everything.

## How the programs are modelled

A concurrent program is a state machine. One step is one lock, unlock, semaphore operation, loop
iteration over a shared array, log access, load or store; any thread may take the next step. A
schedule or list of actions fixes who moves; `Exec` runs it, and every main result is about
`Exec(Init(...), schedule)` for all schedules and for all numbers of threads, printers, table
slots, clients and increments. Locking is enabled only while the mutex is free and `sem_wait`
only while the count is positive. Memory is sequentially consistent. `send` and `SSL_write`
append to the receiver's list; an append to or a replay of the chat log is one step that
succeeds. The step functions are `PrinterModel.Step`, `RaceCounter.Step`, `MutexCounter.Step`,
`TlsModel.Step`/`Apply` and `PlainModel.Step`/`Apply`.

What the C code updates in place is a class over arrays: `PrinterPool.Pool` (queue, printer
slots, thread states), the two counter programs, the three client tables in `RegistryTables`,
`UserFile.Users`, `DeviceBuffers.Driver` and `DeviceSetup.Module`. Their methods are proved equal
to the functions that the state machines and lemmas use.

Files: `Counting` (sums and bags over threads) and `Locks` (one mutex, one section) are shared.
`Printer*` is the pool: model, invariants, safety, liveness, what can happen at once, refinement,
in-place program. `RaceCounter` and `MutexCounter` are the counters. `Tls*` is
`server_tls_final.c`: model, table and delivery invariants, history invariants, theorems, what a
joining client has and lacks, what clients do and what becomes of it, progress, and a run that
loses a message. `Plain*` is `server.c`: model, invariants, theorems, what clients do and what
becomes of it, order of delivery, progress, and a run that delivers a message three times.
`Registry` and `RegistryTables` compare the three client tables, and `TablesInUse` shows that the
interleaved loops of the servers have the effect of these tables' operations. `UserText` and
`UserFile` are `users.txt`. `DeviceBuffers` and `DeviceSetup` are the kernel module.

Findings worth knowing:

- The unprotected counter can end with every value from 2 to threads x increments (two or more
  threads and increments) and with no other; for the program as shipped, 2 to 100000.
- `server.c` never loses a chat message for a client that has replayed the log. It can deliver one
  more often than twice only when a socket number is reissued while it is still in the table, and
  then live exactly as often as the number occurs there; `PlainDuplicate` is a run with one logged
  and two live copies.
- `server_tls_final.c` broadcasts before it logs. Of the messages broadcast before it registered, a
  joiner never gets those that their authors had yet to log when it was sent the log, and gets all
  others; `TlsLoss` is a run that loses one.
- The swapping table of `server.c` stays in arrival order exactly as long as only absent clients
  and the last two entries are removed.
- A user record survives `users.txt` exactly when name and password are non-empty, free of white
  space, below 50 characters each and together at most 97. Two names of 49 characters, which the
  50-byte buffers hold, are already too long together.
- With no printer and at least one task, or no worker, the pool does not serve its tasks; in every
  other case each complete run does.

## Model

| member | source | states |
|---|---|---|
| PrinterSafety.ScanAlwaysSucceeds | assignment8/printer.c:29-37 | in every reachable state a scanning worker still has a slot to look at, an owner's printer exists, and nobody has written outside printer_status: get_available_printer never yields -1 after sem_wait |
| PrinterInvariants.ScanNeverFails | assignment8/printer.c:52-57 | the counting argument: permits in use plus the semaphore equal the printers and each owner holds a permit, so a scan that saw only busy slots contradicts the scanner's own permit |
| PrinterSafety.BusyExactlyWhenOwned | assignment8/printer.c:31-40 | a slot is 0 if and only if one worker and no other owns that printer |
| PrinterSafety.TasksConserved | assignment8/printer.c:21-27 | queued, in-flight and printed tasks together are exactly the tasks main enqueued, and no task is printed twice |
| PrinterSafety.OutputNeverOverlaps | assignment8/printer.c:59-67 | in the printed output, for every printer, each "acquired" line is followed by "released" of the same task before the printer appears again |
| PrinterInvariants.RunInv | assignment8/printer.c:43-73 | every run of every set of workers keeps the mutex, scan, ownership, counting, conservation and output invariants |
| PrinterLiveness.NoDeadlock | assignment8/printer.c:43-73 | with at least one printer, or nothing to print, a reachable state in which no worker can move is one in which all workers have returned, and conversely |
| PrinterLiveness.MeasureDrops | assignment8/printer.c:44-70 | one natural number (queued tasks times a constant plus the ranks of the workers) drops at every step of any worker |
| PrinterLiveness.EveryRunTerminates | assignment8/printer.c:44-70 | no run has more than (14 + printers) * tasks + 3 * workers steps |
| PrinterLiveness.CompleteRunOutcome | assignment8/printer.c:75-101 | a run that cannot be continued has every task printed, all workers returned, the semaphore at its start value, all printers free and both mutexes free, if and only if there were no tasks or there were both printers and workers |
| PrinterConcurrency.BlockedExactly | assignment8/printer.c:43-73 | in every reachable state a worker is held up if and only if it has returned, wants a section that another worker is in, or is at sem_wait while as many workers hold permits as there are printers |
| PrinterConcurrency.PrintersInParallel | assignment8/printer.c:52-67 | for every p up to the numbers of tasks, printers and workers, constructs a schedule after which p workers own p different printers at once |
| PrinterRefinement.PoolRefinesAtomicAllocator | assignment8/printer.c:21-70 | for every run there is a run of a system with a FIFO of tasks, a set of free printers and one atomic step that takes the lowest free printer, whose k-th state is what the pool looks like after k steps, for every k |
| PrinterRefinement.VisibleSimulates | assignment8/printer.c:25-67 | dequeue, claim, both printfs and release are each exactly one abstract step by the same worker |
| PrinterRefinement.StutterSimulates | assignment8/printer.c:43-70 | locks, unlocks, the semaphore and the scan of busy slots change nothing in the abstract system |
| PrinterPool.LowestFree | assignment8/printer.c:29-37 | the result is the first free slot, or -1 exactly when there is none |
| PrinterPool.ClaimIsLowestFree | assignment8/printer.c:29-37 | the interleaved scan claims the printer that the uninterrupted loop would return |
| PrinterPool.Pool.Enqueue | assignment8/printer.c:21-23 | appends to the queue in place and changes nothing else |
| PrinterPool.Pool.DequeueTask | assignment8/printer.c:25-27 | takes the oldest task, or answers -1 and changes nothing when front has reached rear |
| PrinterPool.Pool.GetAvailablePrinter | assignment8/printer.c:29-37 | the loop returns the lowest free printer and marks only that one busy, or -1 with nothing changed |
| PrinterPool.Pool.ReleasePrinter | assignment8/printer.c:39-41 | frees that printer and changes nothing else |
| PrinterPool.Pool.Advance | assignment8/printer.c:43-73 | one step on the arrays and globals is the step of the state machine |
| PrinterPool.RunWorkers | assignment8/printer.c:86-94 | create and join under an arbitrary scheduler: it terminates, and what it did is a valid run that cannot be continued |
| PrinterPool.RunProgram | assignment8/printer.c:75-101 | main always returns, and has completed all tasks exactly when there were none, or there were printers and threads |
| RaceCounter.FinalValues | assignment7/ex2_race_condition.c:10-15 | for all numbers of threads and increments, a value can be the final one if and only if it lies between the least final value (2 for two or more of each) and threads * increments |
| RaceCounter.ScheduleFor | assignment7/ex2_race_condition.c:11-13 | constructs, for any value from 2 to threads * increments, a complete schedule that ends with it |
| RaceCounter.NeverOverflows | assignment7/ex2_race_condition.c:8-15 | at every point of every run the counter is between 0 and threads * increments |
| RaceCounter.BlockedExactly | assignment7/ex2_race_condition.c:10-15 | in every reachable state a thread can go on if and only if it has not finished |
| RaceCounter.AllCanRace | assignment7/ex2_race_condition.c:11-13 | constructs, for any number of the threads, a run after which all of them have loaded the counter and not stored it |
| RaceCounter.RunProgram | assignment7/ex2_race_condition.c:17-37 | main under an arbitrary scheduler terminates with a value within the bounds |
| MutexCounter.StepInv | assignment7/ex2.c:11-18 | under the mutex the counter is the sum of completed stores, and a thread between load and store has a copy equal to the counter |
| MutexCounter.StepRefines | assignment7/ex2.c:13-15 | the store of a locked load/store pair is one atomic increment; all other steps leave the atomic counter alone |
| MutexCounter.OnlyResult | assignment7/ex2.c:20-38 | every run that cannot be continued ends with threads * increments and the mutex free |
| MutexCounter.BlockedExactly | assignment7/ex2.c:11-18 | in every reachable state a thread is held up if and only if it is at its lock and has finished or another thread is between lock and unlock |
| MutexCounter.RunProgram | assignment7/ex2.c:20-38 | main terminates under every scheduler with threads * increments |
| TlsTheorems.NoUseAfterFree | assignment9/chat_app/server_tls_final.c:146-193 | no broadcast has written through a freed SSL object; active slots hold pairwise distinct, allocated objects of handlers between add_client and remove_client, although addresses are reused and a full table is ignored |
| TlsTheorems.OnlyAFullTableRefuses | assignment9/chat_app/server_tls_final.c:54-67 | a session leaves add_client with the lowest inactive slot, and without one only if every slot was taken |
| TlsTheorems.TotalOrder | assignment9/chat_app/server_tls_final.c:24-32 | what broadcast has written to a client is the single global broadcast order from its add_client to its remove_client, without its own chat; mid-broadcast it includes the new message exactly for slots the scan has passed |
| TlsTheorems.LogFollowsOrder | assignment9/chat_app/server_tls_final.c:163-187 | each session broadcasts join, then messages, then leave; its log entries are a prefix of its broadcasts, shorter by one exactly while one is waiting to be logged |
| TlsTheorems.NoDeadlock | assignment9/chat_app/server_tls_final.c:146-193 | the holder of clients_mutex can always go on, and the server stands still if and only if every handler waits for its client or has ended |
| TlsProgress.BlockedExactly | assignment9/chat_app/server_tls_final.c:146-193 | in every reachable state an action is impossible if and only if its client or handler is elsewhere, its address is in use, or it wants clients_mutex while another handler is inside |
| TlsProgress.SilenceEnds | assignment9/chat_app/server_tls_final.c:146-193 | without new connections, messages or hang-ups the handlers take at most (2 * slots + 10) steps each |
| TlsProgress.AlwaysCatchesUp | assignment9/chat_app/server_tls_final.c:146-193 | from every reachable state the handlers alone reach a rest, and at every rest all broadcasts are logged and each registered client has heard all of them since it registered, in order |
| TlsSessions.RefusedLeavesNoTrace | assignment9/chat_app/server_tls_final.c:151-156 | a handler has ended without saying anything if and only if its authentication failed, and then it was never in the table, was sent nothing, and nobody and no log has a message of it |
| TlsSessions.OnlyTheAdmittedTakePart | assignment9/chat_app/server_tls_final.c:151-161 | whoever is or was in the table, was sent anything, or has an entry in the order or the log was authenticated |
| TlsSessions.SaysWhatWasTyped | assignment9/chat_app/server_tls_final.c:163-187 | the broadcasts of a session are its join, the texts its client typed in that order, and its leave if the client hung up, all but the one about to be sent; its log entries are the same, all but the one about to be logged |
| TlsSessions.EverythingIsGenuine | assignment9/chat_app/server_tls_final.c:24-52 | every message in the order, in the log, or sent to any client, live or from the log, is word for word what its author did under that number |
| TlsSessions.EveryoneIsSentTheLog | assignment9/chat_app/server_tls_final.c:161-168 | no session gets past its join without having been sent a log that contains it, and nobody is sent the log earlier |
| TlsSessions.HearsItsOwnJoin | assignment9/chat_app/server_tls_final.c:161-178 | a registered client hears its own announcement and never what it typed itself |
| TlsJoiner.AtMostTwice | assignment9/chat_app/server_tls_final.c:161-168 | each message reaches a client at most once by a broadcast and at most once from the log |
| TlsJoiner.UnloggedExactly | assignment9/chat_app/server_tls_final.c:178-179 | a broadcast message is absent from the log if and only if it is the one its author is about to log |
| TlsJoiner.JoinerMissesFew | assignment9/chat_app/server_tls_final.c:161-168 | when the log is replayed to a joiner, the messages broadcast before its add_client and not in that log are exactly as many as the sessions that began such a broadcast and have not logged it, so at most the other sessions between broadcast and log |
| TlsJoiner.NothingEarlierLive | assignment9/chat_app/server_tls_final.c:24-32 | no message broadcast before a session's add_client is ever written to it by a broadcast |
| TlsJoiner.MissedForGood | assignment9/chat_app/server_tls_final.c:161-168 | whatever happens after the replay, the client has a message broadcast before its add_client, live or from the log, if and only if its author was not about to log it at the replay |
| TlsLoss.AJoinerCanMissAMessage | assignment9/chat_app/server_tls_final.c:161-179 | from the empty server with two slots a run exists after which both handlers wait for their clients, everything is logged, and the joiner has a message broadcast before it registered neither from the log nor live |
| TlsRegistry.RunInv | assignment9/chat_app/server_tls_final.c:24-80 | every sequence of steps, arrivals, authentications, messages and hang-ups keeps the heap, mutex, table and delivery invariants |
| TlsHistory.RunInv | assignment9/chat_app/server_tls_final.c:146-193 | every such sequence keeps, for each session, the shape of its broadcasts and its log entries as a prefix of them |
| PlainTheorems.TableMatchesHandlers | assignment9/chat_app/server.c:76-82 | the table holds, as a multiset, the sockets of the handlers that have not removed themselves, within capacity, so the removal loop always finds an entry, also when socket numbers are reissued |
| PlainTheorems.NothingIsMissed | assignment9/chat_app/server.c:47-68 | a client with an open socket that has replayed the log has every chat message whose broadcast by another handler has ended, from the log or live |
| PlainTheorems.BroadcastReachesEveryEntry | assignment9/chat_app/server.c:32-40 | when a broadcast ends, each open session other than the sender has exactly one copy for each table entry with its socket number, and at least one; the sender has none |
| PlainTheorems.AtMostTwice | assignment9/chat_app/server.c:47-68 | if no connection was given a number still in the table, each message has reached a client at most once live and at most once from the log |
| PlainTheorems.NoDeadlock | assignment9/chat_app/server.c:42-86 | the holder of the mutex can always go on, and the server stands still if and only if every handler waits for its client or has ended |
| PlainProgress.BlockedExactly | assignment9/chat_app/server.c:42-86 | in every reachable state an action is impossible if and only if its client or handler is elsewhere, its socket is open, or it wants clients_mutex while another handler is inside |
| PlainProgress.SilenceEnds | assignment9/chat_app/server.c:42-86 | without new connections, messages or hang-ups the handlers take at most (2 * capacity + 12) steps each |
| PlainProgress.AlwaysCatchesUp | assignment9/chat_app/server.c:42-86 | from every reachable state the handlers alone reach a rest, and at every rest each connected client has every logged message of others |
| PlainOrder.OneOrderForAll | assignment9/chat_app/server.c:32-40 | what broadcasts have sent to any client comes in the one order in which broadcasts are completed, the one under way last |
| PlainSessions.SaysWhatWasTyped | assignment9/chat_app/server.c:57-72 | the completed broadcasts of a session are its join, the texts its client typed in that order, and its leave if the client hung up, all but the one under way; its log entries are the texts, all but the one about to be saved |
| PlainSessions.EverythingIsGenuine | assignment9/chat_app/server.c:32-68 | every message in the log, completed, or sent to any client, live or from the log, is word for word what its author did under that number |
| PlainSessions.ReissuedExactly | assignment9/chat_app/server.c:161-164 | the run counts as one with a reissued number if and only if some connection was admitted while its number was in the table |
| PlainDuplicate.AReissuedNumberTriplesDelivery | assignment9/chat_app/server.c:74-83 | that proviso is needed: a run exists in which a client with a reissued socket number receives one chat message once from the log and twice live |
| PlainInvariants.RunInv | assignment9/chat_app/server.c:42-86 | every sequence of steps, arrivals, messages and hang-ups keeps the connection, table, copy-count and no-loss invariants |
| PlainInvariants.SwapRemoveBag | assignment9/chat_app/server.c:79 | overwriting an entry with the last one and shortening the table removes exactly one occurrence |
| Registry.TablesAgree | assignment9/chat_app/server_tls_final.c:54-80 | after any sequence of adds and removes the swapping and the slot table have the same members, and the shifting table too as long as nobody is added to a full one |
| Registry.MembersAreAddsLessRemovals | assignment9/chat_app/server_tls_final.c:54-80 | while there is room and only members are removed, a client is a member as often as it was added and not removed |
| Registry.BroadcastsAgree | assignment9/chat_app/server_tls.c:32-40 | after any such sequence all three tables send the same multiset of packets: exactly this text, to each client once per membership and never to the sender |
| Registry.PacketsExactly | assignment9/chat_app/server.c:32-40 | a broadcast over any table sends exactly its text, to exactly the entries other than the sender, once each, and nothing more |
| Registry.PacketsInOrder | assignment9/chat_app/server.c:32-40 | the receivers come in table order |
| Registry.SlotPacketsAreActive | assignment9/chat_app/server_tls_final.c:24-32 | a slot table sends what the list of its active objects would send, and that list holds exactly its members |
| Registry.ShiftTableInArrivalOrder | assignment9/chat_app/server_tls.c:67-77 | the shifting table lists clients in arrival order whatever is removed |
| Registry.ShiftDeleteAt | assignment9/chat_app/server_tls.c:67-77 | the removal takes out the first matching entry and moves every later one down by one place |
| Registry.SwapDeleteKeepsOrder | assignment9/chat_app/server.c:79 | a removal from a swapping table in arrival order keeps it so if and only if the client is absent or one of the last two entries |
| Registry.SwapTableInArrivalOrder | assignment9/chat_app/server.c:76-83 | over any sequence of operations the swapping table is always in arrival order if and only if each removal takes an absent client or one of the last two entries |
| Registry.SwapTableLosesOrder | assignment9/chat_app/server.c:79 | a witness that the condition can fail: a concrete sequence breaks the order |
| RegistryTables.SwapTable.Add | assignment9/chat_app/server.c:161-170 | appends the entry if there is room and says whether there was |
| RegistryTables.SwapTable.Remove | assignment9/chat_app/server.c:76-83 | the loop deletes the first entry with that socket by moving the last one there |
| RegistryTables.SwapTable.Broadcast | assignment9/chat_app/server.c:32-40 | sends one packet per entry other than the sender's, in table order |
| RegistryTables.ShiftTable.Add | assignment9/chat_app/server_tls.c:139-141 | appends the client; room is the caller's duty, as in the code |
| RegistryTables.ShiftTable.Remove | assignment9/chat_app/server_tls.c:67-77 | the nested loops delete the first matching entry and close the gap in order |
| RegistryTables.ShiftTable.Broadcast | assignment9/chat_app/server_tls.c:32-40 | writes one packet per client other than the sender, in table order |
| RegistryTables.SlotTable.AddClient | assignment9/chat_app/server_tls_final.c:54-67 | fills the lowest inactive slot and returns its index, or returns -1 and changes nothing |
| RegistryTables.SlotTable.RemoveClient | assignment9/chat_app/server_tls_final.c:70-80 | clears the first active slot with that SSL object, if any |
| RegistryTables.SlotTable.Broadcast | assignment9/chat_app/server_tls_final.c:24-32 | writes one packet per active slot that does not hold the sender, in slot order |
| TablesInUse.AddScanIsAdd | assignment9/chat_app/server_tls_final.c:54-67 | add_client's loop, slot by slot with other threads' steps in between, leaves the table that the uninterrupted operation makes |
| TablesInUse.RemoveScanIsRemove | assignment9/chat_app/server_tls_final.c:70-80 | the same for remove_client, with or without a slot |
| TablesInUse.BroadcastScanSendsPackets | assignment9/chat_app/server_tls_final.c:24-32 | throughout the broadcast loop a registered session has the message exactly as often as the packets for the slots passed say |
| TablesInUse.AcceptIsAdd | assignment9/chat_app/server.c:161-170 | registering a connection leaves the table that the uninterrupted add makes, and starts a handler if and only if fewer handlers than fit have not removed themselves |
| TablesInUse.SwapScanIsRemove | assignment9/chat_app/server.c:76-83 | the removal loop of the running server.c leaves the table that the uninterrupted deletion makes |
| TablesInUse.SwapScanSendsPackets | assignment9/chat_app/server.c:32-40 | throughout its broadcast loop an open session has the message exactly as often as the packets for the entries passed say |
| UserText.FileRoundTrip | assignment9/chat_app/server_tls_final.c:106-129 | a file of printed records is read back as exactly those records, without writing past file_user or file_pass, if and only if every name and password is non-empty, without white space, below 50 characters, and at most 97 characters together with its partner |
| UserText.LinesPartition | assignment9/chat_app/server_tls_final.c:107-119 | fgets takes any file apart into lines of at most 99 characters that end at a newline, at the limit or at the end of the file, and loses nothing |
| UserText.ScanTakesTheFirstTwoWords | assignment9/chat_app/server_tls_final.c:110-121 | on any line sscanf takes the first two words: blanks before and between are skipped, the rest is ignored, a missing word leaves its buffer unset |
| UserFile.AnswersAreThoseOfAMap | assignment9/chat_app/server_tls_final.c:103-133 | from an empty file, any sequence of logins and storable sign-ups, one at a time, has a defined answer each time, the one of a map from names to passwords |
| UserFile.FileHoldsTheMap | assignment9/chat_app/server_tls_final.c:103-133 | after any such sequence the file reads back as records with distinct names that hold exactly that map |
| UserFile.Search | assignment9/chat_app/server_tls_final.c:108-127 | the fgets/sscanf loop is decided by the first line that it does not pass over: one that has the name (and for a login the password), or one on which sscanf overflows a buffer or leaves a compared one unset, where the outcome is undefined |
| UserFile.JudgedWhenDetermined | assignment9/chat_app/server_tls_final.c:109-123 | a line is judged if and only if no buffer is overrun and the comparison comes out the same whatever the buffers held before, and then as that comparison does |
| UserFile.OutcomeDecides | assignment9/chat_app/server_tls_final.c:108-127 | there is exactly one such outcome for every request and file |
| UserFile.StoredOutcome | assignment9/chat_app/server_tls_final.c:108-127 | on a file that reads back as records the outcome is always defined, and is a match if and only if some record has the name (and for a login the password) |
| UserFile.Users.Authenticate | assignment9/chat_app/server_tls_final.c:103-133 | a login leaves the file alone; a sign-up appends one record exactly when the search defines that the name is not there yet, and is granted exactly then |
| UserFile.SignUpAddsOneLine | assignment9/chat_app/server_tls_final.c:126-129 | on any terminated file a granted sign-up, storable or not, appends its one line, and everything before it is read as before |
| DeviceBuffers.WriteThenRead | assignment11/multi_devices/multi_devices.c:34-67 | after a write, the same file reads back the first min(count, 1024) bytes up to what it asked for, under any interleaving with other files that does not write that minor |
| DeviceBuffers.ReadUntilEmpty | assignment11/multi_devices/multi_devices.c:37-39 | a read that asks for something returns nothing if and only if all accepted bytes have been read |
| DeviceBuffers.OpenThenRead | assignment11/multi_devices/multi_devices.c:21-26 | a newly opened file reads the minor it was opened on, from its start, under any interleaving that does not write that minor |
| DeviceBuffers.WriteThenOpenAndRead | assignment11/multi_devices/multi_devices.c:21-67 | what one file writes, a file opened later on the same minor reads back from the start |
| DeviceBuffers.FilesKeepTheirPlace | assignment11/multi_devices/multi_devices.c:34-67 | a file stays on its minor, and keeps its offset unless it is itself read or written |
| DeviceBuffers.FaultyWrite | assignment11/multi_devices/multi_devices.c:61-62 | position by position, what a write leaves that fails part of the way: new bytes, then zeros to the accepted count, then the old content, with length and offsets unchanged |
| DeviceBuffers.OverlayAt | assignment11/multi_devices/multi_devices.c:61-62 | overwriting the start of a content keeps its length and everything behind |
| DeviceBuffers.ReadsContinue | assignment11/multi_devices/multi_devices.c:41-50 | what a file reads over any number of calls is one contiguous piece from its offset, however the requests are cut |
| DeviceBuffers.MinorsAreIsolated | assignment11/multi_devices/multi_devices.c:14-16 | a minor that nobody writes keeps its content whatever happens on the others |
| DeviceBuffers.RunInv | assignment11/multi_devices/multi_devices.c:57-58 | buf_size never exceeds BUF_SIZE and every open file stays on an existing minor |
| DeviceBuffers.Driver.Read | assignment11/multi_devices/multi_devices.c:34-51 | returns the next part of the content and advances the offset by its length, or reports the fault and leaves the offset |
| DeviceBuffers.Driver.Write | assignment11/multi_devices/multi_devices.c:53-67 | replaces the content by the first 1024 bytes and resets the offset; a fault leaves the length and the offset and overwrites the start with the bytes copied, then zeros up to the accepted count; other minors are unchanged |
| DeviceSetup.InitLeavesNothingBehind | assignment11/multi_devices/multi_devices.c:77-119 | for any number of devices and any failing call, the calls of my_init break no rule of acquisition order and leave nothing registered; without a failure everything is registered |
| DeviceSetup.ExitLeavesNothingBehind | assignment11/multi_devices/multi_devices.c:121-132 | the calls of my_exit release everything, devices before their class, within the rules |
| DeviceSetup.InitOrder | assignment11/multi_devices/multi_devices.c:81-115 | for any failing call, region, class, cdev and devices are asked for in this order up to that call, and from there on only released, the devices in the opposite order first |
| DeviceSetup.ExitOrder | assignment11/multi_devices/multi_devices.c:124-129 | the devices are released by minor, then class, cdev and region |
| DeviceSetup.Module.Init | assignment11/multi_devices/multi_devices.c:77-119 | the branches and loops make exactly the calls of InitTrace, in order, for any failing call |
| DeviceSetup.Module.AcquireBase | assignment11/multi_devices/multi_devices.c:81-99 | region, class and cdev are taken in this order, or a failing call undoes in reverse what came before it |
| DeviceSetup.Module.Exit | assignment11/multi_devices/multi_devices.c:121-132 | the loop and the calls after it make exactly the calls of ExitTrace |
| DeviceSetup.LoadAndUnload | assignment11/multi_devices/multi_devices.c:77-132 | over loading and unloading, each resource is released exactly as often as acquired and nothing stays registered |

## Left out

- Sockets, TLS, certificates, `printf` formatting, `sleep`, random delays and failures of `pthread_create`: foreign calls; a send appends to the receiver's list, a sleep does nothing.
- Bytes of chat messages (terminators, literal lengths, `snprintf` truncation, the copied `username`): a message is a token with author, number and text.
- Handler threads of the chat servers are modelled on values; only their client tables are also classes over arrays. What this does not capture is the layout of the arrays inside a running scan, which the scan index stands for.
- The chat log that earlier runs of a server left behind: the model's log starts empty and stands for what this run appends. `fgets` splitting of long log lines is not modelled.
- The protocol of `server_tls.c`: it frees the SSL object before it deregisters (lines 63-77) and adds without checking for room (line 140), so the lifetime and capacity results do not hold for it; its table is modelled with room as a precondition.
- `authenticate` takes no lock, so unique names are claimed for requests one at a time only; the mode menu before it and a failing `fopen` are not modelled.
- What the program does after `sscanf` has overflowed a buffer or `strcmp` has read an unset one: C does not define it. `UserFile` answers that the outcome is undefined and leaves the file alone; files of storable records never get there.
- Reading name and password from the connection, including a read that fills a 50-byte buffer and leaves no terminator: requests are given as strings.
- Accepting, authenticating and registering a connection in `server.c` (lines 136-170) are one step of `PlainModel`. A socket that is accepted but not registered yet, to which a stale table entry with its number could deliver, does not exist in the model.
- `users.txt` in `server.c` (`check_user`, `register_user`) appends without looking for the name; it has no uniqueness to prove.
- The order of entries in the chat log against the broadcast order across different sessions: the code does not keep it, and no claim is made.
- The width of `int` for the counters: `RaceCounter.NeverOverflows` bounds the value by threads * increments, and the model's counter is unbounded.
- Undefined behaviour of the unprotected `counter++` in C: each is taken to be one load and one store.
- The error code that `my_init` returns after a device failure, which the code reads from index -1 (line 113); the model says only whether it succeeds.
- `assignment8/ex1.c`, `assignment8/ex1_race_condition.c` and `assignment8/ex2.c` repeat programs modelled here; the other assignments are system-call demos with fixed small state.
