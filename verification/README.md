# A model of the coroutine server library

This project models four parts of the library and proves what they promise, or exactly when they keep the promise.

1. **The byte buffer** (`Blocks`, `ByteArray`, `Sessions`, `Bits`, `Encoding`, `TypedStream`). `ByteArray` is a class
   over a linked chain of fixed-size blocks with a cached current node. Every method is proved against one flat byte
   sequence with a position; whole runs of operations are proved to answer as that flat buffer does; the gather and
   scatter buffers are proved to be slices of it; and any list of typed values written to an empty buffer is read back
   whole, its bytes fixed one by one.
2. **The coroutine runtime** (`TaskQueue`, `EventTable`, `Fibers`, `IoManager`, `Runtime`, `Weave`, `Crew`, `Safety`,
   `Handover`, `Wakeups`, `Leftovers`, `Accounts`, `Outcomes`, `Registrations`, `TimerLives`, `Completion`,
   `Progress`, `Races`). `IoManager` and `Fibers` are the classes with their fields updated in place. `Runtime` is a
   transition system over the functions those methods are proved to compute: one step is one lock-protected region
   (taking a task goes with `swapIn`, and `swapIn` returning goes with the re-enqueue). `Weave` and `Crew` hold the
   inductive invariant and keep it step by step, `Safety`, `Wakeups` and `Leftovers` hold what follows over every run.
   `Accounts`, `Outcomes`, `Registrations`, `TimerLives` and `Completion` read tasks, results, events, timers and the
   end of idle fibers off the steps of a run alone and prove that the states agree, `Progress` proves that nobody gets
   stuck, and `Races` holds four concrete runs that show where a promise ends. `Handover` takes the take and `swapIn`
   apart and proves that considerate code cannot tell the difference.
3. **The timer manager** (`Timers`, `Waits`). A class over a sequence kept in the order of the comparator, with timers
   whose keys change, and what any run of its methods does to a wait already begun.
4. **Addresses** (`Subnets`, `Address`, `Ipv6Text`). Subnet arithmetic on octets, related to one big-endian number, and
   the IPv6 printer against an independent reader of the text form of section 2.2 of RFC 4291.

`Base` holds what every module shares. Kernel decisions, the clock, the order in which threads take their turns, the
number of workers and the addresses of timers are parameters or free choices of a step. Where a promise fails, one member
gives a concrete input or run and another states, for all inputs, exactly when the code does keep it.

Where code and comments disagree the model follows the code:

- `cancelTimer` and `getExpired_callbacks` mean to clear a timer's callback, but `getCallback` returns a copy
  (include/concurrent/timer.h:35), so it is never cleared and the guard of `cancelTimer` does not tell a timer in the set
  from one that has left it.
- `deleteEvent` and `settleEvent` choose between MOD and DEL by the registration before the removal, which is never
  empty there, so they always choose MOD and leave an empty interest behind.
- `CreateMask` is described as setting the lowest `bits` bits; it sets the lowest `width - bits`.
- `setPosition` rejects positions beyond the capacity only; at the capacity it walks off the chain.

## Model

| member | source | states |
|---|---|---|
| ByteArray.ByteArray.CurrentIsWhereThePositionIs | src/io/bytearray.cpp:335-444 | in every valid state the cached node is block number position / block size, it is null exactly when the position is the capacity, and the capacity is blocks times block size |
| ByteArray.ByteArray.constructor | src/io/bytearray.cpp:32-33 | a new array is one empty block with the position at 0 |
| ByteArray.ByteArray.ExpandCapacity | src/io/bytearray.cpp:782-844 | afterwards there is room for the request, all old memory is a prefix of the new, the capacity has grown by the fewest whole blocks, and a null current node has been repaired |
| ByteArray.ByteArray.Write | src/io/bytearray.cpp:335-390 | the data are the old data overwritten or extended at the position, the position moves behind them, and the array stays valid |
| ByteArray.ByteArray.Read | src/io/bytearray.cpp:393-444 | out of range exactly when more is asked for than lies between position and data size; otherwise exactly that slice of the data, and the position moves behind it |
| ByteArray.ByteArray.ReadWithoutMoving | src/io/bytearray.cpp:447-502 | reads from the current block at the offset of the given position; runs off the chain exactly when that stretch passes the capacity; the size check is unsigned |
| ByteArray.ByteArray.ReadsWhereAsked | src/io/bytearray.cpp:456-463 | it begins in the block of the position, at the offset asked for, and so reads from where it was asked to if and only if that place lies in this block |
| ByteArray.ByteArray.ToString | src/io/bytearray.cpp:729-741 | always succeeds with exactly the data behind the position |
| ByteArray.ByteArray.SetPosition | src/io/bytearray.cpp:701-726 | out of range above the capacity, a null dereference exactly at the capacity, otherwise the position is set, the data grow to it and keep their old bytes |
| ByteArray.ByteArray.Clear | src/io/bytearray.cpp:762-778 | one block, no data, position 0, capacity one block |
| ByteArray.ByteArray.GatheredIsSlice | src/io/bytearray.cpp:609-639 | pieces laid out over consecutive blocks concatenate to exactly the slice of memory they cover |
| ByteArray.ByteArray.GetReadBuffers | src/io/bytearray.cpp:573-643 | nothing when too much is asked for; otherwise pieces whose bytes concatenate to exactly the requested slice; a null dereference exactly when the slice passes the capacity or the walk passes the chain |
| ByteArray.ByteArray.ReadBuffersHoldData | src/io/bytearray.cpp:573-599 | from any place up to the position the getter is safe and its slice lies in the data |
| ByteArray.ByteArray.GetWriteBuffers | src/io/bytearray.cpp:646-698 | data and position are unchanged, the capacity grows as for a write, and the pieces cover the next bytes; a null dereference exactly for size 0 at full capacity |
| ByteArray.ByteArray.Scatter | src/io/bytearray.cpp:664-694 | filling the pieces in order overwrites the memory from the first of them on, and nothing else |
| ByteArray.ByteArray.Receive | src/io/socket-stream.cpp:28-46 | get buffers, fill them, set the position: equal to writing the received bytes, except that it dies when they end at the capacity |
| ByteArray.ByteArray.ReceiveDiesIff | src/io/socket-stream.cpp:34-38 | it dies if and only if all that was asked for arrives and ends on a block border at or beyond the old capacity |
| Blocks.FlatOverwrite | src/io/bytearray.cpp:351-383 | overwriting inside one block is overwriting the flat memory at that block's place |
| Blocks.WrittenTwice | src/io/bytearray.cpp:335-390 | two writes in a row are one write of both |
| Blocks.WrittenAt | src/io/bytearray.cpp:335-390 | byte by byte, a write puts its bytes at the position and leaves every other byte |
| Blocks.OverwriteAt | src/io/bytearray.cpp:351-383 | the same of memory that is overwritten |
| Blocks.BlocksFor | src/io/bytearray.cpp:792-795 | the number of blocks added covers the missing bytes with less than one block to spare |
| Sessions.Run | src/io/bytearray.cpp:335-444 | any run of write, read, setPosition, clear and toString, from any valid state and for any block size, gives the answers and states of the flat buffer until it ends or dies setting the position to the capacity |
| Sessions.StepSound | src/io/bytearray.cpp:701-778 | a step of the flat buffer keeps position, data size and capacity in order and the capacity in whole blocks, and crashes exactly when the position is set to the capacity |
| Sessions.WriteStep | src/io/bytearray.cpp:335-390 | what a write does to the flat buffer: each byte, the position, a data size no longer than needed, and a capacity that grows only when there is no room and then by whole blocks with less than one to spare |
| Sessions.WrittenIsRead | src/io/bytearray.cpp:335-444 | bytes written anywhere, after setting the position back, are read back |
| Encoding.FixedRoundTrip | src/io/bytearray.cpp:48-79 | reading a fixed-width number back gives its value modulo the width |
| Encoding.LittleEndianAt | src/io/bytearray.cpp:48-79 | byte i of a fixed-width number is its digit i in base 256 |
| Encoding.FromLittleEndianAt | src/io/bytearray.cpp:173-220 | the number some bytes stand for has just these digits |
| Encoding.TwosComplement | src/io/bytearray.cpp:48-79 | the bits of a signed number are the number itself or, if negative, the number plus the bound of its width |
| Encoding.ZigzagRoundTrip | src/io/bytearray.cpp:848-885 | decoding and encoding are inverse both ways for every number and code, the smallest number included, and a code is 2n or -2n-1 |
| Encoding.VarintLength | src/io/bytearray.cpp:86-105 | k bytes suffice for a varint exactly when the number is below 2 to the power 7k |
| Encoding.VarintFits | src/io/bytearray.cpp:88-112 | a 32-bit number never needs more than the 5 bytes of the buffer and a 64-bit number never more than 10 |
| Encoding.VarintRoundTrip | src/io/bytearray.cpp:227-248 | an encoded number is read back wherever it stands, and nothing behind it is touched |
| Encoding.VarintAt | src/io/bytearray.cpp:86-105 | byte i of a varint is its digit i in base 128, with the high bit set in every byte but the last |
| Encoding.VarintStops | src/io/bytearray.cpp:227-248 | for any bytes a varint ends with the first byte below 128 or with the last group allowed, and its digits are the low seven bits of its bytes |
| Encoding.VarintRunsShort | src/io/bytearray.cpp:227-248 | it runs short exactly when the data end before either |
| TypedStream.FillGroups | src/io/bytearray.cpp:86-104 | the loop over the local buffer, with its masks and shifts, leaves exactly the varint of the number |
| TypedStream.GroupBytes | src/io/bytearray.cpp:95-101 | masking with 0x7F keeps the low seven bits and joining 0x80 sets the continuation bit above them |
| TypedStream.GroupCutDown | src/io/bytearray.cpp:235-245 | joining a shifted group, cut down to the type, to the result so far is adding it and cutting down the sum |
| TypedStream.WriteVarint | src/io/bytearray.cpp:86-128 | the data are extended or overwritten by the varint of the value |
| TypedStream.ReadVarint | src/io/bytearray.cpp:227-274 | for any bytes at all: the value of at most 5 or 10 groups cut down to the type, or out of range where the data end, with the position where reading stopped |
| TypedStream.WriteFixed | src/io/bytearray.cpp:48-79 | the data are extended or overwritten by the little-endian bytes of the number |
| TypedStream.ReadFixed | src/io/bytearray.cpp:173-220 | the number whose bytes stand at the position, or out of range without moving |
| TypedStream.WriteText | src/io/bytearray.cpp:142-164 | the length, cut down to the prefix type, and then the whole string, as TypedStream.PrefixOnWire fixes the bytes |
| TypedStream.ReadText | src/io/bytearray.cpp:296-332 | the length, as TypedStream.PrefixFromWire fixes its bytes, and then that many bytes; a length error when no string can have that length, out of range when length or bytes are not there |
| TypedStream.PrefixOnWire | src/io/bytearray.cpp:142-169 | the prefix of a string is two, four or eight bytes or a varint, and holds the length modulo 2 to the power 16, 32 or 64 digit by digit |
| TypedStream.OnWire | src/io/bytearray.cpp:48-169 | the bytes of every kind of value: base 256 for fixed widths, two's complement if signed, base 128 for compressed ones, 2n or -2n-1 if signed, prefix and string for strings |
| TypedStream.FixedFromWire | src/io/bytearray.cpp:173-220 | for any data a fixed-width reader takes exactly its width and gives the number with those bytes, or takes nothing when they are not there |
| TypedStream.CompressedFromWire | src/io/bytearray.cpp:227-274 | for any data a varint reader takes the bytes up to the first below 128, but never more than 5 or 10, and cuts the number down to its type |
| TypedStream.CompressedRunsShort | src/io/bytearray.cpp:227-274 | it runs short exactly when the data end before that, having moved to their end |
| TypedStream.PrefixFromWire | src/io/bytearray.cpp:296-332 | for any data the length is the two, four or eight bytes at the position or a varint of 64 bits, and runs short exactly when they are not there |
| TypedStream.NumberFromBits | src/io/bytearray.cpp:173-293 | what a reader makes of the bits it took: themselves, or the number whose two's complement or zigzag code they are |
| TypedStream.NumberFromWire | src/io/bytearray.cpp:173-293 | which of the two ways of taking bits the reader of each kind of number uses, errors included |
| TypedStream.TextFromWire | src/io/bytearray.cpp:296-332 | for any data a string reader gives exactly the bytes behind the length, or the error that belongs to a length too long or bytes not there |
| TypedStream.TextReadsBack | src/io/bytearray.cpp:142-164 | a string reader returns as much of the string as its prefix could count |
| TypedStream.ReadsBackIff | src/io/bytearray.cpp:142-169 | a value of any kind is read back whole if and only if its length, for a string, fits the prefix type |
| TypedStream.ListReadsBack | src/io/bytearray.cpp:173-332 | any list of typed values written one after the other is parsed back, up to its last byte |
| TypedStream.WriteAll | src/io/bytearray.cpp:48-169 | writing a list of values writes the concatenation of their encodings |
| TypedStream.ReadAll | src/io/bytearray.cpp:173-332 | the matching readers return what parsing the data from the position gives, errors included |
| TypedStream.Exchange | src/io/bytearray.cpp:48-332 | for any block size: a list written to an empty array, position 0, the matching readers: the same list, nothing left to read |
| TaskQueue.Scan | src/concurrent/scheduler.cpp:218-255 | the index found is exactly that of the first task that is unpinned or pinned to this thread and whose fiber is not running |
| TaskQueue.ScanTakes | src/concurrent/scheduler.cpp:218-255 | the same in the fields alone: pin and fiber of each task passed over and of the one taken |
| TaskQueue.TakenTogetherIff | src/concurrent/scheduler.cpp:213-268 | for a fiber that is not running and not pinned: threads, each taking once, can together take n entries of it before any of them swaps it in if and only if it is queued n times |
| TaskQueue.NoTaskLostOrDoubled | src/concurrent/scheduler.cpp:137-262 | over every sequence of pushes and takes each task is still queued, in order, or was taken exactly once by a thread it may run on |
| Accounts.NoTaskLostInRuns | src/concurrent/scheduler.cpp:137-262 | the same over every run of the runtime: its task list is the queue of the ledger whose pushes and takes are read off the steps of the run, each take that of the first eligible task |
| Accounts.StepQueues | src/concurrent/scheduler.cpp:137-166 | what each step puts at the end of the queue, going by its arguments: a submitted callback in a new fiber with the pin it was given; a resubmitted or ready fiber, a woken sleeper and a scheduled callback unpinned; of triggered events the reader and then the writer |
| Accounts.PinIsKept | src/concurrent/scheduler.cpp:137-246 | a task submitted with a pin at any time in any run is, whatever happens, in the queue with that pin or was taken once, and then by the worker it is pinned to |
| IoManager.IoManager.Schedule | src/concurrent/scheduler.cpp:137-159 | a task with a fiber goes to the end of the list; a tickle is wanted exactly when the list was empty |
| IoManager.IoManager.TakeTask | src/concurrent/scheduler.cpp:205-262 | takes the first eligible task and only that, keeps the others in order, counts the thread active, and asks for a tickle exactly when it passed a task pinned elsewhere |
| IoManager.IoManager.TaskReturned | src/concurrent/scheduler.cpp:268-285 | one active thread fewer, a ready fiber back at the end unpinned, anything else not dead put on hold |
| IoManager.IoManager.constructor | src/concurrent/iomanager.cpp:28-78 | an empty table of 32 entries, each named after its place, an empty epoll set, no tasks, and the scheduler started |
| IoManager.IoManager.Resize | src/concurrent/iomanager.cpp:567-581 | every old entry stays in its place and every new place gets an empty entry of its own number |
| IoManager.IoManager.TriggerEvent | src/concurrent/iomanager.cpp:8-25 | asserts unless the event is registered; otherwise clears the bit and schedules the waiter |
| IoManager.IoManager.AddEvent | src/concurrent/iomanager.cpp:92-172 | the state after it is that of the specification function, whether it succeeds, is refused by epoll_ctl or asserts |
| IoManager.IoManager.DeleteEvent | src/concurrent/iomanager.cpp:175-239 | likewise for removing an event without waking its fiber |
| IoManager.IoManager.SettleEvent | src/concurrent/iomanager.cpp:242-298 | likewise for removing an event and waking its fiber |
| IoManager.IoManager.SettleAllEvents | src/concurrent/iomanager.cpp:301-373 | likewise for all events of a descriptor, READ before WRITE |
| IoManager.IoManager.HandleReport | src/concurrent/iomanager.cpp:487-552 | one epoll report: the answer and the state of the specification function, which EventTable.ReportResult fixes |
| IoManager.IoManager.HandleReports | src/concurrent/iomanager.cpp:472-553 | the loop over a batch of reports does them one after the other until one asserts, as EventTable.BatchResult fixes |
| EventTable.GrowingKeepsInv | src/concurrent/iomanager.cpp:95-115 | growing keeps each entry at its number and the whole table invariant |
| EventTable.TriggerKeepsInv | src/concurrent/iomanager.cpp:8-25 | a trigger of a registered event clears one bit, schedules its known fiber, and keeps the counter and the conservation law |
| EventTable.AddKeepsInv | src/concurrent/iomanager.cpp:92-172 | after an add, refused or not, epoll's interest equals the registrations, the pending counter is the number of bits, adds are conserved, and every bit has a fiber |
| EventTable.DeleteKeepsInv | src/concurrent/iomanager.cpp:175-239 | the same after a delete, refused or not |
| EventTable.SettleKeepsInv | src/concurrent/iomanager.cpp:242-298 | the same after a settle, refused or not |
| EventTable.SettleAllKeepsInv | src/concurrent/iomanager.cpp:301-373 | the same after settling all, and then nothing is registered there |
| EventTable.DispatchKeepsInv | src/concurrent/iomanager.cpp:487-552 | the same after any report that does not assert |
| EventTable.DispatchAbortsIff | src/concurrent/iomanager.cpp:497-552 | with a willing kernel a report asserts if and only if some event to act on is registered (on an error, any event of the descriptor) and some reported event is not |
| EventTable.ReportResult | src/concurrent/iomanager.cpp:497-552 | for every report: on an error it acts on every registered event, else on the reported ones that are registered; done exactly if there is one, the kernel is willing and no reported one is unregistered; then those are no longer registered, epoll keeps the rest or lets go, and reader and writer are scheduled in that order, nobody else |
| EventTable.BatchResult | src/concurrent/iomanager.cpp:472-553 | a batch with one more report is the batch and then that report |
| EventTable.AddResult | src/concurrent/iomanager.cpp:92-172 | for every add: when it asserts, succeeds or is refused, the size the table grows to, and the registration, waiters, interest and counter afterwards |
| EventTable.DeleteResult | src/concurrent/iomanager.cpp:175-239 | for every delete: when it succeeds, what is left, and that nobody is scheduled |
| EventTable.SettleResult | src/concurrent/iomanager.cpp:242-298 | for every settle: when it succeeds, what is left, and that the event's fiber and nobody else is scheduled |
| EventTable.SettleAllResult | src/concurrent/iomanager.cpp:301-373 | for every settle-all: when it succeeds, and that then nothing is registered, epoll has let go, and reader and writer are scheduled in that order |
| EventTable.AddOnIdleDescriptor | src/concurrent/iomanager.cpp:118-149 | on a descriptor without registrations, with a willing kernel, an add succeeds if and only if epoll does not hold the descriptor |
| EventTable.AddAfterLastSettleFails | src/concurrent/iomanager.cpp:202-207 | right after settling or deleting a descriptor's last event an add on it fails, right after dispatch or settling all it succeeds |
| Safety.StaleUntilClosed | src/concurrent/iomanager.cpp:262-270 | a descriptor epoll holds with no interest stays so over every run until it is closed, and every add on it is refused |
| Safety.UnusableAfterTimeout | src/concurrent/hook.cpp:91-122 | one timeout that settles the last event of a descriptor makes every later wait on it, in do_io, connect or ordinary code, fail until it is closed |
| Registrations.StepFollows | src/concurrent/iomanager.cpp:92-373 | after any step an event is registered if and only if the step adds it, or it was and the step does not delete, settle or dispatch it; and for the fiber it was added for |
| Registrations.RegisteredIff | src/concurrent/iomanager.cpp:92-373 | over every run an event is registered if and only if replaying the adds and removals of the steps says so |
| Registrations.WatchMakesWaiter | src/concurrent/iomanager.cpp:150-172 | an add by ordinary code brings one new fiber waiting for the event if it succeeds and none otherwise |
| Registrations.UnwatchForgets | src/concurrent/iomanager.cpp:214-239 | a successful delete takes the waker from the event's fiber and changes no other fiber and no other call |
| Registrations.CloseLetsGo | src/concurrent/hook.cpp:481-493 | closing a descriptor takes it out of epoll and changes nothing else |
| Fibers.Coroutine.Reset | src/concurrent/fiber.cpp:91-120 | asserts unless the coroutine has a stack and has not begun or has ended; otherwise a fresh callback in the initial state |
| Fibers.Thread.SwapIn | src/concurrent/fiber.cpp:123-144 | makes the coroutine current and running; asserts exactly when it was running already |
| Fibers.Thread.GiveBack | src/concurrent/fiber.cpp:186-273 | the state word left by each way of giving the thread back; the callback is forgotten only by a normal end |
| Fibers.Thread.Turn | src/concurrent/scheduler.cpp:264-285 | the state word after one turn for each way of giving the thread back; it is never left running |
| Fibers.StateAfterTurn | src/concurrent/scheduler.cpp:264-285 | ready exactly after YieldToReady, terminal exactly after a normal end, failed exactly after an exception, else on hold |
| Weave.TakeWeave | src/concurrent/scheduler.cpp:213-268 | taking a task and swapping its fiber in keeps the invariant that ties fibers, slots, queue entries, calls and timers together |
| Weave.ReturnWeave | src/concurrent/scheduler.cpp:268-285 | a fiber giving its thread back keeps it, for every ending its code allows |
| Weave.DispatchWeave | src/concurrent/iomanager.cpp:487-552 | handling a report keeps it |
| Weave.PopWeave | src/concurrent/timer.cpp:263-274 | popping an expired timer, one-shot or recurring, keeps it |
| Weave.RearmWeave | src/concurrent/timer.cpp:284-288 | putting a recurring timer back and handing its callback on keeps it |
| Weave.DeliverWeave | src/concurrent/iomanager.cpp:461-469 | scheduling a popped callback keeps it |
| Weave.IoArmWeave | src/concurrent/hook.cpp:69-100 | arming a call's timer keeps it |
| Weave.IoRegisterWeave | src/concurrent/hook.cpp:102-122 | registering the fiber for its event keeps it, refused or not |
| Weave.IoCancelWeave | src/concurrent/hook.cpp:111-128 | cancelling the timer after waking or refusal keeps it, a refused do_io failing and a refused connect going on to ask the socket; a timer no longer in the set is left alone, where the source erases the end iterator |
| Weave.IoJudgeWeave | src/concurrent/hook.cpp:129-136 | reading the flag keeps it, whichever way Outcomes.CallJudges says the call goes |
| Weave.SleepBeginWeave | src/concurrent/hook.cpp:185-205 | arming the wake-up timer of a sleep keeps it |
| Weave.WakeWeave | src/concurrent/hook.cpp:198-200 | the callback of a sleep's timer keeps it |
| Weave.LockWeave | src/concurrent/timer.cpp:21-30 | a timeout callback trying its condition keeps it |
| Weave.CallbackSettleWeave | src/concurrent/hook.cpp:91-97 | a timeout callback settling the event keeps it |
| Weave.SettleAllWeave | src/concurrent/iomanager.cpp:301-373 | settling all events, as closing a descriptor does, keeps it |
| Weave.UnwatchWeave | src/concurrent/iomanager.cpp:175-239 | deleting an event keeps it, its waiter being the only one abandoned |
| Crew.TakeKeepsCrew | src/concurrent/scheduler.cpp:245-268 | taking keeps one running fiber to one worker and the counters right |
| Crew.ReturnKeepsCrew | src/concurrent/scheduler.cpp:268-285 | returning keeps the same |
| Crew.IdleEndsIff | src/concurrent/iomanager.cpp:418-428 | whatever the step, a worker's idle fiber ends exactly in the last read of isCompleted with the scheduler stopped, no task and nobody active, or is never started because the caller's thread finds that in the last of its own three reads |
| Completion.IdleEndsAfterThreeReads | src/concurrent/iomanager.cpp:403-428 | over every run a worker whose idle fiber has ended has found, at three moments in this order and with no other step of its own between them, no timer in the set, no event pending, and the scheduler stopped with no task and nobody active |
| Completion.ScanningChoice | src/concurrent/scheduler.cpp:213-331 | a scanning worker has exactly one way on: the first task it may take, or without one its idle fiber, or the exit if that has ended |
| Completion.TakingIt | src/concurrent/scheduler.cpp:245-290 | taking counts it in and removes that one entry; a dead fiber is left as it is, any other runs on this worker |
| Completion.GivingItBack | src/concurrent/scheduler.cpp:268-285 | giving the worker back counts it out and leaves the fiber ready with one more entry, dead, or on hold where it stands, after each ending |
| Completion.Idling | src/concurrent/iomanager.cpp:409-443 | the phases of a worker in its idle fiber: a read that is not as isCompleted wants it sends it to poll, the third that is ends the fiber; the idle and active counters follow |
| Progress.WorkerGoesOn | src/concurrent/scheduler.cpp:205-341 | in every reachable state a worker that runs no fiber and has not exited has a step of its own |
| Progress.RunningGoesOn | src/concurrent/hook.cpp:59-135 | over every run of considerate code a running fiber has a next step, unless it is about to register an event that is registered already, which asserts |
| Progress.HookGoesOn | src/concurrent/hook.cpp:59-135 | which step that is, wherever in a hooked call or a callback the fiber stands |
| Progress.CodeGoesOn | src/concurrent/fiber.cpp:186-273 | ordinary code can give its worker back in any way and do everything else; only adding a registered event asserts |
| Completion.StoppedIff | src/concurrent/scheduler.cpp:111-112 | the scheduler is stopped exactly when somebody has stopped it |
| Safety.StepKeepsInv | src/concurrent/scheduler.cpp:170-344 | every step of every kind keeps the whole invariant, as long as ordinary code schedules by hand only fibers that are over or hold themselves |
| Safety.ReachableInv | src/concurrent/scheduler.cpp:170-344 | it holds in every state any considerate run reaches, for any pool size, with or without the caller's thread |
| Safety.EventsConserved | src/concurrent/iomanager.cpp:92-373 | over every run, with ordinary code scheduling whatever fiber it likes: successful adds are deletes plus triggers plus registered bits, the pending counter is the number of bits, epoll mirrors the registrations, and slot i is descriptor i |
| Safety.EveryEventHasItsWaiter | src/concurrent/iomanager.cpp:145-170 | over every run a registered event names a fiber waiting for just that event, and a trigger schedules it |
| Safety.NobodyStranded | src/concurrent/hook.cpp:58-143 | over every run each fiber parked by do_io, connect or sleep has a registered event, a queue entry of its own, or a wake-up timer under way |
| Safety.CompletedAndParked | src/concurrent/iomanager.cpp:403-407 | when isCompleted holds, a fiber is still parked if and only if a wake-up callback has been popped and not scheduled yet |
| Races.CompletedTooSoon | src/concurrent/iomanager.cpp:403-469 | a run in which isCompleted holds while a sleeping fiber is still parked |
| Safety.CompletionPermanent | src/concurrent/iomanager.cpp:403-427 | completed with no callback in flight, no run of the runtime, however ordinary code schedules fibers, makes it incomplete again |
| Safety.InFlightUndoesCompletion | src/concurrent/iomanager.cpp:461-469 | with a popped timer in a worker's hands that worker's next step, re-arming it or scheduling its callback, makes it incomplete |
| Safety.CompletionPermanentIff | src/concurrent/iomanager.cpp:403-427 | a completed state stays completed under every step of the runtime if and only if no callback is in flight |
| Safety.ShutdownLeavesNoTask | src/concurrent/scheduler.cpp:93-134 | once all workers have exited, with nothing from outside after the stop and however ordinary code schedules fibers, the queue is empty, nobody runs and no callback is in flight |
| Safety.ShutdownStrandsIff | src/concurrent/scheduler.cpp:286-341 | after such a shutdown a fiber is left parked if and only if its wake-up timer is still armed or its event still registered |
| Races.ShutdownStrandsSleeper | src/concurrent/iomanager.cpp:403-427 | a run in which every worker exits and a sleeper's timer is still armed, because the three conditions of isCompleted are read one by one |
| Safety.WorkersAccounted | src/concurrent/scheduler.cpp:245-341 | over every run of the model's steps, with ordinary code scheduling whatever fiber it likes, running or parked: the active counter is the number of workers between take and return, the idle counter the number in their idle fiber, and a fiber is running exactly when exactly one worker runs it; for a fiber queued twice the last part rests on take and `swapIn` being one step |
| Safety.DeadForGood | src/concurrent/scheduler.cpp:264-265 | over every such run a terminated or failed fiber stays as it ended and is never swapped in again, unless it is reset; for a fiber queued twice this too rests on the check and `swapIn` being one step with the take |
| Safety.OneEntryEach | src/concurrent/scheduler.cpp:137-159 | over every run of considerate code a living fiber is queued at most once |
| Handover.RunSplits | src/concurrent/scheduler.cpp:245-268 | every run of the model, considerate or not, is a run of the finer one in which a worker first takes a task and later swaps it in, with any steps of the others in between |
| Handover.HandoverMerges | src/concurrent/scheduler.cpp:213-268 | every run of considerate code in the finer model is a run of the coarser one, whose states differ only in having swapped in already what is held |
| Handover.OneWorkerPerFiber | src/concurrent/fiber.cpp:123-144 | so over every such run no `swapIn` finds its fiber running, and a living fiber belongs to one worker from the take to the return |
| Handover.TwoWorkersOneFiber | src/concurrent/fiber.cpp:128-137 | a run in which a fiber schedules itself and then yields READY: two workers take its two entries, and when one has swapped it in the other's `swapIn` asserts |
| Wakeups.OnlyTakeWakes | src/concurrent/scheduler.cpp:264-268 | a fiber waiting in do_io or connect is woken by being taken from the queue and by nothing else |
| Wakeups.AtMostOneWake | src/concurrent/hook.cpp:102-122 | while it waits it has been scheduled once if its event is gone and never while it is registered |
| Wakeups.ExactlyOneWake | src/concurrent/hook.cpp:79-135 | every wait that starts with a registered event is ended by exactly one schedule of that fiber, whoever triggers it |
| Wakeups.SettleUnparks | src/concurrent/hook.cpp:91-97 | a settling timeout callback takes a registered event away exactly when epoll_ctl lets it, and then a fiber waiting in that call has one queue entry |
| Wakeups.SettleSchedules | src/concurrent/hook.cpp:91-97 | it schedules the call's fiber exactly when the call's event is registered for it and epoll_ctl succeeds |
| Wakeups.TimeoutLostIff | src/concurrent/hook.cpp:79-122 | after a timeout callback has settled for a standing call, and over every run in which nobody else touches the fiber, it has left the fiber without a wake-up if and only if the fiber was not waiting in the call or its event was registered and epoll_ctl failed |
| Wakeups.LostMeansParked | src/concurrent/hook.cpp:99-122 | under just that condition a fiber that waits in the call at the end of such a run is left parked with its event registered |
| Races.EarlyTimeoutIsLost | src/concurrent/hook.cpp:99-103 | a run in which the callback runs between addTimer and addEvent: the call with a timeout ends up parked, its flag set, its timer spent, nothing left to wake it but the event |
| Wakeups.TimedOutByOwnTimer | src/concurrent/hook.cpp:129-134 | ETIMEDOUT comes only from a call with a timeout one of whose own timers fired while the call stood |
| Wakeups.LockOnlyWhileAlive | src/concurrent/timer.cpp:21-30 | a timeout callback gets past its lock if and only if the call stands or another callback of it holds a lock; failing, it changes nothing |
| Wakeups.ReturnedForGood | src/concurrent/hook.cpp:53-76 | a call that has returned with no callback of it past the lock is never locked again |
| Wakeups.LeftoverCallbackInert | src/concurrent/hook.cpp:79-97 | from then on none of its leftover callbacks changes a registration, sets a flag or schedules a fiber |
| Wakeups.LeftoverActsIff | src/concurrent/hook.cpp:79-97 | a callback of a returned call changes a registration or the queue if and only if it is past its lock, the event is registered and epoll_ctl succeeds |
| Outcomes.CallBegins | src/concurrent/hook.cpp:51-59 | a call begins before the original function, for the descriptor, event and timeout it was asked for |
| Outcomes.CallArms | src/concurrent/hook.cpp:78-100 | a call that has to wait arms one one-shot timer of its own exactly if it has a timeout |
| Outcomes.CallRegisters | src/concurrent/hook.cpp:102-103 | it registers for its event exactly if the kernel is willing and the descriptor has another event or epoll does not hold it |
| Outcomes.CallCancels | src/concurrent/hook.cpp:104-128 | a refused registration ends do_io as failed and sends connect on to the socket's error; a woken call goes on to its flag |
| Outcomes.CallJudges | src/concurrent/hook.cpp:129-136 | with the flag set it returns ETIMEDOUT; without, do_io stands before the original function again with its call standing, and connect ends with the socket's error |
| Outcomes.EveryResultIsGiven | src/concurrent/hook.cpp:59-135 | over every run a call has a result only because a step of the run gave it that one: a return of the original function, a refused registration or the reading of the flag, each only where it can |
| Outcomes.FinishesByReturning | src/concurrent/hook.cpp:59-76 | over every run a do_io call finishes only by a return of the original function |
| Outcomes.ConnectWaitsOnce | src/concurrent/hook.cpp:310-372 | over every run a connect that has gone on to wait never tries the original function again |
| Leftovers.StepKeepsOwned | src/concurrent/hook.cpp:79-128 | every step keeps this: a timeout timer in the set belongs to a call that is still to cancel it |
| Leftovers.NoTimerOutlivesItsCall | src/concurrent/hook.cpp:111-128 | over every run a call that has returned has no timer left in the set |
| Leftovers.FlagDecides | src/concurrent/hook.cpp:91-134 | once a timeout callback has found its call standing, the flag stays set over every run, and whenever the call reads it, it returns ETIMEDOUT |
| Leftovers.TimedOutErasesEnd | src/concurrent/hook.cpp:111-134 | over every run a call that has returned ETIMEDOUT has on its way cancelled a timer that was no longer in the set, so every ETIMEDOUT of the library has been through an erase of the end iterator |
| Leftovers.FlaggedCancelErasesEnd | src/concurrent/timer.cpp:79-101 | cancelling the timer that set the flag is such a cancellation |
| TimerLives.StepOnTimers | src/concurrent/iomanager.cpp:461-470 | what each step does to each timer: which one it makes, and which it pops, puts back, schedules, ends or cancels |
| TimerLives.TimerOverRun | src/concurrent/timer.cpp:276-294 | over every run a one-shot timer is popped and its callback scheduled at most once, exactly as its place then shows; a recurring one goes back once for each time it is popped and stays recurring |
| TimerLives.CallbackScheduled | src/concurrent/iomanager.cpp:464-468 | a popped callback is scheduled once, in a new fiber at the end of the queue |
| TimerLives.CallbackRuns | src/concurrent/hook.cpp:82-97 | sleep's callback schedules its sleeper; a timeout's sets the flag if its call stands, and then settles the call's event |
| Races.LateSettleWakesLaterCall | src/concurrent/hook.cpp:79-97 | a run in which a callback that got past its lock before the call returned settles the event of a later call on the same descriptor, if the first call survives erasing the end iterator |
| Timers.StrictTotalOrder | src/concurrent/timer.cpp:34-56 | the comparator, null pointers included, is irreflexive, transitive, total and asymmetric: null first, then the earlier time, then the lower address |
| Timers.TimerManager.AddTimer | src/concurrent/timer.cpp:66-76 | the set stays strictly ordered; a new timer stands between the others, which keep their order; true exactly when it stands first |
| Timers.TimerManager.CancelTimer | src/concurrent/timer.cpp:79-101 | removes just this timer; false exactly without a callback; erases the end iterator exactly when the timer has a callback and is not in the set |
| Timers.TimerManager.RefreshExecuteTime | src/concurrent/timer.cpp:104-136 | true exactly for a timer in the set with a callback; then it is due one cycle from now and stands where that puts it, all others unchanged |
| Timers.TimerManager.ResetRunCycle | src/concurrent/timer.cpp:139-190 | the four outcomes; the new due time is counted from now or moved by the change of the cycle, modulo 2 to the power 64; all others unchanged |
| Timers.Shifted | src/concurrent/timer.cpp:170-184 | moving a due time through the unsigned start time gives the moved time whenever that is representable |
| Timers.TimerManager.TimeUntilNext | src/concurrent/timer.cpp:202-228 | all ones without timers, otherwise the time to the first due time, or 0 when it has passed |
| Timers.TimerManager.GetExpiredCallbacks | src/concurrent/timer.cpp:231-295 | the callbacks of a prefix of the set in key order: everything after a rollback, else all due before now and none due after; one-shots leave, recurring ones are due one cycle from now, the rest is unchanged, the set stays ordered |
| Timers.TimerManager.Fire | src/concurrent/timer.cpp:276-294 | each expired timer's callback once and in order, and exactly the recurring ones back in the set |
| Timers.RearmedAheadIff | src/concurrent/timer.cpp:284-288 | a re-armed timer is due at or after now if and only if the sum does not wrap |
| Timers.RollbackSeenIff | src/concurrent/timer.cpp:299-306 | it answers whether the clock went back over an hour if and only if the last time was at least an hour after the epoch or now is in the last hour representable |
| Waits.WaitIsBounded | src/concurrent/iomanager.cpp:429-443 | the poll waits at most 3000 ms, outlasts no deadline of the set, does not wait exactly when some timer is due, and waits less than 3000 ms only up to a deadline |
| Waits.PerformAdd | src/concurrent/iomanager.cpp:376-383 | an add makes a wait that outlasted no deadline outlast one if and only if it says "first" and the timer is due before the wait is over |
| Waits.PerformRefresh | src/concurrent/timer.cpp:104-136 | a refresh does so if and only if it moved the timer to before the end of the wait |
| Waits.PerformReset | src/concurrent/timer.cpp:139-190 | a reset does so if and only if it moved the timer to before the end of the wait |
| Waits.PerformExpire | src/concurrent/timer.cpp:231-295 | an expiry does so if and only if it re-arms a timer to before the end of the wait, and, unless the clock went back, only when the wait was over |
| Waits.Run | src/concurrent/timer.cpp:66-295 | over every run of adds, cancellations, refreshes, resets and expiries a wait already begun outlasts a deadline only if one of them put a deadline before its end; of these only an add that returned true tells anybody |
| Waits.ResetOutrunsWait | src/concurrent/timer.cpp:183-189 | for every set of one timer due in 3000 ms or later, resetting its cycle to less leaves a wait of 3000 ms that outlasts it |
| Address.CountBytes | include/tcp-ip/address.h:86-95 | the loop that clears lowest bits counts the bits set |
| Bits.ClearLowest | include/tcp-ip/address.h:89-92 | value and value - 1 joined by "and" have one bit fewer |
| Bits.BitsOfAndOr | include/tcp-ip/address.h:89-92 | bit by bit, "and" is set where both are and "or" where either is |
| Address.Subnet4 | src/tcp-ip/address.cpp:417-466 | all three are made exactly for 2 to 32 bits and null above; an address lies between network and broadcast address if and only if it has the same first p bits; the mask is the p high bits |
| Address.PrefixLength4 | src/tcp-ip/address.cpp:241-247 | the bits set in the netmask, whatever order the machine keeps its octets in |
| Address.PrefixLength6 | src/tcp-ip/address.cpp:249-257 | the sum of the bits set in the sixteen octets |
| Address.Ipv6Address.BroadcastAddress | src/tcp-ip/address.cpp:555-568 | undefined from 128 bits on; otherwise a new address with every host bit set, the own address and the port unchanged |
| Address.Ipv6Address.NetworkAddress | src/tcp-ip/address.cpp:571-584 | likewise with every host bit cleared |
| Address.Ipv6Address.MakeSubnetMask | src/tcp-ip/address.cpp:587-604 | likewise the mask of the prefix, without a port |
| Address.Subnet6 | src/tcp-ip/address.cpp:555-604 | for 0 to 127 bits an address lies between network and broadcast address if and only if it has the same first p bits, and the mask is the p high bits |
| Subnets.NetworkAndBroadcast | src/tcp-ip/address.cpp:555-584 | as big-endian numbers the network is the address with its low bits cleared and the broadcast address the same with them set |
| Subnets.BetweenIffSameNetwork | src/tcp-ip/address.cpp:417-448 | for any number of octets: between the two if and only if the leading bits agree, and if and only if the network is the same |
| Subnets.MaskCountsPrefix | src/tcp-ip/address.cpp:241-257 | the bits set in a subnet mask add up to its prefix length |
| Subnets.MaskOctet | src/tcp-ip/address.cpp:560-565 | the host mask is zeros, one partial octet and ones, as the loops over the octets set it |
| Ipv6Text.Print | src/tcp-ip/address.cpp:501-541 | the single pass prints the text, brackets and port that Ipv6Text.FirstRunLeftOut, PrintedLean and EndpointReadsBack fix |
| Ipv6Text.TextReadsBack | src/tcp-ip/address.cpp:501-541 | the reader of the RFC's text form gives back all eight groups of what is printed, for every address |
| Ipv6Text.FirstRunLeftOut | src/tcp-ip/address.cpp:511-537 | a "::" is printed if and only if some group is zero; what stands before it reads as the groups before the first run of zeros, what stands behind it as the groups behind that run |
| Ipv6Text.PrintedLean | src/tcp-ip/address.cpp:529-539 | every group is printed in lower case without leading zeros, and so is the port, in decimal |
| Ipv6Text.EndpointReadsBack | src/tcp-ip/address.cpp:501-541 | the whole text gives back address and port |
| Ipv6Text.PrintedOnce | src/tcp-ip/address.cpp:501-541 | two texts are equal if and only if addresses and ports are |

## Left out

- Foreign code: context switching, real epoll, threads, `dlsym`, sockets, name resolution, `inet_pton`, files, logging and backtraces. Epoll is a map from descriptor to interest, a switch is a change of state, the clock is an argument.
- The HTTP parsers, servlets, connection pool, configuration, log formatting, singletons and lock wrappers: they would add easy members only.
- Wake-up latency and liveness: what a tickle does, fairness, and that a timer fires in time. The runtime lets any armed timer expire at any moment.
- Interleavings inside a step: the state word set to HOLD before the context is saved, the unlocked counter decrement after `swapIn`, and the size check before the write lock of the table. Between a worker's take (src/concurrent/scheduler.cpp:213-256) and its `swapIn` (src/concurrent/scheduler.cpp:268) other steps can come; only `Handover` has them, and there the check for a dead fiber and the unlocked test and set of the state word (src/concurrent/fiber.cpp:129-137) are still one step. The gap between erasing and re-adding a timer in `refreshExecute_time` and `resetRun_cycle` is not modelled either.
- Runs go on only where no Assert is hit: a step that would assert ends the process and is not a step of the model. EventTable.DispatchAbortsIff and the methods of `IoManager` state when one is hit.
- Safety.ReachableInv: assumes considerate code, which schedules a fiber by hand only when it is over or holds itself with no entry queued; so do the wake-up theorems in Safety, Wakeups and Leftovers. A fiber scheduled while it waits in a hooked call would be woken by that. The theorems on workers, events, completion, shutdown and the task list assume nothing of the kind.
- Safety.WorkersAccounted: for a fiber queued twice, the gap between take and `swapIn` lets two workers take it before either runs it. TaskQueue.TakenTogetherIff says when, Handover.TwoWorkersOneFiber is such a run, and Handover.OneWorkerPerFiber rules it out for considerate code.
- Safety.DeadForGood: the same gap, and `Fiber::reset` (src/concurrent/fiber.cpp:91-120), which makes a dead fiber runnable again, is modelled by Fibers.Coroutine.Reset and is no step of the runtime.
- Handover.HandoverMerges: considerate code there does not schedule a fiber by hand that a worker has taken and not yet swapped in either, although such a fiber still holds itself and has no entry.
- Fibers that call `YieldToHold` on their own, and waiters of an event that `deleteEvent` removes: the source wakes neither, so the wake-up properties leave them out.
- Safety.NobodyStranded: does not count a timeout timer as a waker, because it settles the event and a registered event is required instead.
- Runtime.CancelTimer: takes cancelling a timer that is no longer in the set as doing nothing, where the source erases an end iterator; Timers.TimerManager.CancelTimer states exactly when that happens.
- Weave.IoCancelWeave: says nothing of what erasing that end iterator may do.
- Races.LateSettleWakesLaterCall: assumes that erasing the end iterator does nothing, because its first call returns ETIMEDOUT and so has done it. The other three runs never cancel such a timer.
- `Failed` and `Finished` are how a call ended for the library: what the original function or the socket's error then says is the kernel's.
- Weave.PopWeave: pops expired timers one at a time, where the source takes them out of the set together; every state in between is one more that the theorems hold in.
- Closing a descriptor whose settle-all was refused by epoll: the model closes only descriptors without registrations.
- The hooked calls other than do_io, connect and sleep, and the checks do_io makes before its loop (not hooked, no descriptor entity, closed, not a socket, user non-blocking), which only pass the call on. `usleep` and `nanosleep` are the model's sleep.
- `IoManager` models the methods of `Scheduler` and `IOManager` on value fields; the reference counts of shared pointers and the release of fibers are not modelled.
- The start-up half of `Scheduler` (thread creation) and the pipe used for tickling.
- ByteArray.ByteArray.Read: the caller's buffer is the sequence returned. Released blocks of `clear` are only unlinked, memory exhaustion and `size_t` overflow of the capacity are not modelled, and nothing is promised about the array after a null dereference.
- `writeToFile`, `readFromFile`, `toHexString`, and float and double values, whose reader copies eight bytes into a four-byte variable.
- TypedStream.ReadText: the greatest length a string can have is a constant of unknown value; that the memory for a shorter one is there is assumed.
- TypedStream.WriteFixed: fixes little-endian byte order, which the source takes from the machine.
- Encoding.EncodeZigzag: the negation of the smallest number wraps around, where the language leaves it undefined.
- Timers.TimerManager.GetExpiredCallbacks: does not say whether a timer due exactly now fires, because that depends on the address of a temporary object.
- Timer addresses are numbers no two live timers share; a timer's key is changed only through the manager.
- Address.Subnet4: prefix lengths 0 and 1 shift a signed 1 out of its range and are reported as undefined.
- The printer is not claimed to give the canonical form of RFC 5952; it also leaves out a single zero group.
