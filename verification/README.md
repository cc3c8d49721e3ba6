# r-cuse2net, verified

r-cuse2net puts a serial device of one machine under `/dev` of another.  A client process serves a
CUSE device, turns kernel requests into messages and sends them over TCP; a server process owns the
real device, executes the messages and answers.  This project models the logic of both sides in
Dafny 4.11 and proves what keeps requests, data and wake-ups from being lost, doubled or altered.

`dafny verify dfyconfig.toml` checks everything.

## How the model is built

- `ReadSpec`, `ReadScheduler`, `ReadProperties`, `ReadInner`: the server's read path.  Each
  lock-protected section and each system call is one step; a run is any interleaving of main thread
  and worker.  The queue, the pending slot, the worker's hand and the sync pipe refine one plain list.
- `PollServer`, `PollProperties`, `PollInner`: handles waiting for readiness, an edge-triggered epoll
  item, and wake-ups.
- `Client`, `ClientLedger`, `DeviceInner`: the client's table of outstanding requests, its callers,
  its receiving thread and the teardown.
- `System`, `SystemFlow`, `SystemSteps`, `SystemOrder`, `SystemCarried`, `SystemWrites`, `SystemReplies`,
  `SystemInvariant`: client, both directions of the connection, dispatch, scheduler and poll side as one
  transition system, and its invariant.
- `Events`, `SystemDeeds`, `SystemAnswers`: what the device did for each request, and that the kernel is told
  exactly that, without reference to the functions that convert and dispatch.
- `SystemProperties`, `SystemDelivery`, `SystemWire`, `SystemDeadlock`, `SystemRuns`: the theorems about every
  reachable state, about whole runs, and about the bytes behind the messages.
- `RealDevice`: the server's main thread as an object.
- `Endian`, `Records`, `Protocol`, `Responses`, `Stream`, `RequestFlags`: numbers, frames, and receiving
  from a connection that delivers bytes in any pieces.
- `Bits`, `IoctlNumber`, `Termios`, `IoctlArg`, `IoctlProperties`: ioctl numbers, the fix-up table and
  the two-sided translation of arguments.
- `CuseMessages`, `CuseReplies`: the kernel's message format in both directions.
- `Positions`, `WireLayout`, `CuseLayout`, `TermiosLayout`: where each field stands in the bytes of network messages,
  kernel messages and terminal settings, with the numbers written out.

Classes hold what the program updates in place (`ReadInner`, `PollInner`, `DeviceInner`, `Device`,
`Connection`, `ReadBufIter`); their methods are proved against the transition systems or parsers.

## What does not hold

Some properties one would expect are false of the code; each has a run or an input that shows it and the
exact condition under which it holds.

- The main thread can block for good on a full sync pipe while it holds the lock that the worker needs
  (`ServerDeadlocks`, `StuckForever`, `DeadlockExactly`, `FewSignalsNeverDeadlock`).
- An interrupt has no effect while the worker holds the read (`InterruptCanBeLost`, `InterruptExactly`).
- A poll for RDBAND or WRBAND is never woken by that event, and a second poll on a handle replaces the first
  (`GuaranteedExactly`, `SecondPollReplacesFirst`, `LastRegistrationCounts`).
- The client announces writes of up to 0x1F000 bytes to the kernel (src/cuse2net-cuse.rs:99), the server
  receives at most 0xFFF0 (`WriteLimitExactly`, `WriteAnsweredExactly`).
- More than 8192 wake-ups at once make a message the client cannot receive (`TooManyWakeups`).
- TIOCMGET changes its value between hosts of different byte order (`ModemLinesExactly`).
- An ioctl that transfers data but has size zero is retried forever (`RetriedForever`, `RetriedOnceExactly`); ioctls outside the
  supported set can end or panic the process (`OutcomeExactly`).
- An invalid access mode arrives as read-only (`FlagsKept`).

## Assumptions

- Sequence numbers do not wrap around 2^64, the numbers of kernel requests are distinct, and system calls
  fail with non-zero error numbers.
- One vectored send is atomic, and sending on a socket that was shut down fails.
- A vector allocated for n elements has capacity n, and both ends lay out the ioctl reply record alike.
- Writes to the kernel succeed; the read buffer for kernel messages starts at an aligned address.
- In the composed system the two directions carry whole messages in order, and one is taken only if its payload
  has at most 0x10000 bytes.  `SystemWire` shows that this is what receiving from the bytes does, for numbers
  within their fields; the methods of `Stream` show it for bytes that arrive in any pieces.
- A write of a sync byte succeeds once there is room (the source only logs a failure, src/realdev/read.rs:74-78),
  and waiting for epoll events does not fail (a failure ends the poll worker, src/realdev/poll.rs:227).

## Model

| member | source | states |
|---|---|---|
| `SystemProperties.ResponseMeetsRequest` | src/virtdev/device.rs:110-167 | In every reachable state of client, channels and server, a response in the receiver's hand has its request in the table, of the right kind and convertible; the "no such request", "unexpected response" and bad-argument arms were never taken |
| `SystemProperties.ExactlyOnePlace` | src/virtdev/device.rs:203-296 | A request handed to the client is at every moment in exactly one of: answered, about to get EIO, in the receiver's hand, in the table; one never handed in is in none |
| `SystemProperties.AnsweredOnce` | src/virtdev/device.rs:203-296 | No kernel request gets two replies, and every reply is for a request that was handed in |
| `SystemProperties.ReplyOrigin` | src/virtdev/device.rs:95-167 | A request that was sent is answered because of a frame the server sent for that very message (`SystemAnswers.ReplyTells` states with what), or with EINTR because it was left at teardown; a request whose send failed gets EIO, an undecodable one EINVAL, and every reply is for one of these three |
| `SystemProperties.SingleTableMatch` | src/virtdev/device.rs:298-315 | At most one table entry carries a given kernel request number, so the assertion on a second match holds |
| `SystemProperties.TeardownComplete` | src/virtdev/device.rs:203-241 | When the receiving thread is done, each request handed in is answered, or is one whose failed send is about to be answered with EIO, and never both |
| `SystemProperties.TableAnswered` | src/virtdev/device.rs:233-238 | Every entry left in the table after teardown was answered |
| `SystemProperties.DoneIsShut` | src/virtdev/device.rs:233-238 | The socket is shut down before the receiving thread is done |
| `SystemProperties.LaterRequestsFail` | src/virtdev/device.rs:243-296 | On every run after teardown nothing more is sent, the table stays as it is, and each further reply is EIO or EINVAL |
| `SystemProperties.WireOrder` | src/proto/request.rs:181-217 | Non-interrupt sequence numbers on the wire strictly increase, and each interrupt names a request sent before it on this connection |
| `SystemProperties.ReadsDistinct` | src/realdev/mod.rs:113-126 | Blocking reads reach the server's scheduler with strictly increasing numbers, so all numbers it sees are distinct |
| `SystemProperties.BlockingReadOnce` | src/realdev/read.rs:205-281 | In the composed system every blocking read the server took is in exactly one of: queue, pending slot, worker's hand, answered |
| `SystemProperties.SingleQueueMatch` | src/realdev/read.rs:112-126 | In the composed system two queued reads never share a number, so the assertion on a single queue match holds |
| `SystemProperties.LateInterrupt` | src/realdev/mod.rs:106-108 | An interrupt for a read that was already answered changes neither queue nor slot and sends nothing |
| `SystemProperties.BytesDelivered` | src/virtdev/device.rs:145-146 | Without non-blocking reads, the data given to the kernel in reply order, then what the receiver, the connection and the worker hold, is exactly what was read from the device |
| `SystemProperties.WakeupsDelivered` | src/virtdev/device.rs:169-201 | The handles notified to the kernel, then those still on the connection, are exactly those the server woke, in order; none is notified more often than polls on it asked to be notified of some event and were told that nothing is ready |
| `SystemProperties.AskedUnder` | src/virtdev/device.rs:243-286 | Two messages sent for one kernel request are the same message |
| `SystemAnswers.ReplyTells` | src/virtdev/device.rs:110-167 | Every reply to a request that was sent tells what the device did for that very request: the count of a write, the data, the ready events, the errno, or for an ioctl the buffer the device left, with the operand it was given; or it is the EINTR of teardown |
| `SystemAnswers.DeedTold` | src/realdev/mod.rs:79-109 | For every request the main thread dealt with, the reply under its number tells that outcome and no other: both halves of an ioctl keep their meaning between the two hosts, a count is that of the device |
| `SystemAnswers.DeviceErrorTold` | src/virtdev/device.rs:125-128 | An errno that a system call gave the main thread is the errno the kernel is told |
| `SystemAnswers.ScheduledTold` | src/virtdev/device.rs:125-146 | The data or the errno of a read that the worker answered is what the kernel is told |
| `SystemAnswers.ReadOutcomeTold` | src/realdev/read.rs:205-271 | Once the worker read bytes from the device, or failed to, on every run from there a reply to that read carries exactly these bytes, or that errno, unless it is the EINTR of teardown |
| `SystemAnswers.PollFailureTold` | src/realdev/read.rs:217-274 | If poll fails while a read is parked, on every run from there a reply to that read has that errno, or is EINTR because of an interrupt or teardown |
| `SystemAnswers.PollRegistered` | src/realdev/poll.rs:125-183 | A poll that asks to be notified of some event with nothing ready leaves its handle waiting for exactly these events; one asking for none withdraws it; every other poll leaves all registrations as they were |
| `SystemAnswers.InterruptAnswered` | src/realdev/read.rs:104-137 | The main thread sends EINTR for an interrupted read exactly if it is parked or queued, and otherwise nothing |
| `SystemAnswers.ClosedExactly` | src/virtdev/device.rs:131-134 | Between two messages the device is marked closed exactly if the answer to a release was received |
| `SystemAnswers.ClosedReceivesNothing` | src/virtdev/device.rs:203-230 | On every run after that nothing more is received |
| `SystemDeeds.DirectReplySays` | src/realdev/mod.rs:79-184 | The frame for a request says what the device did: for each kind of request, failing or not, in terms of the request and the outcome only |
| `SystemDeeds.FlagBitsExact` | src/realdev/poll.rs:115-123 | The number of a set of events has exactly the masks of these events |
| `SystemDeeds.ReportedNumber` | src/realdev/poll.rs:137-156 | The reply to a poll has exactly the bits of the ready events that were asked for, and of errors and hang-ups |
| `SystemDeeds.PollLeaves` | src/realdev/poll.rs:173-183 | Exactly a successful poll with the notification bit and nothing ready goes on to register, with the handle and events of the request |
| `SystemDeeds.StepKeepsDeeds` | src/realdev/mod.rs:69-184 | Every step keeps: each frame is accounted for by the log of the main thread or of the worker, queued reads and registered handles are those of the log |
| `SystemDeeds.ReachableDeeds` | src/realdev/mod.rs:69-184 | This holds in every reachable state |
| `Events.WantedExact` | src/realdev/poll.rs:20-33 | The events of a poll are those whose mask its number has |
| `Events.NonblockSent` | src/proto/request_flags.rs:81-97 | The bit that makes a read not wait is set exactly if the file has O_NONBLOCK |
| `SystemDelivery.WriteDelivered` | src/realdev/mod.rs:128-145 | A count n told to the kernel for a write means that the device took exactly the first n bytes of that very write, at its offset, and that the write has at most 0xFFF0 bytes |
| `SystemDelivery.WritesInOrder` | src/realdev/mod.rs:128-145 | The device takes writes in the order in which the client sent them, each at most once |
| `SystemDelivery.DataRepliesInOrder` | src/realdev/read.rs:205-271 | Without non-blocking reads, the requests that get data get it in the order in which the kernel handed them in |
| `SystemDelivery.WriteAnswered` | src/realdev/mod.rs:128-145 | From every quiet reachable state a stated run of six steps answers a write of at most 0xFFF0 bytes with any count the device may return |
| `SystemDelivery.WriteAnsweredExactly` | src/proto/request.rs:119-134 | A write can be answered with a count by some run exactly if it has at most 0xFFF0 bytes |
| `SystemDeadlock.StuckForever` | src/realdev/read.rs:61-83 | Once the main thread writes to a full pipe while the worker waits for its lock, no run of the whole system moves either of them again |
| `SystemDeadlock.ServerDeadlocks` | src/realdev/read.rs:61-83 | Between any two hosts a connection reaches that state with a read unanswered: 65536 reads served at once, then one more |
| `SystemWire.RequestsArrive` | src/proto/request.rs:122-179 | On a reachable connection with numbers within their fields and payloads within the limit, the bytes of everything the client sent are received as exactly that |
| `SystemWire.FramesArrive` | src/proto/response.rs:310-379 | The same for everything the server sent |
| `SystemWire.TakeIsReceive` | src/proto/request.rs:122-179 | Receiving from the bytes on their way gives the message the main thread takes and leaves the bytes of the others, or fails exactly if the payload is too large to be taken |
| `SystemWire.RecvIsReceive` | src/proto/response.rs:310-379 | The same on the client's side |
| `SystemWire.ReachableArgs` | src/proto/ioctl.rs:288-366 | Every ioctl argument on either way was produced by a decoder |
| `SystemInvariant.StepKeepsInv` | src/virtdev/device.rs:203-315 | Every step of every thread of client and server keeps the invariant: flow of numbers, ledger, origin of replies, wire order, arrival order, data and wake-ups in transit |
| `SystemInvariant.ReachableInv` | src/virtdev/device.rs:203-315 | The invariant holds in every reachable state, for any two hosts and any first sequence number |
| `SystemInvariant.HandleFacts` | src/realdev/mod.rs:79-109 | What each arm of the dispatch does to the scheduler, the poll side, the write log and the connection |
| `SystemWrites.NoteWrites` | src/realdev/mod.rs:128-145 | A write to the device is noted in line with everything sent, with the bytes its message begins with |
| `SystemWrites.CountNoted` | src/realdev/mod.rs:139-142 | A count that the server reported is noted with the bytes of that very request |
| `SystemReplies.SchedulerServed` | src/realdev/read.rs:205-271 | The scheduler sends its data frames in the order of its own log |
| `SystemReplies.HandleResponseAnswered` | src/virtdev/device.rs:145-146 | Answering keeps data replies in the order of the frames received |
| `SystemOrder.NoteLine` | src/realdev/mod.rs:113-145 | What the server noted, holds and has still to receive strictly increases when the main thread notes its request |
| `SystemSteps.DirectReplyFits` | src/realdev/mod.rs:128-184 | The reply the main thread sends to a request is of the kind the client waits for and can be converted |
| `SystemSteps.IoctlReplyConverts` | src/realdev/mod.rs:147-173 | The reply to an ioctl whose argument an application supplied decodes on the server and converts on the client |
| `SystemSteps.StepKeepsFlow` | src/realdev/mod.rs:69-111 | Every number under way belongs to exactly one table entry, and what is under way fits that entry, after every step |
| `SystemSteps.StepKeepsParts` | src/realdev/mod.rs:50-67 | The server moves its scheduler and its poll side only as their own transition systems allow |
| `SystemCarried.SchedulerData` | src/realdev/read.rs:66-70 | A step of the scheduler puts on the connection exactly the data it logs as answered |
| `SystemCarried.ConvertData` | src/virtdev/device.rs:130-158 | A converted response carries the response's data, and is never a wake-up |
| `ClientLedger.SubmitLedger` | src/virtdev/device.rs:243-286 | Sending and inserting keeps every handed-in request in exactly one place |
| `ClientLedger.FailLedger` | src/virtdev/device.rs:279-296 | A failed send keeps the ledger: the request waits for EIO |
| `ClientLedger.RejectLedger` | src/virtdev/device.rs:317-327 | An ioctl that cannot be decoded is answered at once and kept in the ledger as answered |
| `ClientLedger.EioLedger` | src/virtdev/device.rs:288-296 | The EIO reply moves a request from failing to answered |
| `ClientLedger.TakeOutLedger` | src/virtdev/device.rs:116-123 | Removing an entry moves exactly that request into the receiver's hand |
| `ClientLedger.HandleResponseLedger` | src/virtdev/device.rs:125-166 | Answering the request in hand keeps the ledger |
| `ClientLedger.DrainedUniques` | src/virtdev/device.rs:235-238 | The final loop answers each request left in the table exactly once, in whatever order the table yields them |
| `ClientLedger.DrainLedger` | src/virtdev/device.rs:233-238 | The final loop keeps the ledger |
| `ClientLedger.HandleResponseTraced` | src/virtdev/device.rs:110-167 | A reply to a response is traced to a received frame and to the message that asked |
| `ClientLedger.ReceiveTraced` | src/virtdev/device.rs:206-224 | Receiving a frame keeps every reply's origin |
| `ClientLedger.DrainTraced` | src/virtdev/device.rs:233-238 | The final loop adds only EINTR replies for entries left in the table |
| `ClientLedger.OriginDecides` | src/virtdev/device.rs:203-296 | Whether a request was sent, failed or was rejected decides what kind of reply it can have |
| `ClientLedger.SubmitApart` | src/virtdev/device.rs:243-286 | A request that is sent is neither a failed nor a rejected one, and is sent under one number only |
| `DeviceState.DeviceInner.RemoveRequest` | src/virtdev/device.rs:57-59 | Takes the entry of a number out of the table, if there is one |
| `DeviceState.DeviceInner.Answer` | src/virtdev/device.rs:125-166 | Writes exactly one reply, which conveys the response in kind (an errno as it is), or errs without one exactly if nothing conveys it; marks the device closed exactly on the answer to a release |
| `DeviceState.DeviceInner.HandleResponse` | src/virtdev/device.rs:110-167 | Moves the object as lookup, answer and close of the client model do |
| `DeviceState.DeviceInner.HandleEvent` | src/virtdev/device.rs:169-201 | Notifies every handle of an event in order; anything else is an error |
| `DeviceState.DeviceInner.Drain` | src/virtdev/device.rs:235-238 | Answers every entry with EINTR, each exactly once |
| `DeviceState.DeviceInner.Serve` | src/virtdev/device.rs:210-230 | One round of the receiving loop, and whether it goes on |
| `DeviceState.DeviceInner.RxThread` | src/virtdev/device.rs:203-241 | The loop on any list of frames ends in the state the model gives, with everything left answered |
| `DeviceState.DeviceInner.HandleCuse` | src/virtdev/device.rs:243-296 | Remembers a request that was sent, answers EIO to one that was not |
| `DeviceState.DeviceInner.TryInterrupt` | src/virtdev/device.rs:298-315 | Finds the one request with a kernel number, or none if there is none |
| `DeviceState.HandledAnswers` | src/virtdev/device.rs:110-167 | One call on a fitting response removes exactly its entry and adds exactly one reply, under the entry's own number |
| `RealDevice.Device.Handle` | src/realdev/mod.rs:79-109 | One round of the main loop moves device, queue, poll map and connection as the composed system's steps do; it ends the loop exactly on a release or an ioctl that cannot be encoded or decoded, and blocks exactly on a full pipe |
| `RealDevice.Device.Write` | src/realdev/mod.rs:128-145 | write or pwrite by the offset, what the device took, and the reply with the count or the error |
| `RealDevice.Device.ReadNonblock` | src/realdev/read.rs:165-177 | One read of at most min(size, 4096) bytes; the reply carries the data or the error |
| `RealDevice.Device.Ioctl` | src/realdev/mod.rs:147-173 | Raw arguments are refused with EPERM without a call; otherwise the encoded operand is passed to the device and the reply says what the device did, decoded on this host; a failing encode or decode ends the loop without a reply |
| `RealDevice.Device.PollFor` | src/realdev/mod.rs:175-184 | One poll call for exactly the wanted events; the reply has the bits of what is ready, and the poll map ends as the composed system has it after registration |
| `RealDevice.Device.HandlePlain` | src/realdev/mod.rs:79-145 | Opening is refused, a release ends the loop, writes and non-blocking reads are answered at once, and neither queue nor poll map is touched |
| `RealDevice.Device.Signalled` | src/realdev/mod.rs:120-123 | A blocking read or an interrupt changes the queue and signals, or stays blocked with the lock held |
| `RealDevice.SettledReached` | src/realdev/mod.rs:69-111 | What one call of the main loop does is reached by the main thread's own steps in the composed system |
| `ReadScheduler.Find` | src/realdev/read.rs:112-126 | First queue position of a number, or none |
| `ReadScheduler.Locate` | src/realdev/read.rs:104-128 | What an interrupt hits: the pending slot first, then the queue |
| `ReadScheduler.Refines` | src/realdev/read.rs:48-281 | Every step of main thread and worker is a step of the plain waiting list: arrive at the back, serve the front, cancel anywhere, or nothing |
| `ReadScheduler.StepKeepsInv` | src/realdev/read.rs:48-281 | Slot, wake-up, byte and waiting-list invariants are kept by every step |
| `ReadScheduler.ReachableInv` | src/realdev/read.rs:48-281 | These invariants hold after every run |
| `ReadSpec.NextKeepsInv` | src/realdev/read.rs:205-281 | The plain list conserves requests, keeps data replies in arrival order and within the size limit |
| `ReadProperties.PlacesCountArrivals` | src/realdev/read.rs:48-137 | A request is in queue, slot, hand and answers together as often as it arrived |
| `ReadProperties.ExactlyOnePlace` | src/realdev/read.rs:205-281 | With distinct numbers each accepted read is in exactly one of queue, slot, hand, answered |
| `ReadProperties.AnsweredOnce` | src/realdev/read.rs:205-281 | No read is answered twice |
| `ReadProperties.DataInOrder` | src/realdev/read.rs:205-271 | Data replies leave in arrival order, concatenate to the bytes consumed, and each is at most min(requested, 4096) bytes |
| `ReadProperties.PendingEmptyOnPark` | src/realdev/read.rs:48-51 | The slot is empty whenever the worker registers, so the assertion holds |
| `ReadProperties.SingleQueueMatch` | src/realdev/read.rs:112-126 | With distinct numbers no two queued reads match an interrupt |
| `ReadProperties.NoLostWakeup` | src/realdev/read.rs:217-263 | A sleeping worker with work has a sync byte written or about to be written |
| `ReadProperties.RestExactly` | src/realdev/read.rs:205-282 | The scheduler can make no step of its own exactly if it is idle, waits for data, or the pipe is full; idle means nothing waits |
| `ReadProperties.DeadlockExactly` | src/realdev/read.rs:61-83 | No step at all is possible exactly if a full pipe is written to under the lock while the worker waits for that lock |
| `ReadProperties.FewSignalsNeverDeadlock` | src/realdev/read.rs:72-83 | With at most 65536 pushes and interrupts a run never reaches that state |
| `ReadProperties.DeadlockReachable` | src/realdev/read.rs:61-83 | That state is reachable with distinct numbers, and nothing can move in it |
| `ReadProperties.InterruptExactly` | src/realdev/read.rs:104-137 | An interrupt answers EINTR exactly if its read is in the slot or the queue, and then only that one |
| `ReadProperties.LateInterruptIgnored` | src/realdev/read.rs:104-137 | An interrupt for an answered read changes nothing but the sync byte |
| `ReadProperties.InterruptCanBeLost` | src/realdev/read.rs:104-128 | An interrupt that arrives while the worker tries the read has no effect: from the state right after it a run leads to one where that read is parked, unanswered, and waits for data |
| `ReadState.ReadInner.RegisterPending` | src/realdev/read.rs:48-51 | Fills the empty slot |
| `ReadState.ReadInner.TakePending` | src/realdev/read.rs:53-55 | Empties the slot and returns it |
| `ReadState.ReadInner.NextRequest` | src/realdev/read.rs:57-59 | Pops the front of the queue |
| `ReadState.ReadInner.PopFor` | src/realdev/read.rs:157-159 | The worker's pop follows the model's step |
| `ReadState.ReadInner.TakeBackFor` | src/realdev/read.rs:230-240 | What comes out of the slot decides how the worker goes on |
| `ReadState.ReadInner.SendErr` | src/realdev/read.rs:85-90 | Sends exactly one error |
| `ReadState.ReadInner.SendSync` | src/realdev/read.rs:72-83 | Adds one sync byte, or blocks exactly if the pipe is full |
| `ReadState.ReadInner.PushRequest` | src/realdev/read.rs:61-64 | Queues at the back and signals, or stays blocked in the signal |
| `ReadState.ReadInner.PushFront` | src/realdev/read.rs:265-268 | Reschedules at the front |
| `ReadState.ReadInner.DoIntrAll` | src/realdev/read.rs:92-102 | Answers everything queued or parked with EINTR, queue first, and empties both |
| `ReadState.ReadInner.DoIntrOne` | src/realdev/read.rs:104-128 | Answers and removes exactly the located read |
| `ReadState.ReadInner.DoIntr` | src/realdev/read.rs:130-137 | Interrupt and signal follow the model's steps, or stay blocked in the signal |
| `ReadState.ReadInner.SendData` | src/realdev/read.rs:66-70 | Sends exactly the data read |
| `PollServer.TranslationExact` | src/realdev/poll.rs:20-48 | The two translations together keep exactly IN, OUT, PRI, RDBAND and WRBAND |
| `PollServer.StepKeepsInv` | src/realdev/poll.rs:97-237 | Every step of main thread, device and worker keeps the poll invariants |
| `PollServer.ReachableInv` | src/realdev/poll.rs:97-237 | They hold after every run |
| `PollProperties.NoLostWakeup` | src/realdev/poll.rs:125-183 | A registered handle whose IN, OUT, PRI, ERR or HUP is ready has an edge pending or is matched by the event the worker holds |
| `PollProperties.SignalExactly` | src/realdev/poll.rs:97-113 | A signal removes and wakes exactly the handles that intersect the event, each once; ERR or HUP empties the map |
| `PollProperties.WakeupsPaid` | src/realdev/poll.rs:97-135 | No handle is woken more often than it was registered |
| `PollProperties.WorkerDelivers` | src/realdev/poll.rs:221-238 | From every reachable state with an awaited event ready (ERR and HUP included) the worker wakes the handle within three steps; if the main thread holds the lock, after its registration and unless that withdraws the wish |
| `PollProperties.GuaranteedExactly` | src/realdev/poll.rs:210-219 | For every mask a handle can have and every event a poll can ask for: the event is never forgotten exactly if it is IN, OUT or PRI and in the mask |
| `PollProperties.LastRegistrationCounts` | src/realdev/poll.rs:125-135 | After any run without a further registration of the handle, a signal wakes it exactly if it still waits and the event meets the mask of its last registration, an error or a hang-up |
| `PollProperties.SecondPollReplacesFirst` | src/realdev/poll.rs:125-135 | The run: a poll for IN, then one for OUT on the same handle, both told to wait; IN then passes without waking it |
| `PollState.PollInner.Collect` | src/realdev/poll.rs:100-105 | Lists exactly the matching handles |
| `PollState.PollInner.RemoveAll` | src/realdev/poll.rs:107-109 | Removes exactly these |
| `PollState.PollInner.Signal` | src/realdev/poll.rs:97-113 | Removes, then sends them as wake-ups, as the model's step does |
| `PollState.PollInner.RegisterKh` | src/realdev/poll.rs:125-135 | An empty mask removes, any other replaces |
| `PollState.PollInner.PollOnce` | src/realdev/poll.rs:185-194 | Answers without registering |
| `PollState.PollInner.Poll` | src/realdev/poll.rs:173-183 | Answers; registers exactly if nothing was ready |
| `Protocol.Take` | src/proto/io.rs:117-148 | The next n bytes within the remaining length, which falls by exactly n |
| `Protocol.RequestRoundTrip` | src/proto/request.rs:122-179 | A sent request is received unchanged with its number and nothing beyond it exactly if its payload has at most 0x10000 bytes |
| `Protocol.RequestStream` | src/proto/request.rs:122-179 | Any list of requests arrives as that list and nothing is left over |
| `Protocol.WriteLimitExactly` | src/proto/request.rs:305-334 | Of the writes the client announces to the kernel, exactly those of at most 0xFFF0 bytes can be received |
| `Responses.ResponseRoundTrip` | src/proto/response.rs:310-379 | A sent response is received unchanged exactly if its payload has at most 0x10000 bytes |
| `Responses.ResponseStream` | src/proto/response.rs:310-379 | Any list of responses and events arrives as that list and nothing is left over |
| `Responses.ErrorZeroIsSuccess` | src/proto/response.rs:278-308 | An error reply with code zero has the bytes of plain success |
| `Responses.WakeupsArrive` | src/proto/response.rs:169-214 | One-handle and many-handle forms both make the client notify exactly the server's list, up to 8192 handles |
| `Responses.TooManyWakeups` | src/proto/response.rs:186-204 | From 8193 handles on, the client cannot receive the message |
| `Stream.Connection.RecvTimeout` | src/proto/io.rs:31-49 | One attempt: some next bytes, none yet, or an error |
| `Stream.Connection.RecvInitial` | src/proto/io.rs:70-95 | The first piece of a buffer |
| `Stream.Connection.RecvExact` | src/proto/io.rs:51-115 | For every pattern of partial receives and EAGAIN rounds: exactly the next bytes and none beyond; fails without a fault only at the end of the stream |
| `Stream.Connection.RecvTo` | src/proto/io.rs:117-158 | The length budget falls by exactly n or not at all; too small a budget takes nothing |
| `Stream.Connection.SendAll` | src/proto/io.rs:191-211 | All bytes under any partial sends; on an error, or at a call that takes nothing, a proper prefix of them |
| `Stream.RecvRequest` | src/proto/request.rs:122-179 | However the bytes arrive, the result is what parsing the stream gives, and the stream is left behind the request |
| `Stream.RecvResponse` | src/proto/response.rs:310-387 | The same for responses |
| `Stream.RecvAll` | src/realdev/mod.rs:74-77 | The receive loop yields exactly the requests the stream holds, in order, and ends where it ends or errs |
| `Endian.BeValueKept` | src/proto/endian.rs:9-15 | from_native and as_native are inverse on either host |
| `Endian.BeMemory` | src/proto/endian.rs:9-15 | The memory of a big-endian word is the same on every host |
| `RequestFlags.StoredOp` | src/proto/endian.rs:25-31 | Bit operations on the stored, swapped words are the operations on the values, for every width and either host |
| `RequestFlags.FromCuse` | src/proto/request_flags.rs:81-97 | The stored flag word denotes readable, writable and non-blocking as the kernel's flags do |
| `RequestFlags.Intersects` | src/proto/request_flags.rs:20-30 | Whether a stored word has a flag |
| `RequestFlags.AsFfi` | src/proto/request_flags.rs:64-79 | The open flags for a stored word |
| `RequestFlags.FlagsKept` | src/proto/request_flags.rs:58-102 | Through the wire the non-blocking flag is kept, and the access mode exactly if it is one of the three valid ones |
| `Bits.ChainRoundTrip` | mod-ioctl/src/ffi.rs:31-68 | Or-ing the encoded fields of any chain of bit fields and decoding returns each field |
| `Bits.ChainDisjoint` | mod-ioctl/src/ffi.rs:43-57 | Fields of a chain have disjoint masks inside 32 bits |
| `IoctlNumber.FieldsAreDecoded` | mod-ioctl/src/ffi.rs:127-149 | The accessors are what the layout's fields decode, for every number |
| `IoctlNumber.OredFields` | mod-ioctl/src/ffi.rs:98-101 | Each field of a composed command reads back as given |
| `IoctlNumber.IocIsOred` | mod-ioctl/src/ffi.rs:98-121 | Composing by or is composing by sum |
| `IoctlNumber.SplitIoc` | mod-ioctl/src/ffi.rs:98-149 | A composed command splits into its fields |
| `IoctlNumber.RepairExact` | mod-ioctl/src/bad.rs:6-62 | Fix-up keeps the native command, its type and its number, and gives listed commands the table's direction and size |
| `IoctlNumber.Unlisted` | mod-ioctl/src/bad.rs:10-15 | Other commands, of any type, keep the fields of their number |
| `Termios.ConversionBack` | src/proto/ioctl_serial.rs:94-148 | Settings converted to the record and back are unchanged |
| `Termios.TermiosBytesBack` | src/proto/ioctl_serial.rs:51-79 | Reading settings from memory and writing them back changes no byte |
| `Termios.Termios2BytesBack` | src/proto/ioctl_serial.rs:81-92 | The same for the extended settings |
| `Termios.ConvertFromOs` | src/proto/ioctl_serial.rs:94-112 | The copying loop builds the record the conversion denotes |
| `Termios.ConvertIntoOs` | src/proto/ioctl_serial.rs:114-148 | The copying loop builds the settings the conversion denotes |
| `Termios.CopyIntoRecord` | src/proto/ioctl_serial.rs:94-112 | Copies all control characters and zeroes the rest |
| `Termios.CopyFromRecord` | src/proto/ioctl_serial.rs:114-148 | Copies exactly the control characters the system has |
| `Termios.WireBack` | src/proto/ioctl_serial.rs:7-24 | A record survives the wire |
| `IoctlArg.WireRoundTrip` | src/proto/ioctl.rs:117-150 | Every argument survives code and bytes |
| `IoctlArg.DecodeValid` | src/proto/ioctl.rs:288-366 | What decoding yields can be sent |
| `IoctlProperties.SupportedSizes` | mod-ioctl/src/bad.rs:25-46 | For supported commands the repaired direction and size are what encoder and decoder use |
| `IoctlProperties.RequestKeepsMeaning` | src/proto/ioctl.rs:230-366 | For any byte orders the device gets the same command with the same meaning; with equal byte orders the same bytes |
| `IoctlProperties.ReplyKeepsMeaning` | src/proto/ioctl.rs:193-228 | The reply reaches the application with the command's size and the same numbers, TIOCMGET excepted, and with equal byte orders the same bytes |
| `IoctlProperties.ModemLinesExactly` | src/proto/ioctl.rs:359-362 | TIOCMGET arrives as the same number exactly if byte orders agree or the bytes read the same backwards |
| `IoctlProperties.ModemLinesCounterexample` | src/proto/ioctl.rs:359-362 | A line reported as 2 reads as 0x02000000 on the other kind of host |
| `IoctlProperties.OutcomeExactly` | src/proto/ioctl.rs:230-366 | For all commands and buffers: which reach the device, are rejected, refused, panic or end the server |
| `IoctlProperties.RefusedCarries` | src/proto/ioctl.rs:349-366 | What the server refuses was sent as it came: the application's bytes if the command writes, its argument otherwise |
| `IoctlProperties.RetriedOnceExactly` | src/virtdev/ioctl.rs:12-90 | A retried unrestricted ioctl is not retried again exactly if its size is not zero |
| `IoctlProperties.RetriedForever` | src/virtdev/ioctl.rs:29-47 | A command that writes with size zero is answered with the same retry however often it is repeated |
| `IoctlProperties.SupportedCompletes` | src/virtdev/ioctl.rs:12-90 | Every supported command passes after at most one retry that asks for exactly the bytes its decoder needs and exactly those it reads back |
| `IoctlProperties.RetryVectors` | src/virtdev/ioctl.rs:18-47 | A retry is asked for exactly if the caller is unrestricted, passed no buffer and the command transfers data; an input vector exactly if it writes, an output vector exactly if it reads, each at the caller's address with the command's size |
| `IoctlProperties.BuffersExact` | mod-ioctl/src/bad.rs:25-46 | The answer for every command by its number: the listed ones get the sizes of their C types, every other one what its number says |
| `CuseMessages.ReadBufIter.Next` | mod-cuse/src/io.rs:57-79 | Takes one aligned record; consumed and remaining stay in balance, and nothing is taken on failure |
| `CuseMessages.ReadBufIter.NextSlice` | mod-cuse/src/io.rs:88-114 | Takes whole elements; a count of zero always succeeds |
| `CuseMessages.ReadBufIter.Truncate` | mod-cuse/src/io.rs:116-132 | Afterwards consumed plus remaining is the given length; fails exactly if that is impossible |
| `CuseMessages.ReadOp` | mod-cuse/src/lib.rs:307-413 | Reading is parsing; consumed plus remaining is the header's length |
| `CuseMessages.ReadRecord` | mod-cuse/src/lib.rs:312-406 | The record and payload of each operation |
| `CuseMessages.MessageRoundTrip` | mod-cuse/src/lib.rs:307-413 | Every message is read back as laid out, whatever is counted beyond the payload and whatever follows in the buffer |
| `CuseMessages.ParseExactly` | mod-cuse/src/lib.rs:307-413 | Parsing succeeds exactly if header, announced length, record and payload fit |
| `CuseMessages.BodyExactly` | mod-cuse/src/lib.rs:345-392 | The payload of a write or ioctl is exactly the declared number of bytes behind the record |
| `CuseMessages.ParseLocal` | mod-cuse/src/lib.rs:307-311 | No byte beyond the announced length matters |
| `CuseReplies.TotalLen` | mod-cuse/src/lib.rs:93-94 | The folded length is header plus all parts |
| `CuseReplies.Gather` | mod-cuse/src/lib.rs:102-108 | The vector is the header and then every part in order |
| `CuseReplies.SendResponse` | mod-cuse/src/lib.rs:89-111 | What is written, and success exactly if all of it was taken |
| `CuseReplies.SendError` | mod-cuse/src/lib.rs:72-87 | The same for an error |
| `CuseReplies.SendReply` | src/virtdev/device.rs:125-166 | The bytes of a reply, whose places `CuseLayout.ReplyAt` states, and success exactly if all of them were taken |
| `CuseReplies.CompleteIoctl` | src/virtdev/ioctl.rs:12-90 | Lets an ioctl proceed, or writes the retry, whose places `CuseLayout.RetryAt` states |
| `CuseReplies.ResponseSeen` | mod-cuse/src/lib.rs:89-111 | A response announces its own length, no error and the request answered |
| `CuseReplies.ErrorSeen` | mod-cuse/src/lib.rs:72-87 | An error announces a bare header, the negated error and the request answered |
| `CuseReplies.NotificationSeen` | mod-cuse/src/lib.rs:57-70 | A notification announces its own length and carries the handle |
| `CuseReplies.DataParts` | src/virtdev/device.rs:145-146 | The data of a read is passed on unchanged |
| `CuseLayout.ReplyAt` | mod-cuse/src/ffi.rs:254-335 | For either byte order: length, error and request number at 0, 4 and 8; the count or events at 16 with a zero word behind; result 0, flags 2, 0 and 1 vectors at 16 to 32 and the data from 32 on; the data of a read from 16 on; the negated errno and nothing else |
| `CuseLayout.NotifyAt` | mod-cuse/src/ffi.rs:310-335 | A notification has 24 bytes, code 1, no request number and the handle at 16 |
| `CuseLayout.RetryAt` | src/virtdev/ioctl.rs:59-87 | For every command: flags with RETRY set, the numbers of vectors, and each vector's address and length at 32 and 48 |
| `CuseLayout.MessageAt` | mod-cuse/src/ffi.rs:178-344 | Every field of a message that was read stood at its byte position: header, each operation's record by its opcode number, and the payload behind the record |
| `TermiosLayout.DeliveredBytes` | mod-ioctl/src/ffi_serial.rs:102-133 | By command number: the four flag words, the line discipline, the control characters and the speeds stand at the same places in the device's buffer, in its byte order, as in the application's; integers likewise; reading commands get a buffer of the given size |
| `TermiosLayout.ReturnedBytes` | mod-ioctl/src/ffi_serial.rs:102-110 | The same for what the application gets back |
| `TermiosLayout.TermiosOnWire` | src/proto/ioctl_serial.rs:51-79 | Settings in memory and the 64-byte record: each flag word, the line discipline and the control characters at the same place, big-endian, speeds and the rest zero |
| `TermiosLayout.Termios2OnWire` | src/proto/ioctl_serial.rs:81-112 | The same for the extended settings, with the speeds at 48 and 52 |
| `WireLayout.RequestHeaderAt` | src/proto/request.rs:24-32 | Operation code, three zero bytes, payload length and sequence number at 0, 1, 4 and 8, big-endian |
| `WireLayout.RequestAt` | src/proto/request.rs:242-406 | Every field of every request at its byte position |
| `WireLayout.ResponseHeaderAt` | src/proto/response.rs:392-398 | Operation code, a zero byte, the error, payload length and sequence number at 0, 1, 2, 4 and 8 |
| `WireLayout.ResponseAt` | src/proto/response.rs:436-440 | Every field of every response at its byte position behind the header |
| `WireLayout.WakeupAt` | src/proto/response.rs:169-214 | The message that wakes one handle has code 7 and the handle as payload, the one for several has code 6 and the handles one after the other, and none is sent for none |
| `WireLayout.ArgumentLaid` | src/proto/ioctl_serial.rs:7-24 | The bytes of every ioctl argument, and of the 64-byte settings record field by field |

## Left out

- Sockets, pipes, poll, epoll, ioctl(2) and thread creation are steps of the environment with the assumptions above.
- The device registry and its handles, and opening a device on either side.
- Termination of the server: its workers stop only when a pipe end is dropped, which the scope that joins them delays; no liveness is claimed beyond `WorkerDelivers` and `RestExactly`.
- The prologue of the poll worker, which asks for a write lock while a read guard may live; only its loop body is modelled.
- Byte order between blocking and non-blocking reads on one connection: two threads read and send independently, so `BytesDelivered` is stated for connections without non-blocking reads.
- The receive branches without a continuation timeout, which no caller uses.
- The return value of an ioctl: the client always reports result 0.
- The reply to an interrupt request itself, which the kernel does not wait for.
- Failing sends of the server's workers, which are only logged.
- RealDevice.Device.Handle: requires distinct numbers in the read queue, which `SystemProperties.SingleQueueMatch` proves of every reachable state and the source asserts.
- ReadState.ReadInner.DoIntrOne: likewise requires distinct numbers, the source's own assertion.
- RequestFlags.FlagsKept: speaks about the access mode and the non-blocking flag, the only flags the protocol carries.
- Values are unbounded numbers in the composed system; widths are modelled in the codec, the ioctl layout and the kernel messages.
- Logging, command lines, the deadlock detector and the example program.
