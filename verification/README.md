# Webcam flight-software demo: a verified model

The repository is a small demonstrator for on-board software: telecommands
travel from a stub distributor through a commanding service to a webcam device
handler, and replies travel back as telemetry. Beside it stand two exercises on
threads that share data under a lock, and a stand-alone V4L2 program that takes
a snapshot. This project models the parts that carry state, loops or arithmetic
and proves what holds of them on every run and every input.

| file | models |
|---|---|
| Fsfw.dfy | the framework services the code calls: storage pools, message queues, return values, command messages |
| WebcamDevice.dfy | the device handler: its class, and the state function of each hook |
| WebcamRuns.dfy | results about whole runs of hook calls |
| CommandingService.dfy | the commanding service: telecommand translation, replies, IPC slots |
| Tmtc.dfy | the stub distributor and the telemetry sink |
| Pipeline.dfy | distributor, service and handler with their stores and queues, as a transition system; the simulation of an abstract device |
| PipelineRuns.dfy | results about whole runs of the pipeline |
| EndToEnd.dfy | progress from an accepted telecommand to the command the device sends; the rate a query finds |
| Rig.dfy | the objects wired together, carrying out pipeline runs by calling their methods |
| SharedCounter.dfy, IntQueue.dfy | the two-thread exercises, step by step under any schedule |
| Yuyv.dfy | the YUYV to RGB loop and its arithmetic |
| Capture.dfy | the life cycle of the camera's buffers |

## How to read it

Classes have the source's fields and methods. Each method's contract says what
becomes of fields, stores and answers in terms of the arguments, and equates the
new state with a state function of the old one; results about runs are lemmas
about those functions, for any start or for the constructor's state.
`WebcamRuns.Drive`, `Rig.Execute`, `SharedCounter.Execute` and
`IntQueue.Execute` make the calls of an arbitrary run on the objects and prove
that the objects go through exactly the modelled states.

What the environment decides is a parameter: the slot a pool offers (or none),
whether a queue has room, what a serialiser, `sendTmPacket`, `mmap` or an
`ioctl` answers, whether a file opens. A pool grants an offered slot when it is
free. Results hold for all such answers.

A frame rate is the eight bytes of its double, which `memcpy` copies as they
are. In the pixel loop doubles are exact reals; a value that is an integer in
exact arithmetic may fall to either side of it in IEEE arithmetic.

## Assumptions about the framework

- The action helper reads the slot, passes its bytes to
  `buildCommandFromCommand`, deletes the slot and returns the first error.
- The commanding base class takes telecommands in order, reads the packet,
  deletes it from the TC store, and forwards the message its hook prepared.
- A message id holds the message type in its high byte and the command in its
  low byte. The numbers of types and replies are placeholders; only their being
  distinct is used. The same goes for the id that means "no command".
- The device base class runs `scanForReply` and `interpretDeviceReply` in one
  step. `LateInterpretation` shows what this is needed for.
- The device's framework answers with a plain reply, or with one that names a
  slot it has filled (`Pipeline.PostReplyTo`). Its queue to the service always
  has room: what becomes of the slot of a reply that a full queue refuses is the
  framework's business, and the account of slots left behind excludes it.
- `mmap` yields a free positive address for a positive length, or fails;
  `munmap` of an address that is not mapped has no effect; the driver hands out
  only buffers it holds, and only while streaming, and reports at most the
  buffer's length as used.

## What the code does not do

- `intReceiver` reads the newest value and removes the oldest
  (ws-ipc/ipc-solutions/main-02.cpp:31-32). The k-th value received is the
  number sent at that moment. `InOrderIff` says exactly when that is
  first-in-first-out; `OutOfOrder` gives a schedule on which it is not.
- `yuyv_to_rgb` handles pixels in pairs. Its accesses stay inside the buffers of
  `takeSnapshot` if and only if width times height is even and the driver's
  buffer holds two bytes per pixel (`BuffersFitIffEven`); `OnePixelOverruns` is
  the smallest frame for which they do not.
- `startupWebcam` on a camera that is still open, as in a retry after a failed
  startup, writes over buffers that may be mapped; no later shutdown unmaps those
  (`RetryForgets`). If such a startup cannot open the device, shutdown takes the
  camera for closed (`FailedReopenLeaves`). `CleansUpIff` says exactly when a
  shutdown cleans up, whatever was called before.
- Truncation raises a channel that lies between -1 and 0. So pixels on which the
  clamp never acts can come back brighter than they were
  (`TruncationBrightens`). `LumaBound` says exactly which: those that gain more
  luma that way than rounding down costs, both read off the luma and the table
  offsets. A negative channel alone does not decide it (`RaisedWithinLoss`).
- When the queue of the service or of the device is full, the slot already
  filled stays live and no code in the repository frees it
  (`LeftBehindForGood`; `TcSlotLeftBehind` and `IpcSlotLeftBehind` are such
  runs). `NothingLeftBehind` says exactly when this happens, `LeftBehindCount`
  how often.

## Model

| member | source | states |
|---|---|---|
| WebcamDevice.WebcamDeviceHandler.constructor | mission/webcam/WebcamDeviceHandler.cpp:37-42 | nothing pending, no reply waiting, both rates zero |
| WebcamDevice.WebcamDeviceHandler.PrepareReply | mission/webcam/WebcamDeviceHandler.cpp:288-300 | the reply slot is filled with the id, or emptied without a communication interface |
| WebcamDevice.WebcamDeviceHandler.BuildNormalDeviceCommand | mission/webcam/WebcamDeviceHandler.cpp:73-106 | command, return value and every field on every path, by the flags: snapshot, then set, then get; a command sent has its own reply ready |
| WebcamDevice.WebcamDeviceHandler.ScanForReply | mission/webcam/WebcamDeviceHandler.cpp:116-140 | the waiting reply is found once, with its id; null out-pointers are respected |
| WebcamDevice.WebcamDeviceHandler.InterpretDeviceReply | mission/webcam/WebcamDeviceHandler.cpp:142-183 | what is printed for each id, the rate with it, and the slot's id cleared |
| WebcamDevice.WebcamDeviceHandler.ParseReply | mission/webcam/WebcamDeviceHandler.cpp:116-183 | scan and interpretation as one step leave no reply waiting |
| WebcamDevice.WebcamDeviceHandler.GetParameter | mission/webcam/WebcamDeviceHandler.cpp:185-236 | a read yields and prints the current rate; a write with a rate sets and prints the requested rate, that one; every other access changes and prints nothing; every return code |
| WebcamDevice.WebcamDeviceHandler.BuildCommandFromCommand | mission/webcam/WebcamDeviceHandler.cpp:262-286 | the flag of number 1, 2 or 3 is raised; number 2 with eight bytes sets the requested rate to them; any other number is refused and changes nothing |
| WebcamDevice.WebcamDeviceHandler.HandleActionMessage | mission/webcam/WebcamDeviceHandler.cpp:253-259 | the assumed action helper: a live slot is handed on and released, a missing one changes nothing |
| WebcamDevice.WebcamDeviceHandler.LetChildHandleMessage | mission/webcam/WebcamDeviceHandler.cpp:238-260 | state, store and answer for every message: foreign or null ones pass by, an unknown command and a missing slot are answered, a known one raises its flag and releases its slot |
| WebcamRuns.Drive | mission/webcam/WebcamDeviceHandler.cpp:73-286 | any sequence of hook calls on the object sends, prints and ends as the run model says |
| WebcamRuns.PendingStep | mission/webcam/WebcamDeviceHandler.cpp:80-103 | a call raises the flag it asks for, lowers the flag of what it sends, touches no other |
| WebcamRuns.HighestGoesOut | mission/webcam/WebcamDeviceHandler.cpp:80-103 | what is sent was pending and nothing pending outranks it; an able build sends if anything is pending |
| WebcamRuns.RateStep | mission/webcam/WebcamDeviceHandler.cpp:88-95 | the current rate moves only when a Set is sent, to the requested one; the requested one only with a write |
| WebcamRuns.ReplyStep | mission/webcam/WebcamDeviceHandler.cpp:116-131 | only a send fills the reply slot, only a parse empties it |
| WebcamRuns.ReachableConsistent | mission/webcam/WebcamDeviceHandler.cpp:80-131 | in every reachable state a waiting reply has a command id, and a snapshot is in progress exactly when its reply waits |
| WebcamRuns.LateInterpretation | mission/webcam/WebcamDeviceHandler.cpp:181 | a late interpretation keeps that invariant if and only if no reply waits |
| WebcamRuns.InterleavedBuildLosesReply | mission/webcam/WebcamDeviceHandler.cpp:181 | a concrete run with a build between scan and interpretation after which a reply is found without its id |
| WebcamRuns.CoalescingAccount | mission/webcam/WebcamDeviceHandler.cpp:268-282 | for each command: requests are sends plus merged requests plus the one pending |
| WebcamRuns.PendingUntilSent | mission/webcam/WebcamDeviceHandler.cpp:80-102 | a pending command stays pending until it is sent |
| WebcamRuns.RequestedIsLastWrite | mission/webcam/WebcamDeviceHandler.cpp:222 | the requested rate is the last one written, by a Set payload or a parameter write |
| WebcamRuns.CurrentIsLatched | mission/webcam/WebcamDeviceHandler.cpp:88-94 | the current rate is the last one written before the latest Set was sent |
| WebcamRuns.CurrentIsInitialWithoutSet | mission/webcam/WebcamDeviceHandler.cpp:88-94 | without a Set sent it is the initial rate, whatever parameters are written |
| WebcamRuns.GetSeesEarlierSets | mission/webcam/WebcamDeviceHandler.cpp:88-103 | when a Get is sent, every Set asked for earlier has been sent, and the current rate is what was last written before the latest of them |
| WebcamRuns.SetThenGet | mission/webcam/WebcamDeviceHandler.cpp:88-103 | a rate set and not overwritten is the rate the Get finds |
| WebcamRuns.PayloadThenGet | mission/webcam/WebcamDeviceHandler.cpp:269-276 | the bytes of a Set request, no rate written since, are the rate the Get finds |
| WebcamRuns.ParameterThenGet | mission/webcam/WebcamDeviceHandler.cpp:214-231 | a rate written as a parameter and followed by a Set request without usable bytes is the rate the Get finds |
| WebcamRuns.ReplyReports | mission/webcam/WebcamDeviceHandler.cpp:147-170 | the parse after a send reports that command: snapshot completed, the rate just set, or the current rate |
| WebcamRuns.GetReplyPrintsRate | mission/webcam/WebcamDeviceHandler.cpp:163-170 | the Get reply prints the rate current when its command was sent |
| WebcamRuns.RepliesFollowCommands | mission/webcam/WebcamDeviceHandler.cpp:116-131 | on every run replies are a subsequence of the commands sent, short by the replies overwritten |
| WebcamRuns.OverwritesIffUnparsed | mission/webcam/WebcamDeviceHandler.cpp:288-300 | no reply is overwritten if and only if a parse lies between any two sends |
| WebcamRuns.EveryCommandAnswered | mission/webcam/WebcamDeviceHandler.cpp:73-131 | each command has exactly one reply with its id, in order, if and only if a parse lies between any two sends |
| WebcamRuns.BoundedResponse | mission/webcam/WebcamDeviceHandler.cpp:80-103 | a pending command is sent by build 1, 2 or 3 plus the number of higher-priority requests made meanwhile |
| WebcamRuns.BoundIsTight | mission/webcam/WebcamDeviceHandler.cpp:80-103 | for every such number there is a run that needs that many builds |
| WebcamRuns.ThreeBuildsEmpty | mission/webcam/WebcamDeviceHandler.cpp:80-105 | without new requests three builds leave nothing pending |
| CommandingService.CarriedEncode | mission/messaging/MessageTypes.cpp:41-52 | an order put into a message and a slot is read back unchanged |
| CommandingService.WebcamCommandingService.PrepareCommand | mission/tmtc/WebcamCommandingService.cpp:98-113 | for every subservice: the payload sizes accepted and the error otherwise; the telecommand's own bytes in the slot that the message names; the device command number or the parameter number in the message; a failure changes nothing |
| CommandingService.WebcamCommandingService.PrepareDeviceCommand | mission/tmtc/WebcamCommandingService.cpp:127-170 | one slot more, holding the telecommand's eight bytes or none and named by the message, on success; nothing changed otherwise |
| CommandingService.WebcamCommandingService.PrepareParameterDump | mission/tmtc/WebcamCommandingService.cpp:172-185 | default parameter without data, the given one with one byte, refused otherwise |
| CommandingService.WebcamCommandingService.HandleReply | mission/tmtc/WebcamCommandingService.cpp:115-125 | a reply that names a live slot is sent on with its subservice and the slot's bytes, and the slot released, whatever sending returns; other results and step flags |
| CommandingService.WebcamCommandingService.HandleActionReply | mission/tmtc/WebcamCommandingService.cpp:187-222 | the same for action replies, with the 16-bit size and the subservice of a data reply |
| CommandingService.WebcamCommandingService.HandleParameterReply | mission/tmtc/WebcamCommandingService.cpp:224-243 | the same for parameter dumps and their subservice |
| Tmtc.StubPusDistributor.RegisterService | mission/tmtc/TmtcInfrastructure.cpp:138-146 | a null service is refused and changes nothing |
| Tmtc.StubPusDistributor.SendCommand | mission/tmtc/TmtcInfrastructure.cpp:148-177 | the counter moves by one modulo 2^16 on every outcome; exactly if store and serialiser agree a packet with the caller's bytes is parked, exactly if the queue does too it is posted; what is returned otherwise |
| Tmtc.DeletedOnce | mission/tmtc/TmtcInfrastructure.cpp:64-83 | for any queue, with repeated and stale ids, the drain deletes exactly the live queued slots, each once |
| Tmtc.DeletedBound | mission/tmtc/TmtcInfrastructure.cpp:64-83 | it deletes no more slots than are queued or live |
| Tmtc.DeletedInOrder | mission/tmtc/TmtcInfrastructure.cpp:64-83 | they go in the order of the queue |
| Tmtc.StubTelemetrySink.PerformOperation | mission/tmtc/TmtcInfrastructure.cpp:59-85 | terminates with an empty queue and the live set less the queued ids, one line printed per deletion, of that slot's bytes |
| Tmtc.StubTelemetrySink.Print | mission/tmtc/TmtcInfrastructure.cpp:69-80 | header of a packet that parses, size and first bytes of one that does not |
| Pipeline.SendTcRefines | mission/tmtc/TmtcInfrastructure.cpp:148-177 | sending keeps each live TC slot named once and appends the telecommand if nothing refused |
| Pipeline.TakeTcRefines | mission/tmtc/WebcamCommandingService.cpp:98-113 | taking a telecommand yields the oldest one and keeps the rest |
| Pipeline.ForwardRefines | mission/tmtc/WebcamCommandingService.cpp:127-170 | forwarding keeps each live IPC slot named once and appends the order the telecommand stands for, none if malformed or refused |
| Pipeline.TakeOrderRefines | mission/webcam/WebcamDeviceHandler.cpp:238-260 | delivering releases the slot of that message only, and is never answered with an error |
| Pipeline.TakeReplyRefines | mission/tmtc/WebcamCommandingService.cpp:195-213 | handling a reply releases a live slot and no payload under way is disturbed |
| Pipeline.ReplyRoundTrip | mission/tmtc/WebcamCommandingService.cpp:195-213 | a reply posted with its bytes in a slot and then handled leaves stores and queues as they were |
| Pipeline.ObeyRefines | mission/webcam/WebcamDeviceHandler.cpp:262-286 | a delivered message does to the device what its order does to the abstract device |
| Pipeline.HookRefines | mission/webcam/WebcamDeviceHandler.cpp:73-106 | every hook is a step of the abstract device: a set of pending commands, highest priority first |
| Pipeline.NextRefines | mission/tmtc/WebcamCommandingService.cpp:98-170 | every act keeps the slot invariant and is one act of the abstract system without stores |
| PipelineRuns.RunRefines | mission/tmtc/TmtcInfrastructure.cpp:148-177 | every run, under any schedule and any refusals, is a run of the abstract system |
| PipelineRuns.SlotsConserved | mission/tmtc/WebcamCommandingService.cpp:150-170 | on every run a live slot is named exactly once by messages, replies and refusals together, a dead one never |
| PipelineRuns.SlotCount | mission/tmtc/WebcamCommandingService.cpp:150-213 | the number of live slots is the number of carriers under way plus refusals |
| PipelineRuns.NothingLeftBehind | mission/tmtc/TmtcInfrastructure.cpp:163-176 | each pool holds no slots but those of messages under way if and only if no full queue turned a message away after its slot was filled |
| PipelineRuns.SlotsBeyondMessages | mission/tmtc/TmtcInfrastructure.cpp:163-176 | beyond those it holds one slot for each message so turned away |
| PipelineRuns.LeftBehindCount | mission/tmtc/TmtcInfrastructure.cpp:163-176 | the refused slots are as many as the messages so turned away |
| PipelineRuns.LeftBehindForGood | mission/tmtc/TmtcInfrastructure.cpp:163-176 | a slot left behind stays live in every later state |
| PipelineRuns.TcSlotLeftBehind | mission/tmtc/TmtcInfrastructure.cpp:175-176 | a run after which the TC store holds a slot nothing will free |
| PipelineRuns.IpcSlotLeftBehind | mission/tmtc/WebcamCommandingService.cpp:150-170 | a run after which the IPC store does |
| PipelineRuns.NoMessageRejected | mission/webcam/WebcamDeviceHandler.cpp:246-258 | no message of the service is an unknown command or lacks its slot |
| PipelineRuns.RepliesAreLive | mission/tmtc/WebcamCommandingService.cpp:204-207 | a reply that names a slot always names a live one |
| PipelineRuns.CounterCountsSends | mission/tmtc/TmtcInfrastructure.cpp:153 | the sequence counter is the number of sends modulo 2^16 |
| PipelineRuns.TelecommandsConserved | mission/tmtc/WebcamCommandingService.cpp:98-170 | accepted telecommands are taken in order; what arrives or is under way is exactly the orders of those with room, in order, byte for byte |
| PipelineRuns.AllArriveIff | mission/tmtc/WebcamCommandingService.cpp:98-170 | everything well-formed arrives if and only if nothing well-formed was refused room |
| PipelineRuns.DeviceRun | mission/webcam/WebcamDeviceHandler.cpp:238-286 | inside the pipeline the device makes a run of its own, to which the results on runs apply |
| PipelineRuns.DeviceSeesArrivals | mission/webcam/WebcamDeviceHandler.cpp:253-276 | on every run what the device is asked is the device commands that arrived, in order, byte for byte |
| PipelineRuns.DeviceAskedWhatWasSent | mission/tmtc/TmtcInfrastructure.cpp:148-177 | with queues empty and nothing well-formed refused, that is what the well-formed telecommands accepted stand for |
| PipelineRuns.GetSeesLastArrival | mission/webcam/WebcamDeviceHandler.cpp:88-103 | a Get finds the rate of the last Set that arrived, if no parameter was written since |
| PipelineRuns.GetSeesLastTelecommand | mission/tmtc/TmtcInfrastructure.cpp:148-177 | with queues empty and nothing well-formed refused, that is the last well-formed Set telecommand accepted |
| EndToEnd.AllTaken | mission/tmtc/WebcamCommandingService.cpp:98-113 | after as many translations as telecommands were queued, all of them are taken |
| EndToEnd.AllArrived | mission/webcam/WebcamDeviceHandler.cpp:238-260 | after as many deliveries as messages were queued, all of them have arrived |
| EndToEnd.AcceptedArrives | mission/tmtc/WebcamCommandingService.cpp:98-170 | an accepted telecommand that finds room arrives, later, after those |
| EndToEnd.ArrivalGoesOut | mission/webcam/WebcamDeviceHandler.cpp:80-103 | an order that has arrived goes out, within able builds for its priority and for what overtakes it |
| EndToEnd.AcceptedGoesOut | mission/tmtc/TmtcInfrastructure.cpp:148-177 | progress from the ground to the camera: the three together, in this order, for every command |
| EndToEnd.GetFindsRate | mission/webcam/WebcamDeviceHandler.cpp:88-103 | whatever parameters are written, a Get after a Set arrived finds the rate written last when the latest Set went out, which was after that arrival |
| EndToEnd.InitialRateWithoutSet | mission/webcam/WebcamDeviceHandler.cpp:88-94 | before any Set has arrived the rate is zero, whatever parameters are written |
| EndToEnd.PacketHoldsBytes | mission/tmtc/TmtcInfrastructure.cpp:155-176 | the packet the service finds holds the subservice and the bytes that were sent |
| EndToEnd.SetReachesDevice | mission/tmtc/WebcamCommandingService.cpp:140-170 | eight bytes sent as subservice 2, translated and delivered are the requested rate with the Set pending; all stores and queues are empty again |
| EndToEnd.PlainReachesDevice | mission/tmtc/WebcamCommandingService.cpp:98-170 | subservices 1 and 3 raise the snapshot and the query flag and nothing else |
| EndToEnd.SetBytesArrive | mission/webcam/WebcamDeviceHandler.cpp:269-276 | on any run, eight bytes accepted as a Set that find room become the requested rate at a later delivery, after as many translations and deliveries as there were messages before |
| Rig.Rig.Send | mission/tmtc/TmtcInfrastructure.cpp:148-177 | the distributor object does what the pipeline's send does |
| Rig.Rig.Translate | mission/tmtc/WebcamCommandingService.cpp:98-170 | the service object, on the next telecommand, does what the pipeline's translation does |
| Rig.Rig.Forward | mission/tmtc/WebcamCommandingService.cpp:98-170 | the service object, given a packet, does what the pipeline's forwarding does |
| Rig.Rig.Deliver | mission/webcam/WebcamDeviceHandler.cpp:238-260 | the handler object, on the next message, does what the pipeline's delivery does |
| Rig.Rig.TakeReply | mission/tmtc/WebcamCommandingService.cpp:115-125 | the service object, on the next reply, does what the pipeline's reply handling does |
| Rig.Execute | mission/ObjectFactory.cpp:46-107 | the wired objects, driven through any schedule, go through a run of the pipeline |
| SharedCounter.Program.Advance | ws-ipc/ipc-solutions/main-01.cpp:10-29 | one step of either task: lock or wait, load, store, print, unlock |
| SharedCounter.Execute | ws-ipc/ipc-solutions/main-01.cpp:10-29 | under any schedule the program prints what the model prints |
| SharedCounter.MutualExclusion | ws-ipc/ipc-solutions/main-01.cpp:13-15 | the tasks are never both inside the lock |
| SharedCounter.PrintsCount | ws-ipc/ipc-solutions/main-01.cpp:13-15 | no increment is lost: the values printed are 1, 2, 3, ... modulo 2^32 |
| SharedCounter.OwnLinesIncrease | ws-ipc/ipc-solutions/main-01.cpp:20-29 | lines increase until the counter wraps, each task's own among them |
| SharedCounter.WaitsIff | ws-ipc/ipc-solutions/main-01.cpp:13-15 | a step changes nothing if and only if the task sleeps while the lock is held |
| SharedCounter.RoundAlone | ws-ipc/ipc-solutions/main-01.cpp:12-17 | with the lock free, a task alone prints the next number under its name in five steps and frees the lock |
| SharedCounter.OwnLinesAreRounds | ws-ipc/ipc-solutions/main-01.cpp:10-29 | on every schedule the lines under a task's name are the rounds it completed, and one more if it has yet to unlock |
| SharedCounter.FreeCounter | ws-ipc/ipc-solutions/main-01.cpp:8-29 | with the lock free the counter is the number of rounds completed by both tasks |
| IntQueue.Program.IntSender | ws-ipc/ipc-solutions/main-02.cpp:14-24 | one step of the sender |
| IntQueue.Program.IntReceiver | ws-ipc/ipc-solutions/main-02.cpp:25-41 | one step of the receiver, which reads the back and removes the front |
| IntQueue.Execute | ws-ipc/ipc-solutions/main-02.cpp:14-41 | under any schedule the program prints what the model prints and never reads an empty queue |
| IntQueue.MutualExclusion | ws-ipc/ipc-solutions/main-02.cpp:17-34 | the threads are never both inside the lock |
| IntQueue.WaitsIff | ws-ipc/ipc-solutions/main-02.cpp:17-34 | in every reachable state a step changes nothing if and only if the thread sleeps while the lock is held |
| IntQueue.SenderRound | ws-ipc/ipc-solutions/main-02.cpp:16-23 | the sender alone queues and announces the next number and frees the lock |
| IntQueue.ReceiverRound | ws-ipc/ipc-solutions/main-02.cpp:27-39 | the receiver alone takes the front off, prints the back and frees the lock |
| IntQueue.EmptyRound | ws-ipc/ipc-solutions/main-02.cpp:30-38 | with nothing queued it prints nothing and frees the lock |
| IntQueue.FreeQueue | ws-ipc/ipc-solutions/main-02.cpp:17-34 | with the lock free the queue is the consecutive numbers up to the last one sent, and sent is received plus queued |
| IntQueue.DeliversLatest | ws-ipc/ipc-solutions/main-02.cpp:30-33 | the k-th value received is the number sent when it was read, at least k |
| IntQueue.NeverDecreases | ws-ipc/ipc-solutions/main-02.cpp:30-33 | values received never decrease while the count fits an int |
| IntQueue.InOrderIff | ws-ipc/ipc-solutions/main-02.cpp:30-33 | values arrive as sent if and only if each read found one value queued, modulo 2^32 |
| IntQueue.OutOfOrder | ws-ipc/ipc-solutions/main-02.cpp:31-32 | a schedule after which the receiver has 2, 2, out of order |
| IntQueue.AnnouncesCount | ws-ipc/ipc-solutions/main-02.cpp:21 | the sender prints 1, 2, 3, ... although it reads outside the lock |
| Yuyv.YuyvToRgb | test/webcam.cpp:48-62 | every pixel of every pair, in the frame's bytes: red from its luma and byte 3 of its pair, blue from byte 1, green from both, rounded down and clamped; nothing behind the pairs is written |
| Yuyv.RedFollowsSecondChroma | test/webcam.cpp:51-60 | a pair of two pixels and the six bytes it becomes |
| Yuyv.ConvertFrame | test/webcam.cpp:50-61 | the two moving pointers stay in bounds and fill three bytes per pixel, for any conversion |
| Yuyv.InBoundsIff | test/webcam.cpp:50-61 | every access of the loop is in bounds if and only if there is room for whole pairs |
| Yuyv.BuffersFitIffEven | test/webcam.cpp:176-177 | with a frame of two bytes or an image of three bytes per pixel, every access of the loop is in bounds if and only if the number of pixels is even and the other buffer suffices |
| Yuyv.OnePixelOverruns | test/webcam.cpp:50-61 | for a single pixel the loop leaves both buffers |
| Yuyv.ConcatenationConverts | test/webcam.cpp:50-61 | a concatenation of runs converts to the concatenation of their conversions |
| Yuyv.ClampTruncIsClampFloor | test/webcam.cpp:49-56 | once clamped, truncation and floor agree |
| Yuyv.TableForm | test/webcam.cpp:52-56 | each channel is luma plus an integer that depends on chroma only, clamped |
| Yuyv.MonotoneInLuma | test/webcam.cpp:52-56 | more luma darkens no channel |
| Yuyv.NeutralIsGrey | test/webcam.cpp:51-56 | neutral chroma gives grey of the same value |
| Yuyv.PairDifference | test/webcam.cpp:58-59 | unclamped pixels of a pair differ in each channel by their luma difference |
| Yuyv.ExactLuma | test/webcam.cpp:53-55 | before truncation the luma comes back to within 0.0001 |
| Yuyv.IdleLuma | test/webcam.cpp:49-59 | where the clamp leaves a pixel alone, the luma that comes back, exactly |
| Yuyv.LumaBound | test/webcam.cpp:51-59 | there it is less than 1.0001 off, and at most 0.0001 too high if and only if truncation gains no more than rounding down loses |
| Yuyv.UnclampedLuma | test/webcam.cpp:51-59 | with no channel negative it is less than 1.0001 too low and never too high |
| Yuyv.IdleIffUnclamped | test/webcam.cpp:49-59 | the clamp leaves a pixel alone and it is unclamped if and only if no channel is negative |
| Yuyv.TruncationBrightens | test/webcam.cpp:53-55 | a pixel the clamp leaves alone that comes back more than 0.8 too bright |
| Yuyv.RaisedWithinLoss | test/webcam.cpp:53-55 | one with a negative channel that does not |
| Capture.Webcam.StartupWebcam | test/webcam.cpp:80-125 | camera, mappings and queue after success and after failure at any step, buffer i of n included; descriptor, format and streaming by the answers |
| Capture.Webcam.ShutdownWebcam | test/webcam.cpp:129-145 | closed, not streaming, every recorded mapping gone |
| Capture.Webcam.TakeSnapshot | test/webcam.cpp:149-192 | the accesses to the buffer taken are in bounds, and it is given back on every path; success exactly if a frame, a format and a file are there; the file holds the frame's bytes or its conversion |
| Capture.Webcam.MapBuffers | test/webcam.cpp:109-117 | the loop over the buffers, wherever it stops |
| Capture.StartupSucceedsIff | test/webcam.cpp:80-125 | a startup succeeds if and only if every call in it does; it then has the adjusted format and each buffer as it was mapped |
| Capture.StartupAccounts | test/webcam.cpp:108-117 | from any state and wherever startup stops: mapped are the others, the mappings forgotten and those recorded, each once |
| Capture.ForgetsIff | test/webcam.cpp:108-117 | what the resize cuts off and the loop writes over is exactly what was recorded before and is not after |
| Capture.StartupKeepsInv | test/webcam.cpp:107-125 | on a closed camera nothing is forgotten, wherever startup stops; after success all buffers are mapped and queued |
| Capture.ShutdownUnmapsAll | test/webcam.cpp:136-142 | shutdown leaves exactly the mappings that are not the camera's |
| Capture.ShutdownLeaves | test/webcam.cpp:129-145 | after any calls at all, a shutdown of an open camera leaves the other mappings and those forgotten, and nothing else; of a closed one it changes nothing |
| Capture.CleansUpIff | test/webcam.cpp:80-145 | after any calls at all, a shutdown leaves nothing of the camera mapped if and only if no startup forgot a mapping, and the camera is open or has none recorded |
| Capture.ForgottenForGood | test/webcam.cpp:108-117 | a forgotten mapping is never unmapped |
| Capture.RetryForgets | test/webcam.cpp:108-125 | a startup that fails at its last step, a retry and a shutdown, after which two mappings remain |
| Capture.FailedReopenLeaves | test/webcam.cpp:80-81 | a failed second startup, after which shutdown leaves everything mapped |
| Capture.ShutdownCleansUp | test/webcam.cpp:129-145 | if the camera is opened only while closed: after any startups, failed or not, and any snapshots, a shutdown leaves nothing mapped and the camera closed |
| Capture.ShutdownTwice | test/webcam.cpp:131 | a second shutdown changes nothing |
| Capture.StreamingBuffers | test/webcam.cpp:149-192 | if the camera is opened only while closed, at every call boundary while streaming: all buffers are mapped; all are queued if and only if the driver took every one back |
| Capture.OneBufferOut | test/webcam.cpp:153-190 | under the same condition, during a snapshot, the buffers outside the queue are the one it works on, which is mapped, and those the driver refused before |

## Left out

- The framework itself (device handler, commanding service and pool base classes, action helper, packet classes): not part of this model; represented by the assumptions above.
- Packet byte layout, mode transitions (`doStartUp`, `doShutDown`, `buildTransitionDeviceCommand`), `getMessageQueueAndObject` and `isValidSubservice`: no state a result here depends on.
- The communication interface stub, cookie, name tables, object factory guards and `main` programs: constant or wiring only.
- The verification receiver's drain: the telemetry sink's without a store.
- SharedCounter.Program.Advance: endless loops appear as steps under a schedule of any length; sleeping and fairness are not modelled.
- IntQueue.Program.IntReceiver: the same; which thread gets a contended lock is the schedule's choice.
- PipelineRuns.GetSeesLastTelecommand: stated without parameter writes after the last Set arrived; `EndToEnd.GetFindsRate` says what a Get finds with them.
- Yuyv.YuyvToRgb: IEEE rounding, and overflow of width times height as a C int.
- Capture.Webcam.TakeSnapshot: a YUYV frame for which the conversion leaves its buffers has no defined result and is excluded; `Yuyv.BuffersFitIffEven` says which frames those are.
- Capture.ShutdownCleansUp: for a camera opened only while closed; `Capture.CleansUpIff` covers the rest. The descriptor that a second startup overwrites is not modelled.
- Capture.StreamingBuffers: the same; a startup of a streaming camera that stops half-way leaves it streaming with buffers unmapped.
- `getFramerate` and console output of the snapshot program.
