# Verification of BlueCaster's stateful cores

A Dafny 4.11 model of the parts of BlueCaster where the behaviour is hardest to see from one function:
the RFCOMM passthrough of an IPC connection, the emulated isochronous controllers, the capture analysers,
the measuring sink, and the byte formats they read and write. `dafny verify dfyconfig.toml` checks all of it.

| files | what they model |
|---|---|
| `Rfcomm.dfy`, `RfcommProofs.dfy`, `RfcommTexts.dfy`, `RfcommChannels.dfy` | one connection's RFCOMM channels: open tasks, the stack's sink, client requests, the writer and the connection's end as atomic steps over `owned` / `closed` / `held` / `ended`, the queue and the byte counter, data as base64 text; the class `Channels` runs each critical section in place |
| `IsoScheduler.dfy`, `IsoOrder.dfy`, `IsoSlots.dfy` | the per-handle SDU scheduler with timers, flushes and completion credits; the class `LeEmuController`; exactly when a handle keeps the order of its SDUs; and the interval of each SDU, told from times |
| `Broadcast.dfy`, `BroadcastProofs.dfy`, `BroadcastController.dfy` | several controllers on one link: BIGs, BISes, BIG syncs, data paths and pending SDUs; the class `Tables` |
| `BroadcastEffects.dfy`, `BroadcastAir.dfy` | what each command does and when it is refused; from a BIS's host to the air |
| `IsoDecoder.dfy`, `IsoWire.dfy`, `IsoCounts.dfy`, `IsoEndToEnd.dfy` | HCI ISO data in the LE Audio decoder: its packets as bytes, its counters over captures, and the path from the scheduler to it |
| `L2cap.dfy` | L2CAP reassembly per link and direction |
| `Avdtp.dfy`, `AvdtpProofs.dfy`, `AvdtpAnalyzer.dfy` | L2CAP / AVDTP signalling and the sessions media packets go to |
| `AvdtpChannels.dfy`, `AvdtpLog.dfy` | a link's channels, and its whole history of configurations, media and closes, told from its frames alone |
| `A2dpCapture.dfy` | a whole capture: reassembly and sessions from ACL records |
| `Rtp.dfy`, `StreamStats.dfy`, `StreamTimes.dfy`, `StreamMeter.dfy` | RTP loss accounting and the playout buffer of the measuring sink; `StreamTimes` tells rates, pauses and the buffer from arrival times and audio alone |
| `Zip.dfy`, `ZipWriter.dfy` | the .zip writer and a reader it is proved against |
| `Base.dfy`, `AdData.dfy` | the strict BASE walk and advertising data, against their grammars |
| `Ldac.dfy`, `Lhdc.dfy` | the LDAC and LHDC V5 frame walkers, against the payloads they pass |
| `Crc.dfy`, `CrcPolynomial.dfy`, `HuaweiPacket.dfy` | the CRC-protected packets of the emulated Huawei earbuds |
| `Base64.dfy`, `Bytes.dfy`, `Options.dfy` | padded base64; little-endian integers and slices; a value that may be missing |

State machines have the same shape everywhere: a value for the whole state, `Enabled` and `Apply` for each
step, `IsRun` / `After` for whole runs, one invariant kept by every step, and results over every run. Fields
marked as history (`sent`, `taken`, `carried`, `log`, `epoch`, `uid`) record what happened so that results can
speak of it; no branch of the code depends on them. Objects the source changes in place are classes whose
methods are proved to do what the step functions say.

## What turned out false

- The stack's documentation says of an open that ran out of time that its channel is closed if it opens later
  (app/src/crates/bt-host/src/rfcomm.rs:55-57). The wait can give up while the answer is already in its
  buffer (app/src/crates/bt-host/src/lib.rs:822-829), and then nobody closes the channel:
  `LostChannelStaysOpen` is such a run, and `LeakExactly` says that these are all the leaks there are.
- A handle's SDUs are not always carried in order. The SDU interval is looked up for each SDU
  (tools/emu/le_audio/controller.py:232-238), and LE Set CIG Parameters replaces it at once, SDUs pending or not
  (tools/emu/le_audio/controller.py:170-179): after a change to a shorter interval a younger SDU can be due first
  (`ShorterIntervalOvertakes`). `OrderExactly` says over every run that order is safe if and only if each SDU's slot
  begins after those of the SDUs pending on its handle; an unchanged interval is enough
  (`SameIntervalsArePunctual`), so BISes always keep it (`BisKeepsOrder`).
- A controller that both broadcasts and receives gives both roles' BISes numbers from the same base
  (tools/emu/le_audio/broadcast.py:223-227), and the data path commands look at the transmit role first. A received
  BIS whose number the controller also sends on (`RolesShareHandles`) can never get its data path
  (`DoubleRoleNeverReceives`); `SetupExactly` says when a path is set.
- A host later than max(30 ms, latency) does not always lose its turn: its SDU is moved if and only if, besides, the
  interval that many intervals after its own has already begun (`SlotExactly`, `NumbersFromTimes`).
- The sink takes an RTP packet whose padding bit is set and whose last byte is 0, which section 5.1 of RFC 3550 does
  not allow: `StripExactly` says which packets it takes.
- An empty ACL start fragment loses its frame (`EmptyStartLosesFrame`); `ReassemblyExactly` says which frames
  arrive for every cutting.
- The sink's check of RTP time stamps blames a right sender after a late packet, because the late packet's
  samples are added to the previous packet's (`LatePacketBlamesTheSender`); `TsErrorsExactly` and
  `StreamTsErrors` count the errors of a right sender for every arrival order.
- "One event per burst" of the playout model misses a burst that follows a dry buffer, because an underrun does
  not close the burst before it (`DryBufferHidesBurst`); `OverflowsExactly` gives the difference over every run.
- ISO sequence unwrapping, ISO loss counting and RTP loss counting are right for a single step exactly under the
  conditions of `UnwrapExactly`, `LossExactly` and `CountedExactly`.

## Model

| member | source | states |
|---|---|---|
| RfcommProofs.StepKeepsInv | app/src/core/src/rfcomm.rs:155-222 | every step of every task keeps the invariant of messages, ownership, closing and byte accounting |
| RfcommProofs.RunsKeepInv | app/src/core/src/rfcomm.rs:78-269 | the invariant holds in every reachable state |
| RfcommProofs.ReplayEffect | app/src/core/src/rfcomm.rs:211-220 | all held events of an opened channel reach the queue, in order, a close among them ends the ownership, and other channels' events stay held |
| RfcommProofs.ByteAccount | app/src/core/src/rfcomm.rs:83-86 | in every interleaving `pending` is the bytes held, queued, taken by the writer and about to be put, is never negative and never above 2^20 |
| RfcommTexts.TextAccount | app/src/core/src/rfcomm.rs:162-175 | in every interleaving `pending` is the total length of the base64 texts held, queued, with the writer and about to be put, at most 2^20 |
| RfcommTexts.OverflowExactly | app/src/core/src/rfcomm.rs:162-169 | over every run, data closes its channel for overflow if and only if its base64 text and those on their way are more than 2^20 bytes; else it is taken |
| RfcommTexts.RunsAreSized | app/src/core/src/rfcomm.rs:170-175 | in every reachable state each data message counts the length of its text, every other message none |
| Base64.RoundTrip | app/src/core/src/rfcomm.rs:162 | decoding what was encoded gives the payload back, for all payloads |
| Base64.EncodedLength | app/src/core/src/rfcomm.rs:162-163 | the text has 4 characters for every 3 bytes begun, padding included |
| RfcommProofs.ChannelOrder | app/src/core/src/rfcomm.rs:56-68 | what is sent of a channel is nothing, or its open answer, then its data, whose base64 texts decode to what the stack gave, in order (all of it while the channel is owned), then at most one close as the last message |
| RfcommProofs.DataIsPrefix | app/src/core/src/rfcomm.rs:155-176 | the data the sink accepted is a prefix of what the stack gave it, and all of it until the channel is closed or the connection ends |
| RfcommProofs.SilentAfterClose | app/src/core/src/rfcomm.rs:155-159 | nothing more is sent of a channel that is shut (closed by its client or an overflow after its open was answered, or the connection ended) however the run goes on |
| RfcommProofs.SilentAfterClientClose | app/src/core/src/rfcomm.rs:108-116 | from the step that takes the client's close of a channel on, nothing more is sent of it |
| RfcommProofs.TakingShuts | app/src/core/src/rfcomm.rs:109-113 | that step leaves the channel shut |
| RfcommProofs.ClientCloseWorks | app/src/core/src/rfcomm.rs:108-117 | in every reachable state, a client's close of an owned channel, with a stack there, ends the channel, and nothing more is sent of it |
| RfcommProofs.CloseRefusedExactly | app/src/core/src/rfcomm.rs:127-133 | a close only gets an answer if and only if the client does not own the channel or there is no stack |
| RfcommProofs.LeakExactly | app/src/core/src/rfcomm.rs:197-208 | once a connection is over, a channel is still open if and only if its open's answer was lost to the time-out, the device and stack did not close it and it did not overflow |
| RfcommProofs.LostChannelStaysOpen | app/src/crates/bt-host/src/lib.rs:822-829 | a run that leaves a channel open for ever |
| RfcommProofs.ClosedByOne | app/src/core/src/rfcomm.rs:250-268 | a channel that is over was closed by the one whose turn it was: client, overflow, connection's end, orphaned open task, or device and stack |
| RfcommProofs.OwnsWhatIsOpen | app/src/core/src/rfcomm.rs:127-133 | with nothing in progress, a living connection owns exactly the channels a stack has open for it, but for lost ones, also after restarts of the stack |
| RfcommChannels.Channels.Put | app/src/core/src/rfcomm.rs:56-68 | an event is queued, or held until its open is answered; a close ends the ownership |
| RfcommChannels.Channels.OnData | app/src/core/src/rfcomm.rs:155-176 | data is dropped, queued or held with its bytes counted, or closes the channel on overflow, when the result is false |
| RfcommChannels.Channels.OnClosed | app/src/core/src/rfcomm.rs:177-184 | a close by the device or stack is put unless the client already knows |
| RfcommChannels.Channels.OpenFinished | app/src/core/src/rfcomm.rs:201-220 | answers the open and replays held events in a loop, or finds the connection ended |
| RfcommChannels.Channels.Close | app/src/core/src/rfcomm.rs:108-115 | a client close of an owned channel ends the ownership and silences the channel |
| RfcommChannels.Channels.Written | app/src/core/src/rfcomm.rs:83-86 | the counter goes down by the bytes written |
| RfcommChannels.Channels.Drop | app/src/core/src/rfcomm.rs:252-258 | the connection ends, gives up what it owned for closing and forgets what it held |
| IsoScheduler.ExactlyOnce | tools/emu/le_audio/controller.py:292-329 | over every run, whatever intervals the SDUs came with, what a handle carried and what waits are together exactly what was accepted, and completions are SDUs accepted less SDUs pending, and those refused |
| IsoScheduler.OneSduPerInterval | tools/emu/le_audio/controller.py:269-296 | between two flushes of a handle, interval numbers strictly increase and the pending SDUs hold different ones of them, the older the smaller |
| IsoSlots.NumbersFromTimes | tools/emu/le_audio/controller.py:269-292 | over every run, told from times: the first SDU since a flush takes the first interval that has not begun; a host in time for the next number takes it; a later one takes the first interval that has not begun less the intervals it may be late by |
| IsoSlots.SlotExactly | tools/emu/le_audio/controller.py:269-285 | the same of one SDU; in time means at most max(30 ms, latency) late beyond what is excused, or the intervals of that limit, at least 3, not over |
| IsoSlots.CurrentIsFirstFree | tools/emu/le_audio/controller.py:271 | the code's rounding gives the least interval that has not begun by more than a millionth of it |
| IsoSlots.LateIntervalsAre | tools/emu/le_audio/controller.py:269-270 | the lateness in intervals is the least number that lasts the limit, at least 3 |
| IsoSlots.InTimeTakesNext | tools/emu/le_audio/controller.py:276-285 | a host in time gets the number after its last one |
| IsoSlots.FlushStartsOver | tools/emu/le_audio/controller.py:323-329 | in every reachable state a handle's numbers are as many as the SDUs accepted since its last flush, right after which nothing waits |
| IsoOrder.OrderExactly | tools/emu/le_audio/controller.py:271-321 | over every run, no SDU of a handle can be overtaken however time and timers go on from any point of it, if and only if every SDU accepted on the handle came in turn: its slot begins after those pending |
| IsoOrder.AcceptKeepsOrderExactly | tools/emu/le_audio/controller.py:292-321 | one accepted SDU keeps its handle's order if and only if its slot begins after those of the pending SDUs |
| IsoOrder.Overtaken | tools/emu/le_audio/controller.py:317-321 | from any state of a run in which pending SDUs are not in order, time and timers alone can carry a younger one first |
| IsoOrder.ExactlyOnceInOrder | tools/emu/le_audio/controller.py:292-329 | over every run in which SDUs came in turn, what a handle carried followed by what waits is exactly what was accepted |
| IsoOrder.TimersFireInOrder | tools/emu/le_audio/controller.py:299-321 | in every state of such a run the timer that fires next is the oldest SDU's |
| IsoOrder.OldestFires | tools/emu/le_audio/controller.py:317-321 | of SDUs in order only the oldest one's timer can fire |
| IsoOrder.SameIntervalsArePunctual | tools/emu/le_audio/controller.py:232-238 | a handle whose interval does not change while SDUs wait gets every SDU in turn |
| IsoOrder.ShorterIntervalOvertakes | tools/emu/le_audio/controller.py:170-179 | a run in which the interval becomes 7.5 ms while an SDU of 10 ms waits, and the younger SDU is carried first |
| IsoScheduler.RunsKeepInv | tools/emu/le_audio/controller.py:240-329 | the scheduler's invariant holds after every run of accepts, refusals, timers, flushes and time |
| IsoScheduler.FlushAfterDelivery | tools/emu/le_audio/controller.py:323-329 | a flush is its first delivery and then the flush of the rest |
| IsoScheduler.LeEmuController.OnHciIsoData | tools/emu/le_audio/controller.py:225-238 | ISO data on an unknown handle is completed and not taken; on a CIS it is scheduled with the parameters kept for the link now, or 10000 us and no latency |
| IsoScheduler.LeEmuController.ScheduleIsoSdu | tools/emu/le_audio/controller.py:240-321 | an SDU takes the next free interval, or a later one when the host was late, and waits there |
| IsoScheduler.LeEmuController.DeliverEntry | tools/emu/le_audio/controller.py:299-315 | a delivery takes the entry from the pending list, carries it and completes it once |
| IsoScheduler.LeEmuController.FlushIso | tools/emu/le_audio/controller.py:323-329 | the loop over handles carries all their pending SDUs in order and starts the handles over |
| IsoScheduler.LeEmuController.FlushOne | tools/emu/le_audio/controller.py:325-329 | the loop over one handle's entries carries each of them once |
| BroadcastProofs.TablesConsistent | tools/emu/le_audio/broadcast.py:355-473 | in every reachable state `bis_tx` and `bis_rx` are the inverses of the groups' handles, data paths are the group's own, each BIG has its own periodic advertising set, each established sync names a live BIG, and no lookup by handle fails |
| BroadcastProofs.LookupsNeverFail | tools/emu/le_audio/broadcast.py:440-473 | the tables' invariant makes the lookups of a handle's group safe |
| BroadcastProofs.DeliverySafety | tools/emu/le_audio/broadcast.py:468-481 | over every run an SDU reached only handles synced to the very BIG it was queued on, at its index, with a data path, and with the BIG's Broadcast_Code if encrypted, however handles were reused |
| BroadcastProofs.ExactDelivery | tools/emu/le_audio/broadcast.py:694-698 | no such handle is missed |
| BroadcastProofs.PendingBelongsToLiveBig | tools/emu/le_audio/broadcast.py:419-436 | what waits on a handle belongs to the BIG the handle belongs to now: no SDU outlives its BIG |
| BroadcastProofs.BisKeepsOrder | tools/emu/le_audio/broadcast.py:474-481 | in every reachable state a BIS has carried its SDUs in order, the rest waits in order, and the next timer is the oldest SDU's |
| BroadcastProofs.StepKeepsInv | tools/emu/le_audio/broadcast.py:355-723 | every command, timer and environment step keeps the invariant of the whole link |
| BroadcastProofs.RunsKeepInv | tools/emu/le_audio/broadcast.py:195-723 | it holds in every reachable state |
| BroadcastProofs.TerminateKeepsLink | tools/emu/le_audio/broadcast.py:419-436 | ending a BIG flushes its SDUs, frees its handles and drops every sync to it, and keeps the invariant |
| BroadcastProofs.EstablishKeepsLink | tools/emu/le_audio/broadcast.py:664-692 | establishing a BIG sync keeps the invariant across the two controllers |
| BroadcastEffects.TryExactly | tools/emu/le_audio/broadcast.py:646-692 | a pending sync whose set has a BIG ends established, with a new handle of its own for each index, if and only if its indices are some, distinct and of the BIG, and the BIG is open or the sync has encryption and its code; else it is gone |
| BroadcastEffects.NextSduReaches | tools/emu/le_audio/broadcast.py:468-481 | over every run: after Setup of a synced handle in direction 1, the next SDU of its BIS reaches it once its interval has begun |
| BroadcastEffects.CreateExactly | tools/emu/le_audio/broadcast.py:355-394 | a BIG is made, with new handles for its BISes in order, if and only if its handle is new, its set has periodic advertising no BIG uses, it has 1 to 31 BISes, an interval and an SDU size; else nothing changes |
| BroadcastEffects.CreateStatusExactly | tools/emu/le_audio/broadcast.py:356-370 | the error checks together are that condition |
| BroadcastEffects.BigHandlesAre | tools/emu/le_audio/broadcast.py:383-388 | a BIG's handles are, in order, the least free numbers from 0x0100 |
| BroadcastEffects.SyncHandlesAre | tools/emu/le_audio/broadcast.py:680-685 | so are a sync's, in the order of its indices |
| BroadcastEffects.SetupExactly | tools/emu/le_audio/broadcast.py:440-455 | a data path is set if and only if the handle has none and the direction is that of its role, the transmit role first; nothing else changes |
| BroadcastEffects.RemoveExactly | tools/emu/le_audio/broadcast.py:457-466 | a path that is set goes, and nothing else changes |
| BroadcastEffects.DoubleRoleNeverReceives | tools/emu/le_audio/broadcast.py:440-455 | a received BIS whose number the controller also sends on never gets a path |
| BroadcastEffects.RolesShareHandles | tools/emu/le_audio/broadcast.py:223-227 | such a number is given whenever both roles use the first one |
| BroadcastEffects.CreateSyncExactly | tools/emu/le_audio/broadcast.py:630-644 | a new sync waits if and only if its periodic sync is there |
| BroadcastEffects.TerminateSyncExactly | tools/emu/le_audio/broadcast.py:712-723 | the sync and exactly its handles go |
| BroadcastEffects.TerminateExactly | tools/emu/le_audio/broadcast.py:419-436 | a BIG's record, handles and waiting SDUs go and exactly the syncs to it, at every controller |
| BroadcastEffects.RemoveSetExactly | tools/emu/le_audio/broadcast.py:266-274 | an advertising set goes if and only if no BIG uses it |
| BroadcastEffects.AdvertisingExactly | tools/emu/le_audio/broadcast.py:266-333 | sets, periodic advertising and syncs to it change exactly as the commands about them say, and by no other command, timer or controller |
| BroadcastEffects.SyncedMeans | tools/emu/le_audio/broadcast.py:694-698 | an established sync names a handle of a BIS that is there |
| BroadcastAir.AirIsCarried | tools/emu/le_audio/broadcast.py:474-481 | in every reachable state, what a broadcaster sent is exactly what its scheduler carried, in that order |
| BroadcastAir.TakenIsOffered | tools/emu/le_audio/broadcast.py:468-481 | in every reachable state, a handle has taken exactly the data its host gave while it was a BIS, in order |
| BroadcastAir.BisTakesNumber | tools/emu/le_audio/broadcast.py:474-481 | each SDU of a BIS takes the interval its time of arrival says, with its BIG's interval and latency |
| BroadcastAir.DisconnectSends | tools/emu/le_audio/controller.py:323-329 | when a handle is disconnected, all that its host gave it has been sent |
| Broadcast.FreeHandleFrom | tools/emu/le_audio/broadcast.py:223-227 | the least free handle from the base |
| BroadcastController.FreeIsoHandle | tools/emu/le_audio/broadcast.py:223-227 | the allocator's loop finds it |
| BroadcastController.AllocateHandles | tools/emu/le_audio/broadcast.py:383-388 | n distinct new handles, each taken before the next is looked for |
| BroadcastController.Tables.CreateBig | tools/emu/le_audio/broadcast.py:355-394 | the error checks in order, or a new BIG with a handle per BIS |
| BroadcastController.Tables.RemoveBigRecord | tools/emu/le_audio/broadcast.py:419-436 | the BIG's handles and record go |
| BroadcastController.Tables.RemoveAdvertisingSet | tools/emu/le_audio/broadcast.py:266-283 | refused while a BIG uses the set; its periodic advertising goes with it |
| BroadcastController.Tables.SetupIsoDataPath | tools/emu/le_audio/broadcast.py:440-455 | a path for a handle of either role in the right direction, or an error |
| BroadcastController.Tables.RemoveIsoDataPath | tools/emu/le_audio/broadcast.py:457-466 | the path of a handle goes, or an error |
| BroadcastController.Tables.OnHciIsoData | tools/emu/le_audio/broadcast.py:468-481 | an SDU on any BIS of the controller is scheduled with its BIG's interval and latency, data path or not; one on an unknown handle is completed and not taken |
| BroadcastController.Tables.EstablishBigSync | tools/emu/le_audio/broadcast.py:664-692 | refused for a wrong code or index, or established with a new handle per BIS |
| BroadcastController.Tables.DropBigSync | tools/emu/le_audio/broadcast.py:700-703 | a sync and exactly its handles go |
| BroadcastController.Tables.SourceBigTerminated | tools/emu/le_audio/broadcast.py:705-710 | exactly the syncs to that BIG are dropped |
| BroadcastController.Tables.BisReceiving | tools/emu/le_audio/broadcast.py:694-698 | the handles that take an SDU of a BIS now |
| IsoDecoder.UnwrapExactly | tools/a2dp_decode/le_audio_decode.cpp:373-382 | one step's unwrapped number is right if and only if it stays within its 65536 numbers and goes back by at most 0x8000, or enters the next ones by at most 0x7FFF |
| IsoDecoder.LossExactly | tools/a2dp_decode/le_audio_decode.cpp:373-389 | SDUs and missing ones grow by the true step if and only if it is 1 to 65536 |
| IsoDecoder.Accounting | tools/a2dp_decode/le_audio_decode.cpp:363-389 | for every capture whose true numbers step by 1 to 0x7FFF, SDUs plus missing are the numbers covered, gaps are the steps above one, and the unwrapped number is the true one up to one constant, over any number of wraps and whatever other packets come between |
| IsoCounts.CountsExactly | tools/a2dp_decode/le_audio_decode.cpp:341-404 | over every capture, fragments, status errors and wrong lengths are counted exactly |
| IsoCounts.KeysAndStamps | tools/a2dp_decode/le_audio_decode.cpp:372-404 | over every capture with true numbers, the timeline keys are the true numbers of the SDUs of the configured size, up to one constant, and `ts_bad` counts exactly the SDUs whose time stamp does not step with their number, across both wraps |
| IsoWire.SdusRead | tools/a2dp_decode/le_audio_decode.cpp:354-369 | an SDU with or without time stamp is read from its bytes; a wrong length field makes it a bad length and nothing else |
| IsoWire.FragmentsRead | tools/a2dp_decode/le_audio_decode.cpp:350-353 | a packet whose boundary flag is not 2 is a fragment |
| IsoWire.ShortLoadsRead | tools/a2dp_decode/le_audio_decode.cpp:354-362 | a load too short for its time stamp is not used, one too short for an SDU header has none |
| IsoWire.CutShortIsUnusable | tools/a2dp_decode/le_audio_decode.cpp:342-347 | a packet is not used if it is shorter than its header or its length field says |
| IsoDecoder.CisStream.OnIso | tools/a2dp_decode/le_audio_decode.cpp:341-404 | each packet updates the stream's counters as its header says: too short, fragment, no SDU header, wrong length, or an SDU |
| IsoDecoder.CisStream.Count | tools/a2dp_decode/le_audio_decode.cpp:372-404 | an SDU's number, time stamp, length and timeline key are counted |
| IsoEndToEnd.PacketRoundTrip | tools/emu/le_audio/controller.py:305-314 | the decoder reads back the time stamp, number and data the controller sends |
| IsoEndToEnd.CarriedIsDecoded | tools/a2dp_decode/le_audio_decode.cpp:372-404 | consecutive numbers give no gap, nothing missing and consecutive keys however SDUs were moved; `ts_bad` counts exactly the moves the 32-bit time stamp shows |
| IsoEndToEnd.EndToEnd | tools/emu/le_audio/controller.py:292-316 | for every scheduler run whose host is in time for each SDU of a handle and numbers consecutively, the decoder ends with `gaps`, `missing` and `ts_bad` 0 and consecutive timeline keys, across both wraps |
| IsoEndToEnd.EndToEndFlushed | tools/emu/le_audio/controller.py:323-329 | the same after the final flush, when every accepted SDU is decoded |
| L2cap.ReassemblyExactly | tools/a2dp_decode/a2dp_decode.cpp:1025-1045 | in any interleaving, a stream gives exactly the frames sent whole whose start fragment is not empty, in order, byte for byte, also after frames cut short, disconnections and a capture that begins inside a frame |
| L2cap.InvertsFragmentation | tools/a2dp_decode/le_audio_decode.cpp:207-227 | with non-empty start fragments every frame sent whole arrives |
| L2cap.EmptyStartLosesFrame | tools/a2dp_decode/a2dp_decode.cpp:1034-1035 | a frame whose start fragment is empty is lost |
| L2cap.StreamsAreIndependent | tools/a2dp_decode/a2dp_decode.cpp:1031-1033 | each link and direction sees what it would see alone |
| L2cap.CompleteExactly | tools/a2dp_decode/a2dp_decode.cpp:1039-1044 | the start of a frame is handed on if and only if it is the whole frame |
| L2cap.AclRoundTrip | tools/a2dp_decode/a2dp_decode.cpp:1026-1030 | handle, boundary flag and data of an ACL packet are read back, whatever follows it in the record |
| L2cap.AclExactly | tools/a2dp_decode/a2dp_decode.cpp:1026-1030 | a record is taken if and only if it begins with a whole ACL packet, and is read as that packet |
| L2cap.Reassembly.OnAcl | tools/a2dp_decode/a2dp_decode.cpp:1025-1045 | one ACL packet updates its stream's buffer and may hand on one frame |
| L2cap.Reassembly.OnFragment | tools/a2dp_decode/a2dp_decode.cpp:1033-1044 | the buffer after a start or continuing fragment |
| L2cap.Reassembly.OnDisconnected | tools/a2dp_decode/le_audio_decode.cpp:199-203 | both directions of the link start over |
| AvdtpProofs.SessionsExactly | tools/a2dp_decode/a2dp_decode.cpp:1107-1177 | in every capture each session is one accepted configuration and holds exactly the media packets of its link from then until the next accepted configuration, the close of a non-first channel or the disconnection; every accepted configuration has its session |
| AvdtpProofs.OneActivePerLink | tools/a2dp_decode/a2dp_decode.cpp:1160-1177 | at most one session of a link is unfinished, and it is the active one |
| AvdtpProofs.MediaGoesToTheCurrentSession | tools/a2dp_decode/a2dp_decode.cpp:1055-1058 | a packet changes a session only if it is of its link and nothing has ended it since it was accepted |
| AvdtpProofs.TrackerInv | tools/a2dp_decode/a2dp_decode.cpp:1114-1177 | pending commands, sessions and active table against the history alone |
| AvdtpProofs.StartsNowExactly | tools/a2dp_decode/a2dp_decode.cpp:1142-1153 | a response starts a session if and only if it accepts an outstanding command of the other direction with its label and signal |
| AvdtpProofs.SignalsRead | tools/a2dp_decode/a2dp_decode.cpp:1066-1105 | the loop takes every command of a signalling frame, in order, and stops at a tail that is not whole |
| AvdtpProofs.CapabilitiesRead | tools/a2dp_decode/a2dp_decode.cpp:1130-1135 | the configuration is the last Media Codec capability of the list, and the walk stops at a tail that is not whole |
| AvdtpProofs.ChannelOpens | tools/a2dp_decode/a2dp_decode.cpp:1072-1090 | a request and its success, as bytes and from either side, add one channel with the host's CID as local |
| AvdtpProofs.ConfigurationAccepted | tools/a2dp_decode/a2dp_decode.cpp:1124-1153 | a command and its accept, as bytes, make a new active session of the last codec named |
| AvdtpProofs.MediaReaches | tools/a2dp_decode/a2dp_decode.cpp:1047-1063 | a frame on a non-first channel in the media direction is added whole to the active session |
| A2dpCapture.CaptureExactly | tools/a2dp_decode/a2dp_decode.cpp:1025-1063 | over every capture of ACL records, cut and interleaved in any way, each link's history is exactly what its frames say, each session is exact against it, the media packets of a link are exactly the frames its signalling makes media packets, and what a session of a link got is made of the payloads of frames sent whole on the link in the media direction, in order, byte for byte |
| A2dpCapture.TwoStages | tools/a2dp_decode/a2dp_decode.cpp:1025-1045 | the analysis of a capture is the reassembly of its records and then the tracking of the frames |
| A2dpCapture.MediaIsFrames | tools/a2dp_decode/a2dp_decode.cpp:1047-1063 | over every capture the media packets in a link's history are exactly its frames in the media direction whose CID first names a non-first channel of those open then |
| AvdtpChannels.ChannelsExactly | tools/a2dp_decode/a2dp_decode.cpp:1065-1105 | in every capture a link's channel list is exactly what its signalling frames say: the AVDTP connections answered with success and not taken out since, in order |
| AvdtpChannels.OpensNowExactly | tools/a2dp_decode/a2dp_decode.cpp:1074-1090 | an answer opens a channel if and only if it is a success to the latest request of the other side with its identifier, on the AVDTP PSM and not answered before |
| AvdtpChannels.OpenExactly | tools/a2dp_decode/a2dp_decode.cpp:1091-1101 | a channel is open if and only if its link has not gone since and its local CID was named by no more disconnection requests since than there were open channels of that CID before it |
| AvdtpChannels.MediaExactly | tools/a2dp_decode/a2dp_decode.cpp:1047-1063 | a frame is a media packet if and only if it is in the media direction and its CID first names a non-first channel |
| AvdtpChannels.TablesFromSignalling | tools/a2dp_decode/a2dp_decode.cpp:1047-1105 | channels and pending requests depend on signalling frames and disconnections alone |
| AvdtpLog.HistoryExactly | tools/a2dp_decode/a2dp_decode.cpp:1047-1160 | in every capture a link's history is exactly what its frames say: the whole SET_CONFIGURATION and RECONFIGURE messages on its first channel as commands, with label and last Media Codec capability, and as answers, accepted for message type 2 only; its media packets, closes and disconnections; all in order |
| AvdtpLog.OtherMessagesAreQuiet | tools/a2dp_decode/a2dp_decode.cpp:1114-1160 | every other message on the first channel leaves sessions, pending commands and history alone |
| AvdtpLog.CountsExactly | tools/a2dp_decode/a2dp_decode.cpp:1047-1063 | fragments of signalling and media packets of the other direction are counted exactly |
| AvdtpLog.MessagesAreBytes | tools/a2dp_decode/a2dp_decode.cpp:1115-1120 | every string of two bytes is one message, and each message is read back |
| AvdtpLog.ListedIs | tools/a2dp_decode/a2dp_decode.cpp:1130-1135 | the capabilities listed are what the bytes hold, up to a tail that is not whole |
| AvdtpLog.CodecIs | tools/a2dp_decode/a2dp_decode.cpp:1126-1135 | the loop's result is the last Media Codec capability after one or two stream end points |
| A2dpCapture.MediaIsPart | tools/a2dp_decode/a2dp_decode.cpp:1047-1063 | the media packets in a link's history are frames of the link in the media direction, in their order |
| AvdtpAnalyzer.Analyzer.Finish | tools/a2dp_decode/a2dp_decode.cpp:968-969 | after any capture, every session has been finished exactly once and none is active |
| AvdtpAnalyzer.Analyzer.EndSession | tools/a2dp_decode/a2dp_decode.cpp:1172-1177 | the link's active session, if any, is finished and inactive |
| AvdtpAnalyzer.Analyzer.BeginSession | tools/a2dp_decode/a2dp_decode.cpp:1162-1170 | the earlier session is finished and the new one is active |
| AvdtpAnalyzer.Analyzer.OnFrame | tools/a2dp_decode/a2dp_decode.cpp:1047-1063 | a frame goes to signalling, to AVDTP, to the session or is counted, by the first channel its CID names |
| AvdtpAnalyzer.Analyzer.OnL2capSignaling | tools/a2dp_decode/a2dp_decode.cpp:1065-1105 | the loop over signalling commands |
| AvdtpAnalyzer.Analyzer.OnConnectionResponse | tools/a2dp_decode/a2dp_decode.cpp:1074-1090 | a final answer removes the request, and a success on the AVDTP PSM adds the channel |
| AvdtpAnalyzer.Analyzer.OnDisconnectionRequest | tools/a2dp_decode/a2dp_decode.cpp:1091-1101 | the first channel of that local CID closes, and a non-first one ends the session |
| AvdtpAnalyzer.Analyzer.OnAvdtpSignaling | tools/a2dp_decode/a2dp_decode.cpp:1114-1160 | fragments are counted, configuration commands are kept by label, responses answered |
| AvdtpAnalyzer.Analyzer.OnResponse | tools/a2dp_decode/a2dp_decode.cpp:1142-1154 | a matching response removes the command, and an accept starts a session |
| AvdtpAnalyzer.Analyzer.ReadCapabilities | tools/a2dp_decode/a2dp_decode.cpp:1130-1135 | the loop over capabilities |
| AvdtpAnalyzer.Analyzer.OnDisconnected | tools/a2dp_decode/a2dp_decode.cpp:1015-1022 | the session ends and the link's channels go |
| Rtp.LossAccounting | tools/linux_sink/bluecaster_sink.py:664-681 | within one START, for arrivals within the 16-bit window of the highest, packets in sequence plus lost ones are the numbers covered, and late ones are exactly those at or below the highest before them, over any number of wraps |
| Rtp.CountedExactly | tools/linux_sink/bluecaster_sink.py:664-681 | one arrival is counted rightly if and only if it is at most 0x7FFF ahead of the next expected, or behind by a distance that does not look ahead modulo 2^16 |
| Rtp.TsErrorsExactly | tools/linux_sink/bluecaster_sink.py:666-671 | for a sender with right time stamps, errors are exactly the packets in sequence that follow late packets with audio |
| Rtp.LatePacketBlamesTheNext | tools/linux_sink/bluecaster_sink.py:675-678 | three arrivals of a right sender with one error |
| Rtp.StripRoundTrip | tools/linux_sink/bluecaster_sink.py:649-663 | number, time stamp and payload of every packet of section 5.1 of RFC 3550 are read, whatever CSRCs, extension and padding it carries |
| Rtp.StripExactly | tools/linux_sink/bluecaster_sink.py:649-663 | a byte string is taken if and only if it is an RTP packet, and number, time stamp and payload are those of any message it is the bytes of; of padding, exactly the bytes the last byte counts are removed, also none |
| StreamStats.StreamLossAccounting | tools/linux_sink/bluecaster_sink.py:573-578 | the loss accounting from a START on, over packets as bytes and with invalid ones between |
| StreamStats.CountersAre | tools/linux_sink/bluecaster_sink.py:605-648 | the counters after a stream are those of its valid packets, with the samples counted in the payloads before each |
| StreamStats.PlayoutConserved | tools/linux_sink/bluecaster_sink.py:831-873 | in every reachable state `play_end` is the epoch's start, the buffer, all audio at its rate, plus silence, less audio skipped; it lies between the last packet's time and the limit above it; every rate is within 0.0005 of 1; underruns and overflows are counted as the packets say |
| StreamTimes.PlayoutExactly | tools/linux_sink/bluecaster_sink.py:831-873 | over every run and from arrival times and audio alone: the packets of the epoch, the rate each was played at (1 until 10 s after the reference, then the audio since it over the time since it, within 1 +- 0.0005), how each met the buffer, when the buffer runs out, silence and audio skipped |
| StreamTimes.RunsAreTold | tools/linux_sink/bluecaster_sink.py:605-625 | the same as an invariant, with pauses and first and last arrivals |
| StreamTimes.ReferenceIs | tools/linux_sink/bluecaster_sink.py:848-850 | the reference is the first packet at least 2 s after the epoch's first arrival |
| StreamTimes.SteadySender | tools/linux_sink/bluecaster_sink.py:851-853 | a sender within 500 ppm is measured at its own rate |
| StreamTimes.TotalsExactly | tools/linux_sink/bluecaster_sink.py:605-648 | over every run all packets are counted, and the samples of the valid ones; a START keeps both |
| StreamStats.AptxSamples | tools/linux_sink/bluecaster_sink.py:783-789 | aptX has 4 samples in every whole unit of 4 bytes, aptX HD of 6 |
| StreamStats.TimingKeepsInv | tools/linux_sink/bluecaster_sink.py:844-873 | one packet keeps conservation, bounds and counts |
| StreamStats.RestartKeepsInv | tools/linux_sink/bluecaster_sink.py:580-587 | a new epoch begins with its totals as they stand |
| StreamStats.OverflowsExactly | tools/linux_sink/bluecaster_sink.py:864-873 | over every run, bursts of the epoch are its overflow events plus those that began behind a dry buffer, so events are one per burst if and only if there are none of these |
| StreamStats.BurstsExactly | tools/linux_sink/bluecaster_sink.py:864-873 | the same of a list of packets |
| StreamStats.DryBufferHidesBurst | tools/linux_sink/bluecaster_sink.py:855-873 | an aptX stream of four packets of 480 bytes, into a buffer of 10 ms, with two bursts and one event |
| StreamStats.StreamTsErrors | tools/linux_sink/bluecaster_sink.py:664-681 | from a START on, over packets as bytes, a right sender gets an error for exactly each packet in sequence that follows late packets with audio |
| StreamStats.LatePacketBlamesTheSender | tools/linux_sink/bluecaster_sink.py:675-678 | an LDAC stream of three packets, with right time stamps and payloads without issues, with one error |
| StreamMeter.Meter.StripRtp | tools/linux_sink/bluecaster_sink.py:649-681 | the header is read and the packet counted |
| StreamMeter.Meter.CountAudio | tools/linux_sink/bluecaster_sink.py:632-646 | the samples a payload adds: LDAC frames walked, aptX bytes divided |
| StreamMeter.Meter.MeasureRate | tools/linux_sink/bluecaster_sink.py:847-853 | the sender's rate is measured from 2 s into the stream and used after 10 s more, within its limits |
| StreamMeter.Meter.BufferAudio | tools/linux_sink/bluecaster_sink.py:854-873 | a packet starts, refills, extends or overfills the buffer |
| StreamMeter.Meter.Received | tools/linux_sink/bluecaster_sink.py:605-648 | a packet: pause, header, samples, playout |
| StreamMeter.Meter.Started | tools/linux_sink/bluecaster_sink.py:589-594 | a START restarts sequence tracking and playout and keeps the counters |
| Zip.RoundTrip | app/src/core/src/zip.rs:41-117 | reading the end record, the directory and the local headers gives back every name, its UTF-8 flag, time, date, CRC, size and content, in order, for all files within the limits without ZIP64 |
| Zip.EntryRead | app/src/core/src/zip.rs:45-69 | a directory entry is read with its local header, whose fields agree with it |
| Zip.HeaderBytes | app/src/core/src/zip.rs:55-117 | the signatures, version 2.0 and UTF-8 flag of all headers, byte by byte; no comments and extra fields |
| Zip.BodyNoLarger | app/src/core/src/zip.rs:44-46 | a body is the file or what deflate made of it, and larger than neither |
| ZipWriters.ZipWriter.Add | app/src/core/src/zip.rs:41-70 | the file's local entry is appended and its directory entry kept |
| ZipWriters.ZipWriter.PutLocal | app/src/core/src/zip.rs:55-68 | the local header, name and body |
| ZipWriters.ZipWriter.PutCentral | app/src/core/src/zip.rs:88-106 | the directory entry |
| ZipWriters.ZipWriter.Finish | app/src/core/src/zip.rs:83-117 | the loop over entries and the end record give the archive of all files added |
| Base.BaseExactly | tools/emu/le_audio/broadcast_sink.py:97-128 | the walk accepts a byte string if and only if it is the serialization of a BASE with at least one subgroup, at least one BIS in each and well-formed LTVs, although slices stop at the end of the data |
| Base.SubgroupSound | tools/emu/le_audio/broadcast_sink.py:104-126 | a subgroup the walk passes is the serialization of one |
| Base.SubgroupComplete | tools/emu/le_audio/broadcast_sink.py:104-126 | the serialization of a subgroup is passed |
| Base.BaseWalk | tools/emu/le_audio/broadcast_sink.py:97-128 | the loop over subgroups |
| Base.SubgroupWalk | tools/emu/le_audio/broadcast_sink.py:104-126 | one subgroup |
| Base.BisWalk | tools/emu/le_audio/broadcast_sink.py:119-124 | the loop over BISes |
| Base.LtvWalk | tools/emu/le_audio/broadcast_sink.py:87-94 | the loop over LTV structures |
| AdData.AdsExactly | tools/emu/le_audio/broadcast_sink.py:63-77 | advertising data gives these structures if and only if it is their serialization and zero padding |
| AdData.AdStructures | tools/emu/le_audio/broadcast_sink.py:63-77 | the loop over structures |
| Ldac.LdacExactly | tools/a2dp_decode/a2dp_decode.cpp:744-780 | a non-empty payload raises no issue if and only if its header's low nibble is k and exactly k well-formed frames of the configured ids follow; these frames are unique |
| Ldac.WalkFinds | tools/a2dp_decode/a2dp_decode.cpp:749-765 | frames and samples counted are those of the frames found, and the walk has no issue exactly if they are all there is and of the configured ids |
| Ldac.PayloadSamples | tools/linux_sink/bluecaster_sink.py:823-827 | a payload without issues adds the samples of its frames |
| Ldac.SamplesByRate | tools/linux_sink/bluecaster_sink.py:206-214 | a frame has 128 samples if the sampling rate its id names is at most 48 kHz, else 256 |
| Ldac.FramesUnique | tools/a2dp_decode/a2dp_decode.cpp:750-764 | a byte string is at most one sequence of frames |
| Ldac.CheckLdac | tools/a2dp_decode/a2dp_decode.cpp:744-780 | the decoder's loop stays in bounds, ends, and gives the walk's frames, samples and issues |
| Ldac.MeasureLdac | tools/linux_sink/bluecaster_sink.py:800-829 | the sink's loop gives the same frames and samples on every payload, issues on the same payloads, and a frame error exactly when the walk was broken off |
| Lhdc.LhdcExactly | tools/a2dp_decode/a2dp_decode.cpp:814-843 | a payload raises no issue if and only if it announces k frames and exactly k well-formed frames follow; these are unique |
| Lhdc.LhdcChecker.Packet | tools/a2dp_decode/a2dp_decode.cpp:814-843 | frames and issues of the walk, and sequence gaps over packets |
| Lhdc.LhdcChecker.WalkFrames | tools/a2dp_decode/a2dp_decode.cpp:822-834 | the loop over frames |
| Crc.CrcOfProtected | tools/emu/emu_sink.py:427-432 | the CRC over a string and its CRC is 0 |
| CrcPolynomial.CrcIsRemainder | tools/emu/emu_sink.py:427-431 | the CRC of a string is the remainder of its bits and 16 zeros by x^16 + x^12 + x^5 + 1 |
| CrcPolynomial.RegisterIsRemainder | tools/emu/emu_sink.py:428-431 | so is the register after any bits from any value |
| Crc.BurstsDetected | tools/emu/emu_sink.py:427-431 | every change within 16 consecutive bits, at any bit position, changes the CRC |
| Crc.CrcIsBits | tools/emu/emu_sink.py:427-431 | the byte loop is the CRC taken bit by bit, most significant first |
| HuaweiPacket.PacketRoundTrip | tools/emu/emu_sink.py:461-463 | a packet built checks to 0, and the reader's slices give back its command and parameter bytes |
| HuaweiPacket.PacketHeader | tools/emu/emu_sink.py:423-426 | a packet begins with 0x5A, the length of what follows up to the CRC, and 0 |
| HuaweiPacket.AdjacentDetected | tools/emu/emu_sink.py:427-431 | two strings of one length that differ, and only within two adjacent bytes, have different CRCs |
| HuaweiPacket.HuaweiBytes | tools/emu/emu_sink.py:423-432 | the packet, or an error for a value or body whose length does not fit |
| HuaweiPacket.CrcOf | tools/emu/emu_sink.py:427-431 | the two nested loops compute the CRC |

## Left out

- Codec libraries, WAV files and report printing of both decoders. In the measuring sink LDAC and aptX samples are counted in the payload; those of SBC, FastStream, Opus and AAC come with a packet. Frame size statistics of the walkers are printed only.
- `parse_config_codec`, `retire` and `stream_for` of the LE Audio decoder: a stream is given with its configuration; and the stereo placement in its `finish`.
- RFCOMM opens that fail before the stack opened a channel, sends, and requests other than close: they only queue a response, which is a step of its own (`Responds`).
- The stack's side of RFCOMM is assumptions: fresh channel ids, at most one close event per channel and nothing after it, a sink result of false closes the channel, a close handed over is carried out. The stack can go and a new one come; a stack that is no longer offered stops in the end, and closes handed to it may be lost.
- The superclass of the emulated controllers: HCI reset, advertising timers, LE connections, CIS setup; on the link of broadcasting controllers a handle that is no BIS is unknown. The receivers of a CIS are as many as the caller names.
- asyncio's own queues: a timer may fire when it is due and no older SDU of its handle is due before it, which allows every order asyncio has.
- Periodic advertising reports, BIGInfo, and the matching of a periodic sync by address and SID: a sync to an advertising set is a step of the environment.
- In the link of several controllers the objects refer to each other; the model keeps them in one map by number, so aliasing is not modelled, and a table's order of iteration is a parameter where the code depends on it.
- Stall measurement and late-SDU logging of the scheduler: their only effect, excused lateness, is the parameter `excused`. Times are whole microseconds, with the code's tolerance of 1e-6 interval kept.
- ScheduleIsoSdu: does not model floating-point rounding of `loop.time()`, because the slot arithmetic is the point.
- PlayoutConserved: real numbers instead of floating point; interarrival jitter and gap maxima are not modelled.
- StreamMeter.Meter.Received: byte counts per report interval and issue texts are not modelled.
- Base.BaseWalk: which `ValueError` text is raised is not modelled, only that one is.
- Zip.RoundTrip: deflate, inflate and CRC-32 are parameters, with inflate assumed to undo deflate; MS-DOS times are a parameter.
- `logging.rs`, `crashes.rs`, `bundle.rs`, `server.rs`, the CLI, tray, UI and installer: plumbing, or members that would be easy.
