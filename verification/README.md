# VDR verification

A Dafny model of VDR, a virtual block device that keeps every block on two
remote minions, encrypted, and retransmits until both have answered, and of
the event framework underneath it.

`dafny verify dfyconfig.toml` checks the whole project.

## What is modelled

| files | what they hold |
|---|---|
| `Registers.dfy`, `Regularity.dfy` | what the device promises the operating system: a regular register per block, as an automaton and as statements about event histories |
| `Protocol.dfy`, `Master.dfy` | the master's request bookkeeping, as functions on its state and as the class proved against them |
| `System.dfy`, `Invariants.dfy`, `Preservation.dfy` | master, timer, encryption jobs, channels and minion memories as one transition system, its inductive invariant and the proof that every step keeps it |
| `Replication.dfy`, `Origins.dfy`, `Progress.dfy`, `Liveness.dfy` | the results over whole runs |
| `Example.dfy` | runs spelled out: one as it should be, and one each that breaks a single rule of the environment |
| `BlockTable.dfy`, `Cipher.dfy`, `Minion.dfy`, `Wire.dfy` | replica placement, the XOR cipher, a minion's byte array, and the datagrams |
| `Timer.dfy`, `TimerRuns.dfy` | the deadline scheduler, one call at a time and over whole runs |
| `Reactor.dfy`, `TcpReader.dfy`, `TcpWriter.dfy`, `OsProxy.dfy` | dispatching, framing, queued writing, and NBD on top of them |
| `ThreadPool.dfy`, `Completion.dfy` | resizing the pool, and asynchronous encryption with its completion pipe, under every interleaving of threads |

Where the code changes fields in place the model has a class with those
fields; each of its methods is proved against a function of the old state, and
the results are proved about that function. The two concurrent parts and the
replicated system are transition systems whose steps are atomic actions.

The main results:

* Every run of the replicated device on two or more minions produces a history
  of a regular register; a read that no write overlaps returns exactly the last
  acknowledged data, and one of a block not yet written may return what a
  replica held at the start (`ReadsOfTheDevice`, `QuietReadsOfTheDevice`,
  `ReadsFromTheStart`).
* Each request is answered at most once, and a write exactly when both
  replicas' minions have acknowledged it, at which moment both hold its payload
  (`AnswersOfTheDevice`, `AnsweredIffAcknowledged`, `AnsweredMeansStored`).
* With no write outstanding both replicas and everything under way to them
  agree; with one, every channel carries old data before new
  (`ReplicasAgree`).
* No assertion of the master, the timer or a minion fails in any such run
  (`NoAssertionFails`); live timers and waiting requests correspond one to one
  (`TimersMatchRequests`).
* The environment's rules leave room for complete runs (`WriteThenRead`).
* Up to the first tie of a deadline with the clock, everything waiting can be
  sent again, ten seconds after it was sent but for the lag of the timer, and
  not sooner, and brings an answer if it gets through (`SentAgain`,
  `NotTooSoon`); from then on nothing is sent again before the first pending
  request has been answered (`SilentFrom`). Retransmission terminates if every
  round brings one missing acknowledgement (`RoundsFinish`).
* Every timer set fires exactly once unless cancelled, never early, in deadline
  order, also when callbacks set and cancel timers (`EveryTimerOnce`); the
  descriptor is never armed later than the lag of the clock makes it
  (`RunOnTime`).
* The packets a reader delivers depend on the byte stream only, and NBD
  requests and replies survive the trip exactly as far as the code's
  assumptions on their lengths hold (`ChunkIndependent`,
  `RequestsReachTheMaster`, `RepliesReachTheClient`).
* One dispatch round is determined by the table, the ready set and the
  callbacks, however the callbacks change the table, and leaves just what is
  registered (`Dispatch`, `RoundUnique`).
* Live threads minus queued poison is the requested size of a running pool,
  whatever sizes it is given (`SizeConserved`), and every shrink is cleaned up
  after once (`EveryShrinkCleans`, `CleanedUp`).
* Every encryption callback runs once, after its whole buffer has been
  transformed, in the order of the signals (`CalledOnceWhenDone`,
  `CalledInOrder`).

## What is assumed of the environment

The code relies on the following without enforcing it; the model states each
as a hypothesis (`Systems.FreshID`, `Systems.OneWrite` and `Systems.Settable`,
which make up `Systems.Enabled`; `TimerRuns.CallOk`, `Completion.Fresh`; the `requires` of the results).

* Two minions or more, a number of blocks divisible by the number of minions,
  offsets in range and block-aligned. `DuplicateReply` shows what happens with
  one minion.
* Request IDs are not used twice, and a block has at most one outstanding
  write. `ReusedID` and `OverlappingWrites` are runs that keep every rule but
  this one: a read answered with another block's data, and two writes answered
  with the replicas different for good.
* Channels to minions lose messages but keep order. Replies may be lost,
  delivered late, twice, or in another order; a reply of minion i reaches
  proxy i.
* A write's payload is not changed by others while the write is outstanding.
* A timer handle is read before its request is erased. The code reads it
  through a reference into the erased entry (`vdr/master/master.cpp:234-243`
  and `vdr/master/master.cpp:293-301`).
* Deadlines of pending timers differ (`EqualDeadlines` shows which assertion
  fails else), the clock does not go back, and a new timer or event handle is
  not one still in use. Handles may wrap around; up to 2^32 calls of `Set`, or
  of `SetEvent`, that they are not in use need not be assumed (`HandlesFree`,
  `NoCollision`).
* `Timer::CallBackWrapper` runs only once the time the descriptor is armed for
  has passed (`TimerRuns.Enabled`, `Systems.Possible`). A reactor round may
  break this: a callback called before the timer's can cancel the first timer
  after the descriptor was reported ready (`DueAfterReport`). In VDR it does
  not, since descriptors are visited in ascending order and the timer's is
  opened before those of the minion sockets, whose callbacks cancel.
* Calls of `SetNum`, `Start` and `Stop` do not overlap. A task's function does
  not throw.
* An NBD client's writes are of one block each: the master takes a block's
  bytes from every write's packet (`WritesAreWhole`).

## What the code does that may surprise

The model follows the code in each of these.

* `Timer::SetNextTimer` computes duration 0 when the next deadline is the very
  instant read from the clock, which disarms the descriptor with timers
  pending. `EraseArmed`, `CancelArmed` and `StepArmed` prove that this is
  exactly when the descriptor goes wrong, and `DisarmedWithTimerPending` gives
  a run. "Armed whenever a timer is pending" therefore holds over runs without
  such a tie (`RunArmed`, for the timer and for the replicated device); that no
  timer fires early, twice or out of order holds in all runs. After a tie new
  requests do not wake the descriptor (`DeafStays`).
* `Timer::Set` overwrites a timer with the same deadline (`SameDeadlineLost`).
* The last assertion of `Reactor::AddFD` cannot fail, since looking the
  descriptor up inserts it.
* `ThreadPool::Stop` cleans the thread map once and then waits for it to become
  empty; no worker ever removes the last entry, so waiting never changes the
  answer (`StopAnswers`).
* A running pool given a negative size ends with no thread and with poison left
  in its queue (`Settles`); the accounting holds all the same, and a later size
  makes up for it.
* Fewer than 2^32 outstanding events do not keep handles apart: a run with one
  outstanding event reaches a state in which the next `SetEvent` drops its
  callback (`CollisionReachable`). `SetEventIff` states when a call is right.
* `OsProxy::OnHeaderCB` takes any request but a read to carry `len` bytes, which
  agrees with NBD for reads, writes and requests of length 0 only
  (`StreamFramed`). `OsProxy::OnPacketCB` ends the process at a read or write
  that is neither of one block nor of length 0 (`ServedIff`, `LongRead`), and
  passes a write of length 0 on without data (`WritesAreWhole`).
* `OsProxy::ReplyRead` sends a block of data behind the header of every read,
  where the client expects as many bytes as it asked for, and none behind an
  error (`RepliesReachTheClient`, `MisreadData`).
* The operating system learns of a minion's status only whether it was 0:
  `os::WriteReply` keeps it as a `bool`, and behind an error it reads the data
  as the next header (`MinionStatusSeen`).
* `struct request` has four bytes of padding after the ID.
* `Minion::RetriveCopyStatus` takes the block number as an `int`.

## Model

| member | source | states |
|---|---|---|
| Cipher.XorTwice | framework/encryptor/encryptor.cpp:55-60 | decrypting what was encrypted gives the plaintext, for every buffer |
| Cipher.NoByteInClear | framework/encryptor/encryptor.cpp:55-60 | encryption changes every byte of every buffer |
| Cipher.EncryptDecrypt | framework/encryptor/encryptor.cpp:47-60 | the in-place loop transforms exactly the first len bytes, each once, and leaves none of them as it was |
| BlockTables.PlaceThenOccupant | vdr/block_table/block_table.cpp:28-68 | a replica's place lies on an existing minion and slot, and block and replica number are found again from it |
| BlockTables.OccupantThenPlace | vdr/block_table/block_table.cpp:28-68 | every slot of every minion is the place of the replica it is said to hold: placement is onto |
| BlockTables.ReplicasApart | vdr/block_table/block_table.cpp:28-68 | a block's replicas are in different slots, and on different minions exactly if there are at least two minions |
| BlockTables.NoSharedSlot | vdr/block_table/block_table.cpp:28-68 | no slot serves two blocks or both replicas of one |
| BlockTables.BlockTable.constructor | vdr/block_table/block_table.cpp:10-26 | the multimap holds, per group, its two minions and halves in order |
| BlockTables.BlockTable.Translate | vdr/block_table/block_table.cpp:28-68 | an in-range offset gives the block's two replicas, any other gives none |
| Timers.InsertSorted | framework/timer/timer.cpp:24-50 | setting keeps the map ordered and replaces only an equal deadline |
| Timers.SetArmed | framework/timer/timer.cpp:24-50 | Set leaves the descriptor registered and armed iff the new timer is not due at once as the earliest |
| Timers.EraseNeverEarly | framework/timer/timer.cpp:113-125 | after erasing, the armed time is never before the earliest deadline |
| Timers.EraseArmed | framework/timer/timer.cpp:105-125 | erasing leaves the descriptor armed for what is pending iff the next deadline is not the instant read |
| Timers.CancelArmed | framework/timer/timer.cpp:67-94 | the same for Cancel; cancelling any but the earliest timer is always right |
| Timers.EraseOnTime | framework/timer/timer.cpp:105-125 | however late the first element goes, the armed time is at most the next deadline plus the lag between clock and descriptor, or the next nanosecond |
| Timers.SetOnTime | framework/timer/timer.cpp:24-50 | Set keeps the descriptor armed in time, also for a timer that becomes the earliest |
| Timers.DisarmedWithTimerPending | framework/timer/timer.cpp:105-111 | two timers, the first cancelled at the second's deadline: the second stays pending with the descriptor disarmed |
| Timers.SameDeadlineLost | framework/timer/timer.cpp:24-50 | a timer whose deadline a new one has is found no more |
| Timers.DueAfterReport | framework/timer/timer.cpp:96-103 | if a timer is cancelled after the descriptor was reported ready, the one then fired is due iff the cancelled one was not the first or the next was due too |
| Timers.FiringStaysFirst | framework/timer/timer.cpp:96-103 | whatever the callback sets or cancels, the element being fired is still the first one when it is erased |
| Timers.Timer.Set | framework/timer/timer.cpp:24-50 | new map, counter, registration and armed time; returns the handle stored |
| Timers.Timer.SetTimerIMP | framework/timer/timer.cpp:52-65 | zero disarms, a positive duration arms |
| Timers.Timer.Cancel | framework/timer/timer.cpp:67-94 | the search finds the handle; its element goes, and the descriptor is re-armed if it was the first |
| Timers.Timer.EraseAndSetTimerIMP | framework/timer/timer.cpp:113-125 | the element goes; the descriptor is re-armed for the following one, in time if the first went, or disarmed and unregistered |
| Timers.Timer.SetNextTimer | framework/timer/timer.cpp:105-111 | arms for the given element, one nanosecond ahead if it is overdue |
| Timers.Timer.CallBackWrapper | framework/timer/timer.cpp:96-103 | for every sequence of calls the callback makes: their effects, then the fired element is erased |
| TimerRuns.StepKeepsInv | framework/timer/timer.cpp:24-125 | every call and every expiry with re-entrant calls keeps: each timer set is pending, cancelled or fired, exactly one of them |
| TimerRuns.EveryTimerOnce | framework/timer/timer.cpp:24-125 | over any run each timer is pending, or cancelled and never fired, or fired once; never early; in deadline order |
| TimerRuns.StepArmed | framework/timer/timer.cpp:67-125 | a step keeps the descriptor registered and armed iff timers are pending, iff the step is not a tie |
| TimerRuns.RunArmed | framework/timer/timer.cpp:24-125 | over a run without ties the descriptor is registered and armed iff timers are pending |
| TimerRuns.RunOnTime | framework/timer/timer.cpp:24-125 | over any run the armed time stays at most the earliest deadline plus the lag, or the nanosecond after the last step |
| TimerRuns.HandlesFree | framework/timer/timer.cpp:49 | over any run of fewer than 2^32 calls of Set the next handle is not in use |
| Protocol.RetryIsFiring | vdr/master/master.cpp:339-392 | a retry, with the timer it sets, is one re-entrant firing of the timer |
| Protocol.DuplicateReply | vdr/master/master.cpp:257-319 | one minion's acknowledgement delivered twice completes a write iff both replicas are on it |
| Masters.Master.Read | vdr/master/master.cpp:82-101 | an entry already there is kept, else inserted; its timer set, one read message per location |
| Masters.Master.Write | vdr/master/master.cpp:105-126 | the entry inserted, the encryption started, nothing sent and no timer set yet |
| Masters.Master.ReplyReadIMP | vdr/master/master.cpp:129-155 | decryption is started iff the reply is the first to a read waiting for that minion |
| Masters.Master.ReplyWriteIMP | vdr/master/master.cpp:157-186 | the operating system is answered iff the reply was the last one missing |
| Masters.Master.ProcessReadReplyIMP | vdr/master/master.cpp:205-255 | the search loop: entry and timer go iff the minion is among the entry's locations |
| Masters.Master.ProcessWriteReplyIMP | vdr/master/master.cpp:257-319 | the location goes; with the last one entry and timer go; every other reply changes nothing |
| Masters.Master.SetTimerIMP | vdr/master/master.cpp:321-331 | a timer for the ID, ten seconds ahead |
| Masters.Master.OnTimerIMP | vdr/master/master.cpp:339-361 | the read or write still waiting is sent again under a new timer, anything else ignored |
| Masters.Master.OnExpiry | vdr/master/master.cpp:339-392 | the whole firing: the retry's messages and timer, then the old element erased |
| Masters.Master.SendWriteRequestsIMP | vdr/master/master.cpp:413-438 | handle stored, the encrypted payload sent to every location not yet acknowledged |
| Masters.Master.SendReadRequestsIMP | vdr/master/master.cpp:440-465 | handle stored, a read sent to every location |
| Registers.DeviceGood | vdr/block_table/block_table.cpp:28-68 | from two minions on, the placement is what the replication results need |
| Registers.RegisterStep | vdr/master/master.cpp:82-198 | the promise to the operating system keeps its own invariant under every event it permits |
| Regularity.ReadsAreRegular | vdr/master/master.cpp:82-198 | in a conforming history a read returns data of a write issued before its answer and not overwritten when it was issued |
| Regularity.QuietReadsAreExact | vdr/master/master.cpp:82-198 | a read that no write overlaps returns the last acknowledged data |
| Regularity.AtMostOneAnswer | vdr/master/master.cpp:129-186 | no request is answered twice in a conforming history |
| Regularity.DoneIffAnswered | vdr/master/master.cpp:157-186 | the register counts a write as done iff the history holds its answer |
| Regularity.AnsweredAfterAcks | vdr/master/master.cpp:257-319 | a write's answer comes after the acknowledgements of all its minions |
| Preservation.OsReadKeeps | vdr/master/master.cpp:82-101 | a new read keeps the invariant and is permitted |
| Preservation.OsWriteKeeps | vdr/master/master.cpp:105-126 | a new write keeps the invariant; the assertions on its ID hold |
| Preservation.EncryptionDoneKeeps | vdr/master/master.cpp:413-438 | the first sending of a write keeps the invariant |
| Preservation.MinionStepKeeps | minion/minion/minion.cpp:53-92 | a minion's handling of its next message keeps the invariant |
| Preservation.ReadReplyKeeps | vdr/master/master.cpp:205-255 | any read reply, however late or repeated, keeps the invariant |
| Preservation.WriteReplyKeeps | vdr/master/master.cpp:257-319 | so does any write reply; the answer it may cause is permitted |
| Preservation.TimerFiresKeeps | vdr/master/master.cpp:339-392 | a retransmission keeps the invariant; the lookup assertions hold |
| Preservation.DecryptionDoneKeeps | vdr/master/master.cpp:189-198 | a read's answer is permitted |
| Preservation.StepKeeps | vdr/master/master.cpp:82-465 | every step of the environment and the system keeps the invariant, and no assertion fails |
| Preservation.InitInv | vdr/block_table/block_table.cpp:10-26 | the initial state satisfies it, whatever the memories hold |
| Replication.NoAssertionFails | vdr/master/master.cpp:339-465 | no run on two or more minions fails an assertion or a lookup |
| Replication.ReadsOfTheDevice | vdr/master/master.cpp:205-255 | reads of the device are regular, whichever replica answers and whatever is lost, repeated or late |
| Replication.QuietReadsOfTheDevice | vdr/master/master.cpp:205-255 | a read of the device no write overlaps returns the last acknowledged data |
| Origins.ReadsFromTheStart | vdr/master/master.cpp:157-186 | every read of every run, also of a block never written: a returnable value or, if no write had been acknowledged when it was issued, what a replica held at the start, decrypted |
| Origins.TracedStep | minion/minion/minion.cpp:53-92 | every step keeps: all data in memories, replies and decryptions come from a write to the block or from its replicas' initial contents |
| Replication.AnswersOfTheDevice | vdr/master/master.cpp:129-186 | no request is answered twice in any run |
| Replication.AnsweredIffAcknowledged | vdr/master/master.cpp:257-319 | the history holds a write's answer iff it holds the acknowledgements of every minion Translate names for its block |
| Replication.AnsweredMeansStored | vdr/master/master.cpp:157-186 | the reply that completes a write finds its payload on all its replicas |
| Replication.ReplicasAgree | vdr/master/master.cpp:377-438 | replicas and channels carry one value when nothing is outstanding, old before new else, and only new where new is stored |
| Replication.EncryptedOnce | vdr/master/master.cpp:413-438 | every write message ever under way carries its plaintext XORed once, no byte of it in clear, and decryption restores it |
| Replication.TimersMatchRequests | vdr/master/master.cpp:321-392 | live timers and sent, incomplete requests correspond one to one; stored handles name them |
| Examples.SmallDevice | vdr/block_table/block_table.cpp:28-68 | two minions and one block per group: where the two blocks' replicas are |
| Examples.WriteThenRead | vdr/master/master.cpp:82-198 | for every payload, a run within the environment's rules that writes it, is answered, and reads it back from the second minion |
| Examples.OverlappingWrites | vdr/master/master.cpp:377-438 | for all payloads, a run that keeps every rule but one write per block at a time: both writes answered, nothing under way, and each replica left with another one's data |
| Examples.ReusedID | vdr/master/master.cpp:205-255 | for every payload, a run that keeps every rule but new IDs: a read of a block never written is answered with another block's data |
| Progress.MissingStep | vdr/master/master.cpp:205-319 | what is missing never grows between requests; a first-time acknowledgement makes it smaller |
| Progress.AcksAreBounded | vdr/master/master.cpp:205-319 | acknowledgements taken and still missing never exceed those missing at the start |
| Progress.NothingMissing | vdr/master/master.cpp:205-319 | both request maps are empty iff no acknowledgement is missing |
| Progress.RoundsFinish | vdr/master/master.cpp:339-392 | as many rounds, each bringing an acknowledgement waited for, as were missing empty both maps |
| Liveness.StepArmed | framework/timer/timer.cpp:67-125 | a step of the replicated device keeps the descriptor registered and armed iff timers are pending, iff it is no tie; a tie leaves timers pending and the descriptor disarmed |
| Liveness.RunArmed | vdr/master/master.cpp:321-392 | over a run of the device without ties the descriptor is right |
| Liveness.FiresLater | framework/timer/timer.cpp:96-103 | with the descriptor right and something waiting, the earliest timer can fire at every time from its deadline, the lag and the last step on |
| Liveness.Retransmission | vdr/master/master.cpp:339-465 | then the device can go on, without new requests, by an expiry that brings an acknowledgement waited for |
| Liveness.SentAgain | vdr/master/master.cpp:339-465 | so it can after every run without ties, no more than ten seconds and the lag later |
| Liveness.RunOnTime | vdr/master/master.cpp:321-392 | over any run of the device the descriptor is armed in time |
| Liveness.TenSeconds | vdr/include/master.hpp:90 | a request just sent, first or again, has a timer due in ten seconds |
| Liveness.NotTooSoon | vdr/master/master.cpp:339-392 | in no run is a request sent again within ten seconds of being sent |
| Liveness.HandlesFree | framework/timer/timer.cpp:49 | over any run of the device with fewer than 2^32 calls of Set the next handle is not in use |
| Liveness.DeafStays | framework/timer/timer.cpp:24-50 | with timers pending and the descriptor disarmed, no step changes that but an answer to the first pending request |
| Liveness.SilentFrom | vdr/master/master.cpp:339-361 | from a tie on no timer fires in any run in which that request is not answered |
| Liveness.EqualDeadlines | vdr/master/master.cpp:243 | whichever step sets it, a first sending or a retransmission, a timer with a pending one's deadline takes its place; the reply that completes the other request fails Cancel's assertion |
| TcpReaders.ParseMore | framework/communication/tcp_reader.cpp:35-121 | parsing a stream can stop anywhere and go on from the unfinished bytes |
| TcpReaders.RestIncomplete | framework/communication/tcp_reader.cpp:35-121 | packets and unfinished bytes make up the stream, and the latter hold no whole packet |
| TcpReaders.ParsePackets | framework/communication/tcp_reader.cpp:35-121 | a stream of well-formed packets parses to those packets |
| TcpReaders.ChunkIndependent | framework/communication/tcp_reader.cpp:35-121 | reading chunk by chunk gives the packets of the whole stream, for every way to cut it |
| TcpReaders.TcpReader.ReadHeader | framework/communication/tcp_reader.cpp:38-78 | header bytes are added in place; the buffer is sized by the callback once the header is complete |
| TcpReaders.TcpReader.ReadBody | framework/communication/tcp_reader.cpp:82-112 | body bytes are added in place, none lost or read twice |
| TcpReaders.TcpReader.Read | framework/communication/tcp_reader.cpp:35-121 | for every answer of recv, how much is taken and whether it throws; delivered packets and buffered bytes stay the parse of what was consumed |
| TcpWriters.TcpWriter.Write | framework/communication/tcp_writer.cpp:22-31 | the packet is accepted behind all others; registered iff something is queued |
| TcpWriters.TcpWriter.WriteCB | framework/communication/tcp_writer.cpp:33-78 | as many bytes as send took, the next ones accepted, also for partial, refused or interrupted sends; nothing accepted is lost |
| Reactors.AtMostOnce | framework/communication/reactor.cpp:67-79 | no descriptor and usage is called twice in a round |
| Reactors.NeverSkipped | framework/communication/reactor.cpp:127-142 | a ready one that stays registered is called, whatever the callbacks do |
| Reactors.RoundUnique | framework/communication/reactor.cpp:127-142 | table, ready set and callbacks determine which callbacks run, in which order, and the tables in between |
| Reactors.RoundOrder | framework/communication/reactor.cpp:132-137 | calls come by usage, exceptions, reads, writes, and by descriptor |
| Reactors.LastOpWins | framework/communication/reactor.cpp:26-52 | of all calls of AddFD and RemFD on a descriptor the last one decides its entry |
| Reactors.Reactor.AddFD | framework/communication/reactor.cpp:26-33 | the entry is the function given, every other one unchanged; fails iff the descriptor is not below 1024; the last assertion never does |
| Reactors.Reactor.RemFD | framework/communication/reactor.cpp:44-52 | empties the entry, keeping it in the map, and no other; fails iff there is none |
| Reactors.Reactor.Invoke | framework/communication/reactor.cpp:67-79 | a callback's operations take effect in order up to a failing assertion |
| Reactors.Reactor.Activate | framework/communication/reactor.cpp:67-79 | the callback is called iff its descriptor is ready and its entry not empty |
| Reactors.Reactor.Sweep | framework/communication/reactor.cpp:132-137 | one map is visited in order while it changes: called are exactly those ready and registered at their turn |
| Reactors.Reactor.Dispatch | framework/communication/reactor.cpp:127-142 | a round over all three maps; what is left in them, and in the descriptor sets, is exactly what is registered at its end |
| Reactors.Reactor.CleanEmptyFunctions | framework/communication/reactor.cpp:81-97 | exactly the registered descriptors stay, with their functions |
| Reactors.Reactor.FillFdsets | framework/communication/reactor.cpp:59-65 | the sets hold exactly the keys |
| Reactors.Reactor.GetMaxFds | framework/communication/reactor.cpp:35-42 | an upper bound of all descriptors, attained unless it is 0 |
| Reactors.Reactor.Start | framework/communication/reactor.cpp:99-145 | for all answers of select: a chain of rounds, each on the descriptors then registered, up to the first that calls Stop, the first error, or a failing assertion; which of these the code returned tells; after any round just the registered descriptors are left |
| ThreadPools.StepKeeps | framework/thread_pool/thread_pool.cpp:24-90 | every interleaved step of callers and workers keeps the accounting, whatever sizes are given, also in the middle of SetNum, Start and Stop |
| ThreadPools.SizeConserved | framework/thread_pool/thread_pool.cpp:24-90 | in every run, between calls a running pool has live threads minus poison equal to the requested size, a stopped one neither |
| ThreadPools.PoisonFirst | framework/thread_pool/thread_pool.cpp:189-250 | with p poison tasks queued the next p dequeues end threads and no later one does, whatever is added meanwhile |
| ThreadPools.Settles | framework/thread_pool/thread_pool.cpp:189-227 | after that exactly the requested number of threads is left; none if it is negative, with that much poison left over |
| ThreadPools.PoisonIsTaken | framework/thread_pool/thread_pool.cpp:41-46 | between calls a running pool has a live thread for every poison task iff its size is not negative; also during a call from one such size to another |
| ThreadPools.FinishCleans | framework/thread_pool/thread_pool.cpp:132-166 | a cleaning task takes exactly the threads that are done out of the map, no other task any |
| ThreadPools.CleanedUp | framework/thread_pool/thread_pool.cpp:132-166 | in any run, after a cleaning task that ends with no poisoned thread still unmarked the map holds exactly the threads that go on; once the pool has settled, as many as were asked for |
| ThreadPools.EveryShrinkCleans | framework/thread_pool/thread_pool.cpp:41-51 | in any run each call that shrinks a running pool accounts for exactly one cleaning task: ended, at work, queued or about to be |
| ThreadPools.CleaningFirst | framework/include/thread_pool.hpp:90-91 | with the poison taken, cleaning comes before all tasks of users |
| ThreadPools.StopAnswers | framework/thread_pool/thread_pool.cpp:74-90 | after Stop's cleaning the pool still runs iff some thread was not done by then, for ever |
| ThreadPools.StopOutcome | framework/thread_pool/thread_pool.cpp:74-90 | for every interleaving of workers during a call of Stop: it succeeds iff all threads were done when it cleaned, and then neither threads nor poison are left |
| ThreadPools.ThreadPool.SetNum | framework/thread_pool/thread_pool.cpp:24-55 | for every size, the loops are one undisturbed call of the machine: as many threads or poison tasks added as the sizes differ, one cleaning task after a shrink |
| ThreadPools.ThreadPool.Grow | framework/thread_pool/thread_pool.cpp:36-40 | the first loop: as many threads as the difference |
| ThreadPools.ThreadPool.Shrink | framework/thread_pool/thread_pool.cpp:41-46 | the second loop: as many poison tasks as the difference |
| ThreadPools.ThreadPool.Start | framework/thread_pool/thread_pool.cpp:63-72 | exactly the requested number of threads runs |
| ThreadPools.ThreadPool.Stop | framework/thread_pool/thread_pool.cpp:74-90 | undisturbed and with no time to wait, it succeeds iff every thread had ended before the call and no running pool had a negative size |
| ThreadPools.ThreadPool.CleanThreadsIf | framework/thread_pool/thread_pool.cpp:132-159 | exactly the threads that are done leave the map |
| ThreadPools.ThreadPool.Take | framework/thread_pool/thread_pool.cpp:189-203 | poison ends the thread, any other task occupies it |
| ThreadPools.ThreadPool.Done | framework/thread_pool/thread_pool.cpp:161-166 | a finished cleaning task has taken exactly the threads done out of the map, any other task none |
| ThreadPools.ThreadPool.SetThreadDone | framework/thread_pool/thread_pool.cpp:183-187 | sets the done flag of the poisoned thread |
| Completion.Eventer.SetEvent | framework/eventer/eventer.cpp:76-97 | the callback stored under the counter's handle, which is returned; the counter wraps around |
| Completion.Eventer.SignalEvent | framework/eventer/eventer.cpp:99-118 | the handle goes to the end of the pipe, or the call throws |
| Completion.Eventer.OnEventFinishedCB | framework/eventer/eventer.cpp:121-157 | the oldest signal's callback runs and its event goes, or the lookup fails |
| Completion.StepKeeps | framework/encryptor/encryptor.cpp:30-74 | every interleaved step keeps: one place per handle, each buffer transformed as far as its worker got, every callback run or outstanding |
| Completion.LookupSucceeds | framework/eventer/eventer.cpp:141-147 | the handle read from the pipe is in the map |
| Completion.AlwaysInOnePlace | framework/eventer/eventer.cpp:76-157 | in every run each handle not yet invoked is in exactly one of caller, queue, worker, pipe, reactor thread |
| Completion.CalledOnceWhenDone | framework/encryptor/encryptor.cpp:47-74 | each callback runs at most once, with its buffer transformed over its whole length, no byte left as it was; once no event is set all have run |
| Completion.CalledInOrder | framework/eventer/eventer.cpp:99-157 | callbacks run in the order in which their events were signalled, none left out |
| Completion.NoCollision | framework/eventer/eventer.cpp:83-88 | in every run of at most 2^32 submissions no event is set under a handle in use |
| Completion.SetEventIff | framework/eventer/eventer.cpp:83-88 | setting an event keeps all this iff the handle is not in use |
| Completion.CallbackLost | framework/eventer/eventer.cpp:83-88 | otherwise the older callback is neither run nor outstanding any more |
| Completion.CollisionReachable | framework/eventer/eventer.cpp:83-88 | a run with one outstanding event reaches such a state |
| Wire.ValueOfBigEndian | vdr/minion_proxy/minion_proxy.cpp:77-86 | htonl/htobe64 and back, for every value in range |
| Wire.BigEndianOfValue | minion/master_proxy/master_proxy.cpp:104-150 | the other way round: bytes are recovered from their value |
| Wire.HighByteFirst | vdr/minion_proxy/minion_proxy.cpp:77-86 | the most significant byte comes first |
| Wire.RequestLayout | vdr/include/protocols.hpp:198-204 | where the fields of struct request lie, its types and size |
| Wire.ReplyLayout | vdr/include/protocols.hpp:207-213 | where the fields of struct reply lie, its types and size, the status in two's complement |
| Wire.RequestRoundTrip | vdr/minion_proxy/minion_proxy.cpp:39-86 | a minion decodes every request to the message sent, whatever the padding and unused data |
| Wire.ReplyRoundTrip | minion/master_proxy/master_proxy.cpp:65-91 | a proxy decodes every reply to status, type, ID and data sent |
| Wire.CreateUdpRequest | vdr/minion_proxy/minion_proxy.cpp:77-86 | the three fields are filled, padding and data left alone |
| Wire.ReadReq | vdr/minion_proxy/minion_proxy.cpp:39-54 | the struct's bytes are the encoding of the read |
| Wire.WriteReq | vdr/minion_proxy/minion_proxy.cpp:56-75 | the struct's bytes are the encoding of the write |
| Wire.OnPacket | minion/master_proxy/master_proxy.cpp:104-150 | the minion is called as the bytes decode; an unknown type throws |
| Wire.ConstructReply | minion/master_proxy/master_proxy.cpp:85-91 | the three fields are filled, data left alone |
| Wire.ReplyRead | minion/master_proxy/master_proxy.cpp:65-74 | the struct's bytes are the encoding of the read's reply |
| Wire.ReplyWrite | minion/master_proxy/master_proxy.cpp:76-83 | the struct's bytes are the encoding of the write's reply |
| Wire.RecieveFromMinion | vdr/minion_proxy/minion_proxy.cpp:141-208 | the master is called as the bytes decode; an unknown type throws |
| OsProxies.StreamFramed | vdr/os_proxy/os_proxy.cpp:133-149 | reader and client agree on all requests of a stream iff each is a read, a write or of length 0 |
| OsProxies.NbdRequestLayout | vdr/os_proxy/os_proxy.cpp:151-176 | where the fields of a request lie, behind the magic number |
| OsProxies.AsMeant | vdr/os_proxy/os_proxy.cpp:164-182 | what each request makes the proxy do, by its length and type |
| OsProxies.RequestsReachTheMaster | vdr/os_proxy/os_proxy.cpp:133-183 | for all streams of framed requests and every chunking: those before the first that ends the process are dealt with in order; it exits if that one is an accepted disconnect, aborts if it is of a refused length, and runs on if there is none |
| OsProxies.PrefixReachesTheMaster | vdr/os_proxy/os_proxy.cpp:133-183 | at any moment the same holds of the prefix that has arrived |
| OsProxies.ServedIff | vdr/os_proxy/os_proxy.cpp:164 | all of them are dealt with iff each is of one block or of length 0 and none disconnects |
| OsProxies.LongRead | vdr/os_proxy/os_proxy.cpp:164 | a read of 8192 bytes ends the process |
| OsProxies.WritesAreWhole | vdr/os_proxy/os_proxy.cpp:172-176 | every write passed on carries a block of data iff none of them has length 0 |
| OsProxies.RepliesReachTheClient | vdr/os_proxy/os_proxy.cpp:200-238 | the reply stream parses back to the replies in order, data behind its header, iff every read asked for one block and succeeded |
| OsProxies.NbdReplyLayout | vdr/os_proxy/os_proxy.cpp:200-221 | where the fields of a reply lie, behind the magic number |
| OsProxies.MisreadData | vdr/os_proxy/os_proxy.cpp:223-231 | after a failed read, or one of length 0, the client takes the data for a header and gives up |
| OsProxies.MinionStatusSeen | vdr/master/master.cpp:188-199 | what the client parses of a minion's answer to a read, at the front of its stream: error 1 iff the status was not 0, and then the data are read as the next header; else the data |
| OsProxies.OsProxy.OnHeaderCB | vdr/os_proxy/os_proxy.cpp:133-149 | aborts iff the magic is wrong; the length it returns |
| OsProxies.OsProxy.OnPacketCB | vdr/os_proxy/os_proxy.cpp:151-183 | calls and state stay those of the packets handled |
| OsProxies.OsProxy.SendNbdReply | vdr/os_proxy/os_proxy.cpp:200-221 | the sixteen header bytes are queued |
| OsProxies.OsProxy.ReplyRead | vdr/os_proxy/os_proxy.cpp:223-231 | what is queued stays the encoding of all replies, this one last, its data right behind its header |
| OsProxies.OsProxy.ReplyWrite | vdr/os_proxy/os_proxy.cpp:233-238 | the same for a write |
| Minions.Minion.RetriveCopyStatus | minion/minion/minion.cpp:40-49 | 0 iff the block holds the data |
| Minions.Minion.Read | minion/minion/minion.cpp:53-72 | replies once, with status 0 and the block's bytes |
| Minions.Minion.Write | minion/minion/minion.cpp:76-92 | the block's bytes replaced, every other block unchanged, status 0 replied |
| Minions.Minion.Handle | minion/master_proxy/master_proxy.cpp:131-149 | on the byte array a message does what the replicated system's step says: same memory, same reply |

## Left out

- Liveness.Retransmission: asks that the next timer's handle is not in use, as every call of Set does.
- Completion: a callback that itself sets or signals an event; the lock held while it runs would block for ever, and no caller in VDR does so.
- Systems: a whole buffer is transformed in one step; module Completion goes byte by byte, with the worker threads.
- Systems: minions have no capacity or crash behaviour; a minion that stops answering is one whose messages are all lost.
- ThreadPools.ThreadPool.Stop: does not model waiting by the wall clock, nor workers at work during the call; StopOutcome covers those, and shows that waiting cannot change the answer.
- ThreadPools: thread cancellation in the destructor, exceptions thrown by tasks, and a thread that starts before it is entered in the map.
- Reactors.Reactor.Start: what select itself guarantees; its answers are parameters.
- Sockets, pipes, timerfd, clocks and NBD ioctls: their answers are parameters or environment steps.
- How datagrams find their proxy, and datagrams of the wrong size.
- Data races and lifetimes of C++ objects: unlocked flags, references used after erase, the reader's shared buffer.
- Callbacks that re-register a descriptor's own function while it runs are modelled, destroying the function object under execution is not.
- `Singleton`, `Factory`, `Deserializer`, `Dispatcher`, `WaitableQ` and the accessors of `protocols.cpp`: small, or the queue's max-priority order is all that matters.
- `App`, `MinionApp`, configuration and logging.
