# Verified models of hmbdc

This project models the parts of hmbdc that move messages between threads, processes and hosts, and proves
what they promise. `dafny verify dfyconfig.toml` checks everything.

## The reliable multicast

A sender multicasts from a ring, keeps old entries for slow peers and answers gap reports over one TCP
connection per receiver. A receiver arbitrates the two paths. Frames on the TCP path carry no checked sequence:
the receiver ticks off whatever it expects, so correctness hangs on an invariant across both ends.

* `Messages`, `Receiver`, `Sender`: the protocol as a step system. The network is a set of datagrams that may be
  delivered any number of times, in any order, or not at all; each backup connection is a pair of queues.
* `Requests`, `Invariants`, `LinkProofs`, `Delivery`, `Theorems`: the two-endpoint invariant, its preservation
  by every step, and the results over all runs. `Recovery`: what is lost is asked for and can be got, and what is got
  moves the backup cursor.
* `SenderRing`: the same protocol on top of its ring, with producers that claim, wait, write and commit in any
  interleaving. `PutGate`, `Overshoot`: what the ring's scan promises the protocol, and what happens when it does not
  keep it. `RunBuilding`, `StraySegments`, `SkippedTrains`: runs built step by step, and the exact conditions they show
  to be needed.
* `SendTransport`, `SendServer`, `SendSession`, `RecvTransport`, `RecvSession`: the source's classes, with their
  fields updated in place and their loops. Each is proved against the protocol: the multicast loop is a path of
  protocol steps, the server's turn is the retention step, the stalled reader offers items as the protocol presents
  them, and a sending session's turn is a path of protocol steps whose frames are the bytes sent (`SendBytes`,
  `SendPath`). `SendEngine` puts the sending side together: from a state of a run of the protocol its turns lead to
  states of a run. Both of its halves share one `CleanupQueue`.
* `Frames`, `Commands`, `Relic`: bytes on the wire, the two incremental parsers, and short writes.

## Rings, arbiters and dispatch

* `BroadcastRing`, `BroadcastProofs`, `BroadcastScans`, `BroadcastLimits`: `MemRingBuffer<N>`; `PartitionRing`, `PartitionProofs`:
  `MemRingBuffer<0>`; what their producers and consumers can always do by themselves is in `BroadcastProgress` and
  `PartitionProgress`; `RtRing`, `RtProofs`, `RtBuffer`: `MemRingBufferRt`. Every shared read, write and
  compare-and-swap is one step, payloads are written and copied word by word, and any number of threads
  interleave in any order. The steps are functions on values, since what matters is the interleaving; the quiet
  overwriting ring is also a class with the source's methods.
* `SeqArb`, `SeqArbThreads`: the arbiter for one thread, in place, and for many threads, step by step.
* `PoolConsumer`: one consumer shared by the threads of a pool. `BlockingBuffer`: exclusive peeking.

## Around them

`Attachments` (cutting up and putting together), `Bag` (record and play), `Timers`, `Rater`, `ZeroCopy`
(subscription counts and shared blocks), `Common` (slot arithmetic, paths and inductions over runs).

## What the models bring to light

* `readSeqLow` (hmbdc/pattern/MemRingBuffer.hpp:69-71) compares the cursors one by one and then reads the smallest
  again. With two consumers or more the second read can exceed what the scan saw, and a producer is let into a
  slot that a live consumer has not read: `BroadcastLimits.SafeIffOneConsumer`. A run is safe exactly when no
  producer is let in like this: `BroadcastProofs.SafeIffGrantsAreClear`. The reliable multicast uses the ring with
  two consumers; there a session can be sent, and its receiver can output, a later message in place of the one it
  asked for, `Overshoot.SendsWrongMessage`, and a receiver that follows the protocol can be refused for good,
  `Overshoot.CutsOff`. It takes both cursors to be equal when they are compared: `PutGate.SettlesOnFirstOnlyIfEqual`.
* `MemRingBufferRt` calls itself safe for many producers; it serves readers faithfully exactly when at most one
  producer puts: `RtProofs.FaithfulIffOneProducer`.
* The thread-safe arbiter excludes its callbacks exactly when nobody presents the largest sequence value or there
  is one participant: `SeqArbThreads.ExclusionCondition`.
* With no session, `resumeSend` throws train heads away without queueing their attachments for cleanup, so they are
  never released: `SkippedTrains.TrainIsSkipped`, `SkippedForGood`. Exactly these are missing:
  `SkippedTrains.QueuedIffNotSkipped`.
* Segments of a train the receiver did not subscribe to pass on the multicast path and are flushed on the backup
  path, so what is output depends on the path: `StraySegments.PathsDiffer`. Plain messages do not depend on it, and
  everything is exact, in all runs in which sessions read what was put, exactly without such segments:
  `StraySegments.ExactIffNoStray`.
* A daily timer late by a whole number of days is renewed for now itself. If another due timer stands behind it, the
  second loop of `checkTimers` later comes to the renewed one, finds it armed and advances its iterator twice; if none
  does, the loop ends and the timer stays armed at now. `Timers.DailyLandsLater` gives the exact condition for a later
  time, which `CheckTimers` asks for; the two outcomes themselves are not modelled.
* A pool thread that finds the consumer busy skips the whole range it peeked, also what the busy thread has not been
  offered; only the thread that had the consumer last is sure to be behind it. Which threads can serve it next is exact:
  `PoolConsumer.ServesIffBehind`, `PoolConsumer.CursorBehindIsNotEnough`.
* Subscription counts are read as eight bits, so zero-copy reference counts are right exactly below 256
  subscribers, `ZeroCopy.CountIsRight`, and so is the deallocation of blocks, `ZeroCopy.FreedRightIffUnder256`.
  hmbdc/tips/Domain.hpp:82 documents up to 256 parties, so 256 is the failing count that is allowed: the block is then
  never deallocated, `ZeroCopy.NeverFreed` (nothing is even sent if the owner does not subscribe). More than 256, as in
  `ZeroCopy.FreedWhileHeld`, is only what the types admit.

## Assumptions

* Sequences are natural numbers with the largest 64-bit value as the marker; the log stays below 2^48 - 1
  entries, since a header keeps 48 bits and all ones stand for the marker.
* `LockFreeBufferT<2>` is `MemRingBuffer<2>` with consumer 0 the multicast and consumer 1 the backup cursor; the
  entry in slot s carries sequence s in its header; multicast sending and backup serving run on one thread; each
  pool thread walks the log with its own cursor. Of hmbdc/tips/rmcast/SendTransportEngine.hpp only `runOnce` and `stop`
  are modelled; hmbdc/pattern/LockFreeBufferT.ipp is not part of this model.
* Shared steps are sequentially consistent. Sockets are byte or item queues whose answers are parameters: how
  much a send takes, what a read offers, whether a descriptor is ready. The clock is a parameter.
* Where everything is holds in every run of the reliable multicast, whatever the producers' scans came up with. What the
  backup connection carries, and so what is output, depends on the entries a session reads still being those that were
  put (`Delivery.FaithfulRun`), which is exactly what the frames under way need
  (`Theorems.FramesAnswerIffReadsAreRight`). It follows when the log is never more than a ring ahead of the backup cursor,
  which is so exactly when every put fits behind both cursors (`PutGate.RoomIffPutsAreClear`). The ring's scan does not
  ensure that; it is ensured when each re-read of the smallest cursor
  finds the value the scan saw (`SenderRing.SteadyScansAreClear`).
* `SenderRing`: consumer 1 peeks and reads before its cursor is moved, as far as it is moved; the source moves it without.
  Where a producer was let in too early the protocol's steps read its own copy of the slots.
* A broadcast ring has one consumer that is alive throughout, joining is one atomic step, and a claim asks for
  between one slot and the capacity, as its callers make sure.
* A session's subscription set is fixed; it may be announced again. The start sequence is sent when the
  connection is accepted and read after the subscriptions were written.
* A frame is empty or carries a whole message head, and a command is not empty and holds no zero byte: what the
  other end sends.

## Model

| member | source | states |
|---|---|---|
| `Theorems.EndToEndDelivery` | hmbdc/tips/reliable/BackupRecvSessionT.hpp:140-260 | In every state of every run in which sessions read what was put (lossy, duplicating, reordering multicast; FIFO backup connections; any number of sessions that come and go; the sender may stop) the plain messages a receiver has output are exactly the subscribed messages of the sender's log in [minSeq, expectingSeq), in order, none lost or repeated, and segments too unless the range has strays; before the start sequence is read nothing has been output |
| `Theorems.FramesAnswerIffReadsAreRight` | hmbdc/tips/reliable/BackupRecvSessionT.hpp:233 | For every run: the frames under way, which carry no checked sequence, answer one after the other for exactly the sequences the arbiter expects, in every state, if and only if sessions read what was put |
| `Delivery.ClearRunIsFaithful` | hmbdc/tips/reliable/BackupSendSessionT.hpp:154-177 | They do in every run in which each put fits behind both cursors |
| `SenderRing.RingRunsAreRuns` | hmbdc/pattern/MemRingBuffer.hpp:107-377 | With the ring in place of the atomic put: however producers claim, scan, write and commit in between each other and the protocol, what the protocol sees (the claims in front of the oldest one still waiting) is a state of one of its runs; if each producer let in found its slots left, of one in which every put is clear |
| `SenderRing.MemoryIsSeen` | hmbdc/pattern/MemRingBuffer.hpp:107-377 | In such a clear run every sequence from the backup cursor on, as far as the multicast has looked, is in its slot with the item claimed for it, which is the entry the protocol reads |
| `SenderRing.StepsReadTheRing` | hmbdc/tips/reliable/BackupSendSessionT.hpp:154-177 | So every step of the protocol in such a run is the step it takes reading the ring's own memory |
| `SenderRing.SteadyScansAreClear` | hmbdc/pattern/MemRingBuffer.hpp:69-71 | Where each re-read of the smallest cursor finds the value the scan saw, each producer let in finds its slots left by both cursors |
| `SenderRing.OutputOverRing` | hmbdc/tips/reliable/BackupRecvSessionT.hpp:140-260 | End to end over the ring: in such a clear run each receiver has output exactly what it subscribed to of the items producers claimed between its start sequence and the one it expects, in the order of the claims |
| `StraySegments.PathsDiffer` | hmbdc/tips/reliable/BackupRecvSessionT.hpp:140-155 | For every log producers can write and every subscription set there are two runs over this log, one with everything arriving by multicast and one with everything over the backup connection; the receiver has got the whole log in both, and the outputs differ if and only if the log holds a segment of a train it did not subscribe to |
| `StraySegments.ExactIffNoStray` | hmbdc/tips/reliable/BackupRecvSessionT.hpp:225-228 | Output is exactly what was subscribed to, segments included, in all runs over a log in which sessions read what was put, if and only if no segment in it belongs to a train not subscribed to |
| `RunBuilding.LogsAreWritable` | hmbdc/pattern/MemRingBuffer.hpp:205-231 | The log of every run is a sequence of whole messages and whole trains, so these results speak of all logs there are |
| `Theorems.GapCallbackIsImpossible` | hmbdc/tips/reliable/BackupRecvSessionT.hpp:284-286 | In every run: neither path ever runs the gap callback the source marks as impossible |
| `Theorems.NeverCutOff` | hmbdc/tips/reliable/BackupSendSessionT.hpp:142-149 | In every run a gap or progress report under way or queued, also one caused by an alert, fails the sender's test seq >= bufItNext, len <= capacity, seq + len <= readSeq(0) if and only if it asks for more than the capacity; while the log is no more than a ring ahead of the backup cursor none does |
| `Theorems.RefusedIsClosed` | hmbdc/tips/reliable/BackupSendSessionT.hpp:142-149 | In every run a session serves the request at the head of its queue or, exactly if that fails the test, is closed: it sends nothing for it, and no other session is touched |
| `Theorems.OpenGapIsInHand` | hmbdc/tips/reliable/BackupRecvSessionT.hpp:262-277 | While a gap is open at a live session, its answer or its request is still somewhere between the two ends |
| `Recovery.LostIsAskedFor` | hmbdc/tips/reliable/BackupRecvSessionT.hpp:279-304 | In every run, for everything the multicast has ever carried: a receiver presented with a message ahead of the one it expects answers that it must be presented again and asks in one report for exactly what is missing before it, which then is pending; the expected one is taken, an older one passed over; an alert ahead asks for what it announces; before the start sequence, or with a report pending, nothing is sent |
| `Recovery.RefusedIsPending` | hmbdc/tips/reliable/BackupRecvSessionT.hpp:284-292 | In every run an item that has to be presented again to a receiver that has its start sequence leaves a gap report pending |
| `Recovery.Decides` | hmbdc/tips/rmcast/McRecvTransport.hpp:102-129 | However the first held item of a stalled reader stands, steps of the two ends lead to where it has been decided and what it showed to be missing has arrived, if no request is longer than the ring |
| `Recovery.DecidesAll` | hmbdc/tips/rmcast/McRecvTransport.hpp:93-149 | And so for the whole datagram |
| `Recovery.AlertCovers` | hmbdc/tips/rmcast/McSendTransport.hpp:199-209 | In every run the sequence an alert announces covers every message multicast so far |
| `Recovery.NothingIsLostForGood` | hmbdc/tips/reliable/BackupRecvSessionT.hpp:140-304 | From any moment of any run before the stop, while the log is no more than a ring ahead of the backup cursor: whatever was lost, reordered, repeated or held back, and wherever requests and answers are, steps of the two ends lead to where a live session's receiver is past everything the multicast has ever carried, and if sessions read what was put, its output is right |
| `Recovery.RefreshAnnounces` | hmbdc/tips/reliable/BackupRecvSessionT.hpp:192-206 | Announcing the subscriptions again leaves none out at the sender, and the session ready |
| `Theorems.MoveHelps` | hmbdc/tips/reliable/BackupRecvSessionT.hpp:262-304 | Unless a request asks for more than a ring, the next move about an open gap is enabled and brings its end nearer |
| `Theorems.GapCanClose` | hmbdc/tips/reliable/BackupSendSessionT.hpp:138-207 | From any such state with an open gap, a sequence of steps of the two ends alone closes it, ending just past the gap |
| `Theorems.GapCanCloseIffShort` | hmbdc/tips/reliable/BackupSendSessionT.hpp:138-207 | At any moment of any run: the two ends can close an open gap by themselves if and only if no request pending asks for more than a ring, which holds while the log is no more than a ring ahead of the backup cursor |
| `Theorems.Retention` | hmbdc/tips/reliable/BackupSendServerT.hpp:96-126 | In every run the backup cursor is at the beginning of the log or at least the replay history behind the multicast cursor, and never past any live session's bufItNext, request or unsent entry; the ring holds the last entries, as many as it has slots; so while the log is no more than a ring ahead of the backup cursor, every entry a session was asked for or still has to send is intact |
| `Theorems.RetentionTurn` | hmbdc/tips/reliable/BackupSendServerT.hpp:96-126 | In every run a retention turn moves the backup cursor exactly to the least progress less the replay history, if that is ahead of it, and else not at all: the turn that is skipped when nothing has changed would not have moved it either; moved, it is at least the replay history behind every live session; exactly the queued attachments whose trains end below the cursor are released |
| `Theorems.DroppedHoldsNothing` | hmbdc/tips/reliable/BackupSendServerT.hpp:99-106 | Once a connection is gone the progress retention asks for is the least of the other sessions and the multicast cursor |
| `Recovery.ProgressMovesTheCursor` | hmbdc/tips/reliable/BackupSendServerT.hpp:96-126 | From any moment of any run a live session with no gap open can, by steps of its two ends, bring its progress to what its receiver expects; if no other live session is further behind, the next retention turn moves the backup cursor up to there, less the replay history |
| `Recovery.TickIsServed` | hmbdc/tips/reliable/BackupRecvSessionT.hpp:67-69 | A tick with no gap report pending sends one report, of length 0, for the sequence the receiver expects; the sender can read and serve it and everything before it, after which its progress is that sequence |
| `PutGate.RoomIffPutsAreClear` | hmbdc/pattern/MemRingBuffer.hpp:113-117 | For every run, whatever the producers' scans came up with: the log never runs more than a ring ahead of the backup cursor if and only if every put fits behind both cursors |
| `PutGate.DecideIsPut` | hmbdc/pattern/MemRingBuffer.hpp:69-71 | In the two-consumer ring a producer next in line is let in exactly when the protocol's put is possible with the value the scan re-read, and its slots are left exactly when the put is a clear one; a steady scan sees to that, and so does any that settles on the backup cursor |
| `PutGate.SettlesOnFirstOnlyIfEqual` | hmbdc/pattern/MemRingBuffer.hpp:69-71 | The scan settles on the multicast cursor, which can then move on and make it overshoot, if and only if it compares the two cursors while they are equal |
| `Overshoot.SendsWrongMessage` | hmbdc/pattern/MemRingBuffer.hpp:69-71 | For a ring of any size: a run of the ring, and one of the protocol that sees just what it does, in which a scan re-reads the multicast cursor after it moved and lets a producer into a slot a live session still needs; the session then sends, and its receiver outputs, the later message in place of the one asked for |
| `Overshoot.CutsOff` | hmbdc/tips/reliable/BackupSendSessionT.hpp:142-149 | For a ring of any size: after such an overshoot a receiver that follows the protocol asks for more than the capacity, is refused, and whatever the two ends do its gap stays open |
| `Theorems.NewSessionSeesHistory` | hmbdc/tips/reliable/BackupSendServerT.hpp:194-203 | In every run a session accepted now starts, and tells its receiver to start, at the log's beginning or at least replayHistoryForNewRecv before readSeq(0); while the log is no more than a ring ahead of the backup cursor everything from there on is in the ring |
| `Theorems.AttachmentsReleasedOnce` | hmbdc/tips/reliable/BackupSendServerT.hpp:114-137 | In every run queued attachments are released in order, each at most once, and all of them once the server has stopped; the queue is no longer than the log is ahead of the backup cursor; before `stop` one is released only when every live session's request for any part of its train would be refused and nothing unsent belongs to it |
| `SkippedTrains.QueuedIffNotSkipped` | hmbdc/tips/rmcast/McSendTransport.hpp:169-198 | At any moment of any run a train that has gone by has its cleanup entry queued if and only if it was not among the entries thrown away without sessions |
| `SkippedTrains.AllQueuedIffNoneSkipped` | hmbdc/tips/rmcast/McSendTransport.hpp:169-198 | The queue is the ends of all trains gone by if and only if no train head was thrown away |
| `SkippedTrains.SkippedForGood` | hmbdc/tips/reliable/BackupSendServerT.hpp:114-137 | In any run a train thrown away is neither queued nor released at any later moment, also after `stop` |
| `SkippedTrains.StopReleasesAllButSkipped` | hmbdc/tips/reliable/BackupSendServerT.hpp:130-137 | Once the server has stopped, the attachments released are those of all trains gone by except the ones thrown away, in order |
| `SkippedTrains.TrainIsSkipped` | hmbdc/tips/rmcast/McSendTransport.hpp:172-175 | It happens: for any ring and any train that fits, a run without sessions throws the whole train away |
| `LinkProofs.NoArbiterGap` | hmbdc/pattern/SeqArb.hpp:80-88 | For a receiver in a reachable state no presentation makes the arbiter declare a gap |
| `LinkProofs.TakeFrameReceiver` | hmbdc/tips/reliable/BackupRecvSessionT.hpp:219-238 | Ticking off the expected sequence for a frame moves the receiver on by one and keeps where it is in step with the sender |
| `LinkProofs.TakeFrameContents` | hmbdc/tips/reliable/BackupRecvSessionT.hpp:219-238 | If the frames under way and the output are right, the frame at hand is the answer for the expected sequence and both stay right |
| `LinkProofs.ContentsKept` | hmbdc/tips/reliable/BackupSendSessionT.hpp:154-177 | Every step of the two ends keeps frames and output right, if the entries it reads are still those that were put |
| `LinkProofs.RequestIsGood` | hmbdc/tips/reliable/BackupSendSessionT.hpp:142-149 | A request at the head of a live session's queue is refused exactly if it asks for more than the capacity, and a gap request starts where the bytes under way end |
| `LinkProofs.ServeKeepsPending` | hmbdc/tips/reliable/BackupSendSessionT.hpp:190-195 | Splitting a request over batches leaves a queue that resumes at the right sequence |
| `LinkProofs.LinkStepKeeps` | hmbdc/tips/reliable/BackupSendSessionT.hpp:118-210 | Every step of a session and its receiver keeps the two-endpoint invariant |
| `Requests.ChainPush` | hmbdc/tips/reliable/BackupSendSessionT.hpp:256 | A full request queue forgets a progress report, never a gap report |
| `Requests.SubscriptionsOwed` | hmbdc/tips/reliable/BackupRecvSessionT.hpp:192-206 | The subscription text leaves exactly the subscribed tags at the other end, before any report is read |
| `Delivery.FillAt` | hmbdc/pattern/MemRingBuffer.hpp:221-266 | Filling claimed slots writes exactly these sequences and touches no entry less than a ring away |
| `Delivery.TrainEndsOk` | hmbdc/tips/rmcast/McSendTransport.hpp:187-194 | The ends of the trains headed in a stretch of the log come in order, each past its head and before later heads |
| `Delivery.StepKeeps` | hmbdc/tips/reliable/BackupSendServerT.hpp:93-137 | Every step of the whole system keeps the invariant of sender and all sessions, whatever the producers' scans came up with |
| `Delivery.Reachable` | hmbdc/tips/reliable/BackupSendServerT.hpp:93-137 | Every state of every run satisfies it |
| `Sender.Expired` | hmbdc/tips/reliable/BackupSendServerT.hpp:115-124 | The number of queue entries popped: all of these lie strictly below the bound, the next one does not |
| `BroadcastProofs.SafeIffGrantsAreClear` | hmbdc/pattern/MemRingBuffer.hpp:107-377 | For every run: slots are exclusive at every moment if and only if each producer was let in only when every live consumer had left its slots |
| `BroadcastProofs.ClearRunsAreSafe` | hmbdc/pattern/MemRingBuffer.hpp:107-377 | In such a run no slot has two writers or is written before every live consumer wasted it, and each live consumer reads every sequence from its start, once, in order, with the payload committed for it |
| `BroadcastScans.SteadyRunsAreSafe` | hmbdc/pattern/MemRingBuffer.hpp:69-71 | Where each re-read of the smallest cursor finds the value the scan saw, producers are let in only so, although the scan is not atomic |
| `BroadcastProofs.SlotIsFree` | hmbdc/pattern/MemRingBuffer.hpp:111-115 | A sequence let in shares its slot with nothing a live consumer may still read and with no other sequence being written |
| `BroadcastProofs.StepKeeps` | hmbdc/pattern/MemRingBuffer.hpp:107-377 | Every atomic step, under any interleaving of producers and consumers, keeps the ring invariant, a step that lets a producer in provided its slots are left, which is the exact condition |
| `BroadcastLimits.SingleConsumerIsSafe` | hmbdc/pattern/MemRingBuffer.hpp:69-71 | With one consumer the scan is always conservative |
| `BroadcastLimits.UnsafeRun` | hmbdc/pattern/MemRingBuffer.hpp:69-71 | With two consumers or more, and any capacity, a run lets a producer into a slot a live consumer has not read, because the minimum cursor is read again after the scan |
| `BroadcastLimits.SafeIffOneConsumer` | hmbdc/pattern/MemRingBuffer.hpp:69-71 | The ring as written protects unread slots under every interleaving if and only if it has one consumer |
| `BroadcastProgress.NoPutIsStuck` | hmbdc/pattern/MemRingBuffer.hpp:107-250 | At any moment of a run with clear grants a producer that has claimed, wherever it is in its scan, its writing or its committing, completes its put by its own steps if every live consumer has left its slots |
| `BroadcastProgress.TryAlone` | hmbdc/pattern/MemRingBuffer.hpp:124-231 | An undisturbed try puts its items if and only if every live consumer has left the slots, and otherwise changes nothing |
| `BroadcastProgress.FailedSwapTriesAgain` | hmbdc/pattern/MemRingBuffer.hpp:128-140 | A try whose compare-and-swap fails, even for no reason, starts over: undisturbed, it still succeeds exactly with room |
| `BroadcastProgress.CommittedCanBeRead` | hmbdc/pattern/MemRingBuffer.hpp:310-400 | At any such moment a live consumer can by its own steps peek, read and give back everything committed behind what it has peeked, and has then got exactly what was put |
| `BroadcastProgress.KillingPutCompletes` | hmbdc/pattern/MemRingBuffer.hpp:143-157 | A put that kills completes whatever the other consumers do not do: exactly the live consumers that have not left its slots are marked dead, and the producer goes on by itself |
| `BroadcastProgress.NewcomerGetsWhatFollows` | hmbdc/pattern/MemRingBuffer.hpp:405-412 | A consumer that joins gets exactly what is put after it joined |
| `PartitionProofs.StepKeeps` | hmbdc/pattern/MemRingBuffer2.hpp:64-311 | Every atomic step of producers (`put`, `claim`, `tryPut`, `tryClaim`) and consumers (`peek`, `take`, `wasteAfterPeek`) keeps the ring invariant |
| `PartitionProofs.EachItemToOneConsumer` | hmbdc/pattern/MemRingBuffer2.hpp:243-263 | Each committed item below the read cursor was handed to exactly one consumer, and no other item to any |
| `PartitionProofs.HeldSlotIsIntact` | hmbdc/pattern/MemRingBuffer2.hpp:300-311 | A peeked slot holds its item whole until `wasteAfterPeek` gives it back, and no other consumer holds it |
| `PartitionProofs.TakenValueIsWhole` | hmbdc/pattern/MemRingBuffer2.hpp:189-206 | A `take` whose compare-and-swap succeeds returned the item put there, untorn, although it copied before |
| `PartitionProofs.WriterIsAlone` | hmbdc/pattern/MemRingBuffer2.hpp:156-174 | A producer about to write a word finds no stored item and no second writer in that slot |
| `PartitionProofs.ChainCoversOnce` | hmbdc/pattern/MemRingBuffer2.hpp:243-263 | Ranges handed out one after the other contain each sequence below the cursor exactly once |
| `PartitionProofs.QuietRingIsEmpty` | hmbdc/pattern/MemRingBuffer2.hpp:300-311 | When everything read has been given back, every slot may be written over |
| `PartitionProgress.NoPutIsStuck` | hmbdc/pattern/MemRingBuffer2.hpp:64-174 | At any moment of any run a producer that has claimed completes its put by its own steps if there is room behind the read cursor and the slots it has not checked are given back |
| `PartitionProgress.TryAlone` | hmbdc/pattern/MemRingBuffer2.hpp:81-102 | An undisturbed `tryPut` puts its item if and only if there is room behind the read cursor and the slot is given back, and otherwise changes nothing |
| `PartitionProgress.CommittedCanBeTaken` | hmbdc/pattern/MemRingBuffer2.hpp:189-263 | At any moment of any run a free consumer can by its own steps take the next committed item, and gets what was put, or peek any committed range behind the read cursor, and give it back |
| `SeqArb.SingleThreadSeqArb.JLow` | hmbdc/pattern/SeqArb.hpp:145-150 | The loop finds the smallest presented sequence |
| `SeqArb.SingleThreadSeqArb.Present` | hmbdc/pattern/SeqArb.hpp:64-90 | The single-threaded operator, in place, does what the specification function does: new state, code and declared gap |
| `SeqArb.Low` | hmbdc/pattern/SeqArb.hpp:145-150 | The result is one of the presented sequences and a lower bound of all |
| `SeqArbThreads.CallbacksExclude` | hmbdc/pattern/SeqArb.hpp:66-90 | Under any interleaving callbacks never overlap while only sequences below the sentinel are presented |
| `SeqArbThreads.CallbacksPartition` | hmbdc/pattern/SeqArb.hpp:66-90 | Hits and declared gaps account exactly once for every sequence in [start, end) and for no other |
| `SeqArbThreads.PresentingTheSentinelOverlaps` | hmbdc/pattern/SeqArb.hpp:69-72 | Presenting the sentinel itself while a callback runs starts a second callback beside it |
| `SeqArbThreads.ExclusionCondition` | hmbdc/pattern/SeqArb.hpp:66-90 | Callbacks exclude one another in all runs if and only if there is one participant or nobody presents the sentinel |
| `SeqArbThreads.GapIsLostOnEveryLine` | hmbdc/pattern/SeqArb.hpp:80-88 | When each participant presents increasing sequences and asks again about undecided ones, a sequence inside a declared gap is never presented on any line, before or after |
| `SeqArbThreads.MovedPastWasHit` | hmbdc/pattern/SeqArb.hpp:66-90 | What a participant presented and moved past was hit, on its line or another |
| `SeqArbThreads.UndisturbedCall` | hmbdc/pattern/SeqArb.hpp:165-181 | A call nobody disturbs ends in the state, result and callbacks of the single-threaded operator |
| `PoolConsumer.HandledInOrder` | hmbdc/pattern/PoolConsumer.hpp:137-168 | Under any interleaving of pool threads the consumer is given one contiguous run of sequences, in order, each once, and no two threads are inside it together |
| `PoolConsumer.ThreadsServeUntilStop` | hmbdc/pattern/PoolConsumer.hpp:137-139 | In every run a thread no longer offers the consumer anything only after the consumer has stopped; finding it busy does not count |
| `PoolConsumer.SomeThreadCanServe` | hmbdc/pattern/PoolConsumer.hpp:140-167 | While the consumer runs, the last thread to have had it can serve it again by itself, its ring cursor at or before the next sequence |
| `PoolConsumer.NothingAfterStop` | hmbdc/pattern/PoolConsumer.hpp:138-165 | Once stopped it stays stopped, and nothing more is handled |
| `PoolConsumer.NextCanBeHandled` | hmbdc/pattern/PoolConsumer.hpp:140-167 | A thread whose next range starts at or before the next sequence, with no other thread inside, hands the consumer that sequence by its own steps |
| `PoolConsumer.ServesIffBehind` | hmbdc/pattern/PoolConsumer.hpp:137-168 | In any running state of any run with more committed: a thread gets the next sequence handled by its own steps alone if and only if no other thread is inside and what it offers next starts at or before that sequence; between two offers that is where its ring cursor stands |
| `PoolConsumer.CursorBehindIsNotEnough` | hmbdc/pattern/PoolConsumer.hpp:139 | In the middle of an offer the cursor alone does not tell: a run leaves a thread that found the consumer busy with its cursor before the place and its range past it, and it cannot hand over the next sequence |
| `PoolConsumer.ConsumerCanCatchUp` | hmbdc/pattern/PoolConsumer.hpp:137-195 | By the steps of one such thread alone it can be brought up to everything committed, so nothing is skipped for good |
| `PoolConsumer.CatchUpFromAnyRun` | hmbdc/pattern/PoolConsumer.hpp:137-195 | From any running state of any run one thread alone can do so |
| `PoolConsumer.IsInvokedWhenIdle` | hmbdc/pattern/PoolConsumer.hpp:169-195 | A consumer that is up to date is called without messages by a thread at its place |
| `PoolConsumer.StopIsNoticed` | hmbdc/pattern/PoolConsumer.hpp:138 | Once the consumer has stopped, every thread drops it by its own steps |
| `RtProofs.OneProducerIsFaithful` | hmbdc/pattern/MemRingBufferRt.hpp:205-228 | With one producer every accepted value is the one put with that sequence, accepted sequences strictly increase, and the code is 1 exactly when nothing was missed in between |
| `RtProofs.OnlyOverwrittenItemsAreMissed` | hmbdc/pattern/MemRingBufferRt.hpp:209-220 | The skip-ahead and every other way past an item leave behind only items whose slot a claimed item overwrites |
| `RtProofs.NothingToReadMeansAllRead` | hmbdc/pattern/MemRingBufferRt.hpp:217-219 | A reader that finds nothing while the producer rests has seen everything |
| `RtProofs.TornRun` | hmbdc/pattern/MemRingBufferRt.hpp:115-130 | Two producers or more and a ring of any size: a run in which a reader accepts for a sequence a value nobody put with it |
| `RtProofs.FaithfulIffOneProducer` | hmbdc/pattern/MemRingBufferRt.hpp:20-23 | For a ring of any size readers are served faithfully in all runs if and only if at most one producer puts, although the class calls itself safe for many |
| `RtBuffer.MemRingBufferRt.Put` | hmbdc/pattern/MemRingBufferRt.hpp:115-130 | Appends to the history and keeps every slot at the last item put into it |
| `RtBuffer.MemRingBufferRt.TryTake` | hmbdc/pattern/MemRingBufferRt.hpp:205-228 | With nobody else active it ends, returning item max(r, w - CAPACITY), with 1 if that is r and -1 if not, or 0 when r >= w |
| `Relic.ExtractRelicTo` | hmbdc/comm/inet/Misc.hpp:137-161 | Leaves exactly the bytes not yet sent, in at most as many buffers, also when source and target are the same array |
| `Frames.ParseConserves` | hmbdc/tips/reliable/BackupRecvSessionT.hpp:219-240 | Frames found and bytes kept are the bytes read |
| `Frames.ParseOfEncoding` | hmbdc/tips/rmcast/Messages.hpp:21-88 | Encoded frames are parsed back, whatever incomplete bytes follow |
| `Frames.ParseInTwo` | hmbdc/tips/reliable/BackupRecvSessionT.hpp:219-240 | Reading in two pieces finds the frames that reading at once finds |
| `Frames.ChunkingDoesNotMatter` | hmbdc/tips/reliable/BackupRecvSessionT.hpp:219-240 | However the stream is cut, the same frames are found and the same bytes kept |
| `Frames.StartSeqSurvives` | hmbdc/tips/reliable/BackupSendSessionT.hpp:97-103 | The eight bytes of a start sequence read back as that sequence |
| `RecvSession.BackupRecvSession.SendGapReport` | hmbdc/tips/reliable/BackupRecvSessionT.hpp:262-277 | One report at a time: new pending state and text as specified |
| `RecvSession.BackupRecvSession.Arb` | hmbdc/tips/reliable/BackupRecvSessionT.hpp:279-292 | The object's arbitration agrees with the protocol's, including the report sent and the gap declared |
| `RecvSession.BackupRecvSession.AcceptItem` | hmbdc/tips/reliable/BackupRecvSessionT.hpp:140-155 | One multicast item: state, result, output and reports are those of the protocol's receiver |
| `RecvSession.BackupRecvSession.TakeOne` | hmbdc/tips/reliable/BackupRecvSessionT.hpp:225-234 | One frame: output filter and tick-off are those of the protocol's receiver |
| `RecvSession.BackupRecvSession.TakeStart` | hmbdc/tips/reliable/BackupRecvSessionT.hpp:210-218 | The start sequence is read once eight bytes are there |
| `RecvSession.BackupRecvSession.TakeFrames` | hmbdc/tips/reliable/BackupRecvSessionT.hpp:219-238 | The loop takes every complete frame and leaves the incomplete rest |
| `RecvSession.BackupRecvSession.DoRead` | hmbdc/tips/reliable/BackupRecvSessionT.hpp:208-260 | One read consumes the complete items, keeps the rest at the front and appends what the socket had, as far as there is room; false on end of stream or a full buffer |
| `RecvSession.ChunkingDoesNotMatterToTheSession` | hmbdc/tips/reliable/BackupRecvSessionT.hpp:208-260 | However the stream is cut, the session ends in the same state with the same bytes kept and the same commands sent |
| `RecvSession.StreamCarriesTheItems` | hmbdc/tips/reliable/BackupRecvSessionT.hpp:208-238 | A start sequence followed by encoded frames is taken for exactly the items the protocol sends |
| `RecvTransport.NothingIsSkipped` | hmbdc/tips/rmcast/McRecvTransport.hpp:93-149 | Every item is decided in arrival order; a refused one is held with all behind it and offered again first |
| `RecvTransport.OfferIsPresenting` | hmbdc/tips/rmcast/McRecvTransport.hpp:102-129 | Offering a datagram is the protocol's presenting step, repeated until an item is refused |
| `RecvTransport.McRecvTransport.ReadOn` | hmbdc/tips/rmcast/McRecvTransport.hpp:102-129 | The inner loop offers the rest of the datagram as specified and stops at a refused item |
| `RecvTransport.McRecvTransport.ResumeRead` | hmbdc/tips/rmcast/McRecvTransport.hpp:93-149 | The outer loop goes through arrivals as specified and leaves the rest unread after a refusal |
| `Commands.CommandSurvives` | hmbdc/tips/reliable/BackupSendSessionT.hpp:234-261 | Every command is read back as written, with its tag or numbers |
| `Commands.ListenInTwo` | hmbdc/tips/reliable/BackupSendSessionT.hpp:232-267 | Reading text in two pieces hears what reading at once hears |
| `Commands.ChunkingDoesNotMatter` | hmbdc/tips/reliable/BackupSendSessionT.hpp:232-267 | However the text is cut, the same commands are obeyed and the same text kept |
| `Commands.TextCarriesTheCommands` | hmbdc/tips/reliable/BackupSendSessionT.hpp:232-267 | Whatever commands a receiver writes, the sender obeys exactly these, in order |
| `Commands.WithdrawalIsHeard` | hmbdc/tips/reliable/BackupSendSessionT.hpp:249-254 | A withdrawn subscription, ended by a tab, takes exactly that tag away |
| `SendSession.BackupSendSession.DoRead` | hmbdc/tips/reliable/BackupSendSessionT.hpp:216-269 | Reads as much as there is room for, obeys exactly the complete commands received and keeps the rest |
| `SendSession.BackupSendSession.FlushRelic` | hmbdc/tips/reliable/BackupSendSessionT.hpp:120-137 | Bytes on the wire and bytes left over together stay the same, and as many go as the kernel takes; bufItNext moves only when nothing is left |
| `SendSession.BackupSendSession.BuildBatch` | hmbdc/tips/reliable/BackupSendSessionT.hpp:150-179 | The vector holds exactly the bytes of the first k requested sequences, flushes for those the receiver would drop, and the size counted is theirs; it stops only when the request is done or the vector is full |
| `SendSession.BackupSendSession.SendBatch` | hmbdc/tips/reliable/BackupSendSessionT.hpp:181-202 | After a partial send wire and left-over together grow by the batch, the left-over is exactly what the kernel did not take, and the request resumes after the batch |
| `SendSession.BackupSendSession.ServeOne` | hmbdc/tips/reliable/BackupSendSessionT.hpp:138-207 | Refuses a bad request, skips a progress report, or hands over a batch, losing and repeating no requested sequence |
| `SendSession.BackupSendSession.ServeQueue` | hmbdc/tips/reliable/BackupSendSessionT.hpp:138-207 | The wire and left-over grow by exactly the bytes of the sequences handed over; handed-over and still queued sequences together are those asked for; unsent bytes belong to sequences not before bufItNext. It goes well only if the queue ends empty, or bytes are left over, or the kernel would block; if no request is refused and the kernel takes everything, exactly the bytes of all sequences asked for are sent and the queue is empty |
| `SendPath.ServesMeans` | hmbdc/tips/reliable/BackupSendSessionT.hpp:138-207 | What turn after turn of the loop comes to, for any number of turns: which sequences were handed over, and that what is left belongs to the last of them |
| `SendSession.BackupSendSession.RunOnce` | hmbdc/tips/reliable/BackupSendSessionT.hpp:118-210 | Across a whole turn: as much is read as there is room for, and what is heard is the complete commands read; wire and left-over grow by exactly the bytes handed over; unsent bytes belong to sequences not before bufItNext or were left over before; the object goes through one flush, of as much as the kernel takes, and then turn after turn of the loop; it goes well only if every request is served, bytes are left over or the kernel would block, and fails only for a peer gone, bad text, a refused request or an error |
| `SendPath.TurnIsSteps` | hmbdc/tips/reliable/BackupSendSessionT.hpp:118-210 | If the object is at the protocol's link, such a turn is a sequence of the protocol's read, flush and serve steps: it ends at the link they lead to, and the bytes of the frames completed meanwhile encode exactly the items that went down the connection, wherever the kernel cut them |
| `SendPath.CutAt` | hmbdc/tips/reliable/BackupSendSessionT.hpp:181-202 | A partial send ends in exactly one frame: those before it are sent, it and those behind are not |
| `SendPath.HearsPrefix` | hmbdc/tips/reliable/BackupSendSessionT.hpp:232-267 | Of a stream of commands cut anywhere, exactly the complete ones are obeyed and the rest is kept |
| `SendPath.InvariantHears` | hmbdc/tips/reliable/BackupRecvSessionT.hpp:192-206 | In every reachable state the commands of a live session are of the kind this is proved for |
| `SendBytes.ExpandServed` | hmbdc/tips/reliable/BackupSendSessionT.hpp:190-195 | Splitting a request leaves exactly the remaining sequences |
| `SendBytes.BytesAreTheFrames` | hmbdc/tips/reliable/BackupSendSessionT.hpp:154-177 | The bytes for a range of sequences encode these frames |
| `SendBytes.FramesAreTheItems` | hmbdc/tips/reliable/BackupSendSessionT.hpp:154-177 | These frames are the items the protocol sends for the range |
| `SendServer.AsyncBackupSendServer.RunOnce` | hmbdc/tips/reliable/BackupSendServerT.hpp:93-128 | Drops failed sessions and does to cursor, queue and released attachments what the protocol's retention step does for the smallest live progress: the cursor moves only up, to that progress less the replay history |
| `SendServer.LeastIsTheProtocols` | hmbdc/tips/reliable/BackupSendServerT.hpp:97-108 | That progress is the one the protocol's retention step asks for |
| `SendServer.AsyncBackupSendServer.ReleaseBelow` | hmbdc/tips/reliable/BackupSendServerT.hpp:115-124 | Releases the entries below the bound, oldest first, and keeps the others |
| `SendServer.AsyncBackupSendServer.Stop` | hmbdc/tips/reliable/BackupSendServerT.hpp:130-137 | Releases every remaining attachment once, in order, as the protocol's stop step does |
| `SendServer.AsyncBackupSendServer.KillSlowestSession` | hmbdc/tips/reliable/BackupSendServerT.hpp:151-168 | Drops one session whose progress is smallest |
| `SendServer.Least` | hmbdc/tips/reliable/BackupSendServerT.hpp:97-108 | The minimum of multicast cursor and live progress: a lower bound that one of them attains |
| `SendTransport.McSendTransport.Take` | hmbdc/tips/rmcast/McSendTransport.hpp:176-202 | The batch holds exactly the next k entries, as many as there are and the rate and size allow; the cleanup queue grows by the ends of their trains, the alert by their last sequence |
| `SendTransport.McSendTransport.SendReady` | hmbdc/tips/rmcast/McSendTransport.hpp:143-158 | The datagram sent is the protocol's, and the multicast cursor moves past its entries |
| `SendTransport.McSendTransport.Prepare` | hmbdc/tips/rmcast/McSendTransport.hpp:160-210 | Builds the next datagram along steps of the protocol; pending advertisements and alerts are lined up, an alert unless ring entries are; nothing is lined up only if sending has not started or the ring offers nothing |
| `SendTransport.McSendTransport.ResumeSend` | hmbdc/tips/rmcast/McSendTransport.hpp:140-212 | The whole loop is a path of the protocol's build, send and skip steps, skipping only without sessions. One datagram goes out for every answer of the socket used; it ends with something to send only if the socket takes no more, and with nothing only if nothing is pending and sending has not started, or without sessions what was visible up to the batch limit has been thrown away, or nothing is visible, or the rate allows nothing; what was pending before is lined up or sent |
| `SendTransport.GoesIsReached` | hmbdc/tips/rmcast/McSendTransport.hpp:140-212 | From a state of a run of the whole system such a path leads to a state of a run |
| `SendEngine.SendTransportEngine.RunOnce` | hmbdc/tips/rmcast/SendTransportEngine.hpp:179-195 | A turn of the engine (start gate, retention, multicast, sharing the cleanup queue) leads from a state of a run of the protocol to a state of a run, at which both halves are; what was sent is in the network; it sends until the socket takes no more or there is nothing left to send, and moves the backup cursor as far as the live sessions' progress and the replay history allow |
| `SendEngine.SendTransportEngine.Stop` | hmbdc/tips/rmcast/SendTransportEngine.hpp:410-417 | After it every attachment ever queued has been released, in order, and the state is one of a run |
| `SendEngine.SessionTurnIsReached` | hmbdc/tips/reliable/BackupSendSessionT.hpp:118-210 | A session object's turn at a link of a state of a run leads to a state of a run, with the object at its link, whatever it read of the commands under way and whatever the kernel took |
| `SendEngine.DroppedIsReached` | hmbdc/tips/reliable/BackupSendServerT.hpp:99-106 | Dropping a session whose turn failed leads to a state of a run too |
| `BlockingBuffer.ItemsGoOutInOrder` | hmbdc/pattern/BlockingBuffer.hpp:323-337 | For any interleaving, `peekExclusive` hands items out in put order, each to one caller, and the assertion size == peeked holds |
| `BlockingBuffer.SpaceComesBack` | hmbdc/pattern/BlockingBuffer.hpp:339-357 | The lowest outstanding sequence is the queue head, no two outstanding ones share a slot, and with nothing outstanding all handed-out space is back |
| `BlockingBuffer.ReleaseKeeps` | hmbdc/pattern/BlockingBuffer.hpp:339-357 | Releasing in any order moves the head to the lowest outstanding sequence, or past everything handed out |
| `BlockingBuffer.BlockingBuffer.TryPutInPlace` | hmbdc/pattern/BlockingBuffer.hpp:104-124 | Puts behind everything present without touching an outstanding slot, or refuses when full |
| `BlockingBuffer.BlockingBuffer.PeekExclusive` | hmbdc/pattern/BlockingBuffer.hpp:323-337 | Returns the next item not handed out, which its slot holds |
| `BlockingBuffer.BlockingBuffer.WasteAfterPeekExclusive` | hmbdc/pattern/BlockingBuffer.hpp:339-357 | Keeps the invariant and hands nothing out or back twice |
| `Attachments.ChunkCount` | hmbdc/app/Context.hpp:325-326 | The number of slots claimed is the number of segments there are |
| `Attachments.Send` | hmbdc/app/Context.hpp:324-353 | The loop writes exactly the train into the claimed slots, or refuses an attachment the ring cannot hold |
| `Attachments.WrittenAt` | hmbdc/app/Context.hpp:332-352 | What was written is found in its slot |
| `Attachments.TrainRoundTrip` | hmbdc/app/MessageDispacher.hpp:62-126 | A train calls the first matching handler once with the very bytes sent, or none if no listed type takes it, and leaves the reassembler idle |
| `Attachments.RingRoundTrip` | hmbdc/app/MessageDispacher.hpp:142-150 | Whatever plain messages and trains share the ring, every consumer's handlers see what it lists, once, in order, whole |
| `Attachments.SegmentIsCopied` | hmbdc/app/Client.hpp:50-59 | A segment is copied once by the first type that takes attachments, whichever listed type the train is for |
| `Attachments.InBandMemoryAttachmentProcessor.Cache` | hmbdc/app/Client.hpp:23-48 | Starts gathering, or is done at once for an empty attachment |
| `Attachments.InBandMemoryAttachmentProcessor.Gather` | hmbdc/app/Client.hpp:50-59 | Copies what is missing and tells when the attachment is complete |
| `Attachments.InBandMemoryAttachmentProcessor.Look` | hmbdc/app/MessageDispacher.hpp:32-128 | One listed type deals with a slot as specified |
| `Attachments.InBandMemoryAttachmentProcessor.DispatchSlot` | hmbdc/app/MessageDispacher.hpp:142-150 | The listed types in turn: reassembler and calls as specified |
| `Timers.DailyLandsLater` | hmbdc/time/Timers.hpp:140-145 | A daily timer is renewed for later than now if and only if it is not late by a whole number of days |
| `Timers.InsertKeeps` | hmbdc/time/Timers.hpp:83-87 | Scheduling keeps the queue ordered by time, without duplicates |
| `Timers.TimerManager.ScheduleAt` | hmbdc/time/Timers.hpp:83-87 | The timer is queued at its time and armed |
| `Timers.TimerManager.CancelTimer` | hmbdc/time/Timers.hpp:94-103 | The timer, and no other, leaves the queue |
| `Timers.TimerManager.FireDue` | hmbdc/time/Timers.hpp:161-169 | The callbacks invoked are, one after the other, that of the first timer due in the state the one before left, which is disarmed first; each does what it does in the state it finds; in the end nothing is due |
| `Timers.TimerManager.Renew` | hmbdc/time/Timers.hpp:171-179 | Every timer past its time is renewed, or gone if it is a one-time timer; every other keeps its time |
| `Timers.TimerManager.CheckTimers` | hmbdc/time/Timers.hpp:160-180 | Ends; the trace of callbacks is as above; a due timer fires if and only if no callback cancelled it before its turn, once, in order of time; in the end every timer is where the last action on it put it, or where it was; a fired timer nobody touched is back: a recurring one at now plus its interval, a daily one at the first time later than now that is whole days after its own, a one-time one gone; all are armed, for later than now |
| `Timers.TraceFires` | hmbdc/time/Timers.hpp:161-169 | Whatever callbacks do, along a trace fired timers were due, none twice, in order of time, and what is unarmed has fired |
| `Timers.TraceFates` | hmbdc/time/Timers.hpp:161-169 | Along a trace each timer is where the last action on it put it, or where it was |
| `Timers.FiredWereNotCancelled` | hmbdc/time/Timers.hpp:94-103 | No timer fires that a callback cancelled before its turn |
| `Timers.NobodyCancels` | hmbdc/time/Timers.hpp:161-169 | When callbacks cancel nothing, the timers fired are all those due |
| `ZeroCopy.CounterIsSubscribers` | hmbdc/tips/TypeTagSet.hpp:156-182 | With nobody half way through subscribing, a tag's count read as eight bits is its number of subscribers if and only if that is below 256 |
| `ZeroCopy.LeaverIsUncounted` | hmbdc/tips/TypeTagSet.hpp:156-192 | A party that leaves is no longer counted for any tag, and no other is uncounted |
| `ZeroCopy.CountIsRight` | hmbdc/tips/Domain.hpp:857-860 | The number a sender adds to the block's count is the number of other subscribers if and only if fewer than 256 parties subscribe |
| `ZeroCopy.StepHeld` | hmbdc/tips/Domain.hpp:690-707 | The block's count is the owner's hold plus the parties yet to let go, kept by every step |
| `ZeroCopy.FreedExactlyOnce` | hmbdc/app/Context.hpp:606-621 | The block is never deallocated while anyone holds it or is about to, and exactly once after |
| `ZeroCopy.FreedWhileHeld` | hmbdc/tips/Domain.hpp:857-860 | With more than 256 subscribers, and not a multiple, a run deallocates the block while subscribers hold it |
| `ZeroCopy.NeverFreed` | hmbdc/tips/Domain.hpp:857-860 | With a multiple of 256, the owner among them, a run never deallocates it |
| `ZeroCopy.FreedRightIffUnder256` | hmbdc/tips/Domain.hpp:846-902 | Blocks sent to n subscribers are deallocated once and never too early in all runs if and only if n < 256 |
| `Bag.NextOfEncoding` | hmbdc/tips/Bag.hpp:243-296 | One recorded message is played, passed over or ends the playing, as the filter says |
| `Bag.BagRoundTrip` | hmbdc/tips/Bag.hpp:243-296 | Repeated playing yields, in order, exactly the records before the first one at or past the range end that pass tag and time filter, with the same time, tag, attachment and payload behind the attachment head |
| `Bag.PlayedExactly` | hmbdc/tips/Bag.hpp:243-296 | Field by field: the messages played are exactly the records whose tag, read as a signed 16-bit number, is asked for, whose time is not before the range, and before which none is at or past its end, in the order recorded; time, tag and attachment are the recorded ones, the payload too, less its first 40 bytes if there is an attachment |
| `Bag.RecordedFileIsPlayed` | hmbdc/tips/Bag.hpp:101-296 | The player that opens a recorded file, with any configuration in its head, plays these |
| `Bag.OutputBag.RecordMessage` | hmbdc/tips/Bag.hpp:101-109 | The file is the header and the encoded records; the statistics count them by tag |
| `Bag.InputBag.PlayNext` | hmbdc/tips/Bag.hpp:243-296 | Plays the next record as specified, or closes the bag |
| `Rater.LevelStaysInside` | hmbdc/time/Rater.hpp:28-40 | With a clock that does not go back and each commit directly after a passed check, the level stays in [0, bucket] |
| `Rater.WindowIsBounded` | hmbdc/time/Rater.hpp:28-40 | Over any stretch of a run the committed cost is at most bucket plus elapsed time |
| `Rater.PassesIffEveryStretchFits` | hmbdc/time/Rater.hpp:28-36 | Exactly when a check passes, for a bucket that started full: the units cost no more than a full bucket, and for every stretch of the run up to now what was committed in it and these units cost no more than a full bucket and the time since it began |
| `Rater.WaitingHelps` | hmbdc/time/Rater.hpp:28-36 | Time brings the level back: whoever asks for no more than a full bucket and waits for what it costs may have it |
| `Rater.OverdrawnIffNotCovered` | hmbdc/time/Rater.hpp:28-40 | k commits after one check bring the level below zero if and only if it does not cover the cost k times |
| `Rater.Rater.CheckNow` | hmbdc/time/Rater.hpp:28-36 | Refills up to the bucket; passes exactly if the units cost no more than a full bucket and no more than the level and the time since the last check |
| `Rater.Rater.CommitNow` | hmbdc/time/Rater.hpp:38-40 | Takes the cost of the units last asked for |

## Left out

- Sockets, epoll, shared-memory mapping, thread affinity, logging, JSON configuration, console and example programs: wrappers around I/O.
- Memory-order subtleties weaker than sequential consistency.
- `SeqArb` batch overload: it sets the expected sequence past what it counted, so the partition does not hold there.
- `MemRingBuffer<0>::tryClaim(n)`: it re-tests only the first slot; `claim(n)` is modelled.
- `wasteAfterPeek` of the partition ring with `incomplete`: the source itself marks it as unsafe with other readers.
- `MemRingBuffer::reset` as a loop: joining is one atomic step.
- The shared rings as objects updated in place: their atomic steps are functions on values, because several threads interleave.
- `sendUnsubscribe`: it omits the tab, so the text does not parse back.
- Command text with leading blanks or signs in its numbers, an empty command, or zero bytes: no receiver writes it.
- `RecvSession.BackupRecvSession.DoRead`: asks that every frame in the buffer is empty or holds a message head; the source reads the tag of a shorter frame from beyond it.
- `Timers.TimerManager.CheckTimers`: asks that due timers are renewed for later than now and that callbacks schedule only later and only timers not queued; what the source does otherwise is not modelled (it can advance an iterator past the end).
- `RecvTransport.McRecvTransport.ResumeRead`: one session; datagrams of senders without a session are dropped by the source before they reach one.
- `Theorems.EndToEndDelivery`: for runs in which sessions read what was put, because the ring's scan can overshoot; `FramesAnswerIffReadsAreRight` shows the condition to be exact for the frames, `Overshoot.SendsWrongMessage` a run without it.
- `SenderRing.RingRunsAreRuns`: after an overshoot it says where things are; what a session then reads from a slot that is being written is not modelled.
- `SendEngine.SendTransportEngine.RunOnce`: without the refresh of the advertisements; the sessions' turns come before it, as `SendEngine.SessionTurnIsReached` describes them.
- `SendTransport.McSendTransport.Take`: the rate limit and the datagram size are a bound passed in; all advertisement buffers count as one item.
- Binary-search dispatch: it sorts on the low byte of the tag only; the sequential dispatcher is modelled.
- The avoid-own-messages test in the dispatcher, dispatch time stamps, and shared-memory handles inside trains.
- The start-callback race of `handleRange`: the start callback is one step with setting the first sequence. A client that cuts its own batch short (`batchDone_`) counts as having been given the range.
- Variadic `put` wake-ups, plain `peek` mixed with exclusive peeking, `BlockingBufferRt`, `ClientWithStash`, statistics and meta utilities: easier members.
- `AttBufferAdaptor`: the code that builds its trains is not part of this model.
- The commit in hmbdc/tips/reliable/BackupSendSessionT.hpp:196-197: it ignores the check on purpose and so breaks the rule `Rater.LevelStaysInside` rests on.
- The undo of a failed `trySend` in zero-copy sending; subscribers that change while a message is in flight.
- Scheduling: the progress results (`NothingIsLostForGood`, `GapCanClose`, `NoPutIsStuck`, `ConsumerCanCatchUp` and the like) show that the next steps can be made, not that a scheduler makes them.
- A report that cannot be written to the backup connection: the receiver then stops, as it does when the connection ends.
- `Recovery.NothingIsLostForGood`: while the log is no more than a ring ahead of the backup cursor; `Overshoot.CutsOff` is a run further ahead in which a receiver's gap stays open. Entries thrown away before the session joined are not multicast again.
