# mstone in Dafny

mstone is a load generator for mail servers. Around its network code it has a core of state
machines, streaming algorithms and integer partitions. These modules model that core and prove
what it guarantees for every schedule, every way a stream is cut into reads, and every choice of
parameters. The model is of the C sources under `src/`.

| modules | part of mstone |
|---|---|
| Timeval, Clients, EventQueue | times, the event-driven client and the sorted event list under its lock |
| WorkerPool, PoolLocks, PoolWakeups, PoolOwnership, PoolTheorems, PoolRecords, PoolBlocks, PoolHistory, PoolShutdown, Runs, Counting | all interleavings of workers, handlers and shutdown |
| Lifecycle | the two engines that call a protocol's Start, Loop and End |
| Modular, Words, Bytes, Blocks, Md5Rounds, Md5Rfc, Md5Step, Md5, Md5Vector | the incremental MD5 of RFC 1321 |
| SocketBuffer, Checksum, ChecksumRuns | the buffered socket and the message checksum, for every schedule of reads |
| Ranges | the login ranges of processes and threads |
| HttpRuns, HttpReader, Terminators, Multiline, Base64 | response reading, for every schedule of reads, and encoding |
| Loader | the two passes over the commands file, and the weighted choice |
| Folding, Stats | timers and their totals |
| Hiding | a proof device: predicates whose body is used only where it is asked for |

Code that changes things step by step is modelled by methods, on classes or arrays where it
changes an object or a buffer in place, and proved against functions or properties. Concurrency
is a state machine whose steps are the sections between lock operations. A condition wait may
return without reason. Creating a thread may fail. The test of `finish` in `ev_at` is a step of
its own, as it is made without the lock.

How a stream is cut into reads is an explicit schedule, a list of sizes. A read brings the next
size of the list, or as much as possible if that is zero, too large or missing; at least one byte
and at most what was asked for, until the stream ends. Each reader is proved to do what a function
of stream and schedule says, and the theorems range over all schedules. A socket also records what
each read has brought.

Clocks, sampled delays, random draws, the results of protocol callbacks and `gf_timeexpired` are
parameters.

What the proofs show that the sources and their comments do not say:

- A wakeup can be lost exactly if `lowat` or `hiwat` is below one (`src/event.c:131`,
  `src/event.c:340`). With `hiwat` below one, `finished` is also signalled too soon.
- After the broadcast of `ev_queue_destroy` nobody sleeps again, and the shutdown comes to an end.
  The wait of `src/event.c:156` is signalled, under every schedule, exactly if a worker is left when
  the lock is taken in `src/event.c:151`; otherwise it never is. Between setting `finish`
  (`src/event.c:150`) and that all workers may leave, so with `msec` 0 the wait may last for ever.
- `sleeptime` is an `int` (`src/event.c:332`). An event due 2^31 microseconds or more ahead may be
  dispatched early: a client with a start delay of 3000 seconds is started at once.
- The two engines differ if a Loop call other than the last returns a positive value
  (`src/client.c:213`, `src/client.c:1420`). With `numLoops` -1 `do_command` leaves the session
  open, as the first iteration is then also the last.
- A full buffer makes `sb_get` return before it searches (`src/sb.c:164`), and `cs_retrieve` then
  drops all of it but 64 bytes. Every schedule finds the first terminator exactly if it begins
  behind all that full buffers can drop, or lies wholly in the 64 bytes that one of them hands on. Otherwise
  reading byte by byte to the start of the message and then as much as possible loses it.
- `src/checksum.h:91-94` promises the first marker. The code looks at the last 64 bytes of the
  body only, and at fewer if a full buffer that held part of them has been dropped.
- `rangeSplit` gives every thread its own logins exactly if processes times threads divide the
  number of logins. Its wrap loop (`src/bench.c:614`) ends exactly if the last login is not the
  largest machine word.
- `rangeNext` repeats the last login for ever if that is the largest machine word and the first is
  not zero, and dually downwards at zero.
- `HttpReadResponse` searches the same bytes for ever exactly if a read ends between the first
  Content-length and the end of its line. Otherwise the end of the header that it finds depends
  on the sizes of the reads exactly if Content-length is in the last line of the header, as the
  search for the blank line begins at that line's own newline; but not if this newline stands one
  byte behind the first half of the buffer. If the first reads fill the buffer, the header ends in
  its first half and the response is longer, the body is cut short.
- Some way of cutting a reply makes `retrMsg` take it for an error exactly if an -ERR is at its
  beginning, or anywhere else if the six bytes from there on come before a terminator is complete:
  it may then be at the beginning of the five bytes kept. Under EXIT_FAST it returns success without
  a terminator.
- Some way of cutting a reply keeps `mpop_multiline_cmd` from ever returning exactly if neither the
  first read nor the whole stream ends with a terminator; reads of one or two bytes step over all
  others.
- The assertion of `src/parse.c:634` fails exactly if a section that is ignored, or the default
  section, is closed after one that was being read was not: because it never was closed, or
  because its end could not be parsed.

## Model

| member | source | states |
|---|---|---|
| Timeval.LaterIsMicros | src/event.c:251 | On normalised times `timercmp` is the comparison of the instants. |
| Timeval.AddMsecExact | src/client.c:1251-1260 | `add_msec` always names the right instant; the result is normalised exactly when the microsecond field does not go below zero, so for every non-negative delay (also the addition in `ev_after`). |
| Timeval.SleepTimeIsDifference | src/event.c:357-358 | The truncated `sleeptime` is the true difference whenever that fits into 32 bits. |
| EventQueue.SortedIsMicros | src/event.c:249-258 | On normalised times, sorted under `timercmp` is sorted by instant. |
| EventQueue.PlaceSplits | src/event.c:249-255 | The events before an insertion place are exactly the earlier ones. |
| EventQueue.InsertContents | src/event.c:257-258 | Inserting adds the event and loses none. |
| EventQueue.InsertSorted | src/event.c:249-258 | Inserting keeps the list sorted; among events due at one instant the newest goes first. |
| EventQueue.PoppedEarlyIff | src/event.c:356-379 | An event due at least `min_sleep` ahead is popped exactly when the difference, reduced to 32 bits, reads as small or negative; never when it is due less than 2^31 microseconds ahead. |
| EventQueue.DueHeadIsTaken | src/event.c:348-379 | A head that is due within `min_sleep` is dispatched by whichever worker next holds the lock. |
| EventQueue.DispatchedFirst | src/event.c:353-379 | What is dispatched is due first of the whole list and is not early. |
| EventQueue.Queue.constructor | src/event.c:99-127 | A new queue is empty and unspecified parameters take the defaults 1000, 4 and 8. |
| EventQueue.Queue.FindPlace | src/event.c:249-255 | The walk over the links ends at the insertion place. |
| EventQueue.Queue.SpliceIn | src/event.c:257-258 | Splicing through the links inserts one element and keeps all others, in order. |
| EventQueue.Queue.InsertLocked | src/event.c:247-268 | The locked part of `ev_at` on the linked list is insertion into the sorted sequence; it signals exactly when the list was empty or its first event is not earlier. |
| EventQueue.FirstIsEarliest | src/event.c:247-268 | In terms of instants: exactly when no event of a sorted list is due before the new one. |
| EventQueue.Queue.EvAt | src/event.c:211-270 | A finishing queue refuses the event and is unchanged; otherwise the event is inserted. |
| EventQueue.Queue.RetireWorker | src/event.c:404-409 | Leaving the loop drops `threads`, and `finished` is signalled by the last to leave. |
| EventQueue.Queue.PassLocked | src/event.c:329-403 | One pass of the worker's loop on the linked list is the abstract pass, in all five outcomes. |
| EventQueue.Queue.EnterLocked | src/event.c:326-329 | A fresh worker's first section. |
| EventQueue.Queue.ResumeLocked | src/event.c:348-349 | A worker's section after a wait. It creates a worker exactly if at most `lowat` workers, with itself, were waiting and the queue is not finishing. |
| Clients.HandleKeepsFit | src/client.c:1273-1433 | Each handler keeps Start, Loop and End bracketed and passes the client on to a handler that fits its state; a client ends with its session open only under EXIT_FAST. |
| Clients.ThreadContext.RunInit | src/client.c:1273-1308 | `client_init` in place; after its last action it has given the client up. Which call and which event follow is PoolHistory.HandleTells. |
| Clients.ThreadContext.RunInit2 | src/client.c:1314-1361 | `client_init2` in place, likewise. When the next action and the next block are due is PoolHistory.DueInstants. |
| Clients.ThreadContext.RunLoop | src/client.c:1363-1433 | `client_loop` in place, likewise. |
| PoolLocks.TakeSection | src/event.c:326-412 | The linked list under its lock makes the step of the pool: the section of a fresh worker, of one back from a wait and of one back from a handler. It creates a worker exactly for one back from a wait in a queue that is not finishing, when at most `lowat` workers are in a wait, with itself. |
| PoolLocks.TakePut | src/event.c:247-268 | And the step that inserts an event; it signals exactly if no queued event is due earlier, and then wakes a waiter. |
| PoolWakeups.AccountedStart | src/event.c:99-141 | The counters are right in a new queue. |
| PoolWakeups.AccountedStep | src/event.c:317-414 | Every step keeps `waiting_threads` the number of waiting workers, at most `hiwat`, and `threads` the number inside the loop. |
| PoolWakeups.TimedStep | src/event.c:211-270 | Every step keeps the list sorted and all times normalised. |
| PoolWakeups.WatchedPass | src/event.c:329-403 | A worker may leave the lock asleep, busy or for good, and still some wait covers the head or somebody remains to see to it. |
| PoolWakeups.WatchedPut | src/event.c:261-266 | A new head either wakes a waiter or finds all of them accounted for. |
| PoolWakeups.WatchedStep | src/event.c:317-414 | Every step keeps the inductive form of "no lost wakeup". |
| PoolWakeups.SignalledStep | src/event.c:404-409 | No step signals `finished` in a queue that is not finishing. |
| PoolOwnership.ConservedStep | src/event.c:211-379 | Every step keeps "accepted = in the list + dispatched". |
| PoolOwnership.OwnedStart | src/client.c:1200-1211 | At the start each client has one token. |
| PoolOwnership.OwnedStep | src/client.c:1213-1433 | Every step keeps one token per client: queued, being handled, finished or abandoned. |
| PoolOwnership.SoleOwner | src/event.c:368-378 | Whoever handles a client is the only one, no queued event names it, and it is not finished. |
| PoolOwnership.FittingStep | src/client.c:1213-1433 | Every step keeps each queued or running handler fitting its client's state. |
| PoolRecords.RecordedHandler | src/client.c:1213-1433 | What a handler keeps for its own client and the event it makes holds for all clients afterwards: nobody else touches this client, and no other event leads to it. |
| PoolTheorems.SoundRun | src/event.c:99-414 | All of these hold after every schedule. |
| PoolTheorems.LostWakeup | src/event.c:337-344 | A schedule that loses a wakeup if `lowat` or `hiwat` is below one. |
| PoolTheorems.NoLostWakeupIff | src/event.c:247-403 | No wakeup is lost under any schedule, with spurious wakeups and failing thread creation, if and only if `lowat` and `hiwat` are at least one. |
| PoolTheorems.FinishedSignalIff | src/event.c:404-409 | In a pool that starts a worker (`lowat` at least one), `finished` is signalled only in a finishing queue, under every schedule, if and only if `hiwat` is at least one. |
| PoolTheorems.PoolAccounting | src/event.c:317-414 | The counters over every schedule; a worker back from a wait is never turned away. |
| PoolTheorems.GrowsIff | src/event.c:348-349 | Over every schedule the pool may grow exactly when a worker comes back from a wait and at most `lowat` workers, with itself, are in one; the new worker is then a fresh one. |
| PoolTheorems.SectionOutcome | src/event.c:329-412 | Over every schedule, what a worker does that has the lock, in terms of how many others wait: leave, take the head, wait for ever, or wait until `min_sleep` before the earliest event; and the last to leave signals. |
| PoolTheorems.PutOutcome | src/event.c:247-268 | Over every schedule, inserting an event puts it before all that are due no earlier and wakes nobody, except if it is due no later than all of them and a worker sleeps: then one that does. |
| PoolTheorems.ExactlyOnceInOrder | src/event.c:211-379 | Over every schedule the list is sorted and each accepted event is in it or was dispatched, once. |
| PoolTheorems.DispatchedFirstAndNotEarly | src/event.c:353-379 | Over every schedule, dispatch takes the first due and not early. |
| PoolTheorems.EarlyDispatch | src/event.c:356-379 | At any time there is a schedule in which an event due 3000 seconds ahead is dispatched at once. |
| PoolTheorems.ExclusiveOwnership | src/event.c:368-378 | Over every schedule no two threads handle one client, and it is counted as finished at most once. |
| PoolTheorems.SessionsBracketed | src/client.c:1273-1433 | Over every schedule a client's calls form whole sessions, and it finishes inside one only in a forced exit. |
| PoolBlocks.BlockOfIff | src/client.c:1314-1433 | For counts that are not negative, a block is what the event-driven engine makes of some results of Start and Loop. |
| PoolBlocks.HandleKeepsShape | src/client.c:1273-1433 | Until the end of the test, every handler keeps whole blocks followed by the beginning of one, and hands the client on. |
| PoolBlocks.ShapedStep | src/client.c:1213-1433 | So does every step of the pool, for every client. |
| PoolBlocks.BlocksOverSchedules | src/client.c:1273-1433 | Until the end of the test, under every schedule, a client's calls are whole blocks of the commands chosen for it and the beginning of one more; Loops stop at the first result that is not zero or at the count. |
| PoolHistory.HandleTells | src/client.c:1273-1433 | Each handler makes the call that the recorded runs and calls of its client ask for, and the event that follows from them, or ends the client in one of the four ways there are. |
| PoolHistory.HandleTallies | src/client.c:1303-1304 | The counters of connects and blocks count all Starts but the first. |
| PoolHistory.DueInstants | src/client.c:1331-1360 | Over every schedule, for every queued, running or submitted event of a client: after a successful Start `client_loop` is due `idleDelay` ms after the handler that made it read the clock; a Loop is followed `loopDelay` ms after its handler did; after End or a failed Start `client_init` is due `blockDelay` ms after the handler that made the Start of this block did; the very first `client_init2` `startDelay` ms after the first handler, or at once if that is negative. |
| PoolHistory.StoryOverSchedules | src/client.c:1273-1433 | Over every schedule, for every client: each handler run was the one that follows the runs before it, made for that instant, and made the call that they ask for (End exactly if all Loops of the chosen command have been made, or the last did not return zero or saw EXIT_SOON); and how a client ends under EXIT_SOON and EXIT_FAST. |
| PoolShutdown.SectionLeaves | src/event.c:329-412 | In a finishing queue in which nobody sleeps, every locked section is a leave and puts nobody to sleep. |
| PoolShutdown.EndingStep | src/event.c:211-414 | From there on every step of a worker or handler uses up some of the work that is left, and nobody falls asleep. |
| PoolShutdown.ShutdownReachesAll | src/event.c:150-152 | After the broadcast, under every schedule, nobody is ever asleep, every section is a leave, and the number of steps still made is bounded. |
| PoolShutdown.SignalledOrAliveStep | src/event.c:404-409 | Every step keeps that `finished` has been signalled or a worker is left to do so. |
| PoolShutdown.ShutdownCompletes | src/event.c:143-157 | When no more step is possible after the broadcast, all workers have left, no handler runs, `threads` is zero and `finished` has been signalled, then or before. |
| PoolShutdown.SignalledTooSoon | src/event.c:150-157 | A schedule in which the last worker signals `finished` before the broadcast, so before anybody can wait for it, and nobody is left to do it again. |
| PoolShutdown.DestroyerSignalledIff | src/event.c:150-157 | Whoever waits for `finished` from the broadcast on is signalled under every schedule if and only if a worker is alive at the broadcast, and under none if and only if none is. |
| PoolShutdown.MayWaitForEver | src/event.c:150-157 | In every pool some schedule leads to the second case. |
| Lifecycle.LoopsAre | src/client.c:204-218 | The Loops of `do_command`: the results in order, none negative but the last, and all of them unless the last one is. |
| Lifecycle.DoCommand | src/client.c:139-236 | The calls are Start, those Loops, and one End if Start succeeded. The first turn of the loop that sees the end of the test cuts them short: nothing more is called under EXIT_FAST or without a session, and exactly End under EXIT_SOON. And what negative loop counts do. |
| Lifecycle.SessionCalls | src/client.c:1363-1433 | The event-driven session: Loops until one is not zero, then one End. |
| Lifecycle.EventBlockCalls | src/client.c:1314-1433 | The calls of a whole event-driven block. |
| Lifecycle.LoopsAgreeIff | src/client.c:209-218 | The two stopping rules make the same Loop calls if and only if no call but the last returns a positive value. |
| Lifecycle.RunBoth | src/client.c:139-236 | Run on the same results, `do_command` and the handlers make the same calls under the same condition, so whenever all results are at most zero. |
| Md5Step.F1Low | src/md5.c:180-182 | The optimised F1 and F2 are the functions of the RFC, on words of any width. |
| Md5Step.CoreLow | src/md5.c:180-184 | The core functions on wide words agree with those of the RFC in the low 32 bits. |
| Md5Step.RotateLow | src/md5.c:187-188 | Masking before the rotate makes the low 32 bits rotate as a 32-bit word. |
| Md5Step.WideStep | src/md5.c:187-188 | `MD5STEP` on words of any width from 32 bits up is the operation of section 3.4 of RFC 1321 in the low 32 bits. |
| Md5Rounds.Round1 | src/md5.c:210-225 | The first sixteen unrolled lines are the first round of the RFC's table. |
| Md5Rounds.Round2 | src/md5.c:227-242 | The second round, likewise. |
| Md5Rounds.Round3 | src/md5.c:244-259 | The third round, likewise. |
| Md5Rounds.Round4 | src/md5.c:261-276 | The fourth round, likewise. |
| Md5Rounds.Strides | src/md5.c:210-276 | The data words are taken in the strides 1, 5, 3 and 7 of the four rounds. |
| Md5Rounds.RoundsSimulate | src/md5.c:210-276 | A step that simulates another carries through all 64. |
| Md5.GetU32IsWord | src/md5.c:46-51 | `getu32` is the little-endian word. |
| Md5.ExcessDisappears | src/md5.c:53-60 | `putu32` writes the same bytes for words that agree modulo 2^32. |
| Md5.TransformLow | src/md5.c:195-282 | The transform on wide words stays congruent modulo 2^32 to that of the RFC. |
| Md5.Transform | src/md5.c:195-282 | The imperative transform, which is what a context compresses with, is that function. |
| Md5.CountAdds | src/md5.c:93-96 | The bit count with its carry is 8 times the length modulo 2^64. |
| Md5.PadShortBlock | src/md5.c:159-168 | The short padding is that of sections 3.1 and 3.2. |
| Md5.PadLongBlocks | src/md5.c:152-168 | So is the padding that needs a further block. |
| Md5.Context.constructor | src/md5.c:66-76 | A new context stands for the empty message. |
| Md5.Context.FillUp | src/md5.c:102-114 | A block begun earlier is completed and compressed. |
| Md5.Context.Keep | src/md5.c:106-109 | A piece that fits into the block is only kept. |
| Md5.Context.Feed | src/md5.c:116-127 | The full blocks are compressed and the rest is kept. |
| Md5.Context.Update | src/md5.c:82-128 | A context for a message stands for the message followed by the piece, whatever the piece. |
| Md5.Context.PutLength | src/md5.c:164-166 | The length goes into the last eight bytes. |
| Md5.Context.Final | src/md5.c:134-174 | The digest of everything fed; the context is spent. |
| Md5.UpdateAll | src/md5.c:82-128 | Any number of pieces stand for their concatenation. |
| Md5.DigestOf | src/md5.c:66-174 | Init, Update for each piece and Final yield the RFC 1321 digest, however the message is cut and however wide the words are. |
| Md5Vector.AlphabetDigest | src/md5.c:195-282 | The digest that section A.5 of RFC 1321 lists for the alphabet, derived step by step: it fixes the constants, rotations and functions of all 64 steps, the initial state and the order of bytes. |
| SocketBuffer.Socket.Read | src/bench.c:105-153 | A read brings what the schedule says, between one byte and the count, unless the stream has ended. |
| SocketBuffer.Buffer.constructor | src/sb.c:41-53 | A new buffer holds nothing of the stream. |
| SocketBuffer.Buffer.Refill | src/sb.c:64-84 | A refill brings what the schedule says into what room there is, and loses nothing while there is room. |
| SocketBuffer.Buffer.Consume | src/sb.c:86-95 | Consuming drops exactly the first bytes of the stream. |
| SocketBuffer.Buffer.Scan | src/sb.c:117-124 | A miss may drop all but the last \|pattern\| - 1 bytes. |
| SocketBuffer.Buffer.Discard | src/sb.c:97-128 | `sb_discard` succeeds if and only if the pattern fits and occurs, and consumes exactly through its first occurrence, or everything; what it then holds is what the run of the schedule says. |
| SocketBuffer.Buffer.DiscardN | src/sb.c:130-148 | `sb_discardn` consumes exactly the smaller of n and what remains. |
| SocketBuffer.Buffer.Get | src/sb.c:150-172 | `sb_get` consumes nothing and returns the first occurrence, -1 only if there is none, and the buffer size once the buffer is full, whatever is in it; it reads as the run of the schedule says, so no further than a hit. |
| Checksum.HexOfByte | src/checksum.c:96-100 | Where each byte of the digest stands in the tag. |
| Checksum.TagInjective | src/checksum.c:95-100 | Tags of different digests differ. |
| Checksum.SpellsIff | src/checksum.c:95-100 | Only the 32 digits of the tag are characters 0 to 9 and a to f that read, eight at a time, as the four little-endian words of the digest. |
| Checksum.RightTagIff | src/checksum.c:95-100 | The tag is a line end, =CS=MD5= and 32 digits that read so. |
| Checksum.State.constructor | src/checksum.c:49-64 | `cs_begin` |
| Checksum.State.Data | src/checksum.c:66-80 | `cs_data` appends to what has been summed. |
| Checksum.State.End | src/checksum.c:82-107 | `cs_end` yields the tag of everything summed: the marker, MD5= and 32 digits that read as the words of its digest. |
| Checksum.Check | src/checksum.c:154-175 | The verdict on the body at the first marker in the window, with everything before it hashed. |
| Checksum.Skip | src/checksum.c:145-150 | What is dropped from the buffer is hashed. |
| Checksum.Iterate | src/checksum.c:134-150 | An iteration ends with the outcome for what is gone, or drops 4032 bytes of a full buffer and goes on with the 64 it keeps. |
| Checksum.Sum | src/checksum.c:130-177 | The outcome is that for exactly as many dropped buffers as the schedule leads to. |
| Checksum.DiscardEnds | src/sb.c:97-128 | Under every schedule the start is found exactly if it fits and occurs, and the message begins behind its first place. |
| Checksum.Retrieve | src/checksum.c:109-201 | For every stream, start, terminator and schedule, the result of the run; -1 if and only if the start is not found. |
| ChecksumRuns.SafeIff | src/checksum.c:145-150 | When the first terminator cannot be dropped: no buffer can fill up that ends behind its beginning, or the 64 bytes kept of an earlier one hold it. |
| ChecksumRuns.GoneIs | src/checksum.c:130-151 | Then no schedule drops more than the buffers that can fill up before it. |
| ChecksumRuns.Greedy | src/checksum.c:130-151 | One schedule drops all of these: byte by byte to the start, and then as much as possible. If the terminator can be dropped it drops it. |
| ChecksumRuns.TerminatorFoundIff | src/checksum.h:89-90 | Every schedule finds the first terminator if and only if it cannot be dropped; otherwise that schedule does not find it. |
| ChecksumRuns.MarkerFirstIff | src/checksum.h:91-94 | Every schedule uses the first marker if and only if none begins before the last 64 bytes of the body or within what that schedule drops. |
| ChecksumRuns.VerdictPromised | src/checksum.h:82-98 | In both cases every schedule yields the verdict the header promises. |
| ChecksumRuns.ShortMessage | src/checksum.c:153-160 | A message that does not fill the buffer is judged by the first marker in the last 64 bytes of its body, under every schedule. |
| ChecksumRuns.NeverTerminated | src/checksum.c:135-140 | Without a terminator the result is 2. |
| ChecksumRuns.Untagged | src/checksum.c:160-166 | Without a marker in the body it is 2 as well. |
| ChecksumRuns.CarriesIff | src/checksum.c:171-172 | The comparison with the tag looks at MD5= and 32 digits behind the marker, and at nothing behind these. |
| ChecksumRuns.ValidIff | src/checksum.c:168-175 | A body without an earlier marker is valid if and only if MD5= and 32 digits that read as the digest of its text follow the marker. |
| ChecksumRuns.HeldBack | src/checksum.c:145-150 | What follows the text and the terminator, if they have at most 64 bytes, are always held back together. |
| ChecksumRuns.TaggedMessage | src/checksum.h:82-98 | A marked message in a stream yields 1 if MD5= and digits that read as the digest of its text follow the marker, whatever comes behind them, and 0 if not, for every schedule. |
| Ranges.ShareFits | src/bench.c:590-605 | Rounding the first share up and the others down, but never to nothing, stays inside the whole. |
| Ranges.ShareRounded | src/bench.c:590-605 | The first share is the number divided and rounded up, all others rounded down, and never nothing. |
| Ranges.SharesDiffer | src/bench.c:590-605 | Shares differ by one at most, the first is the largest, and they are equal if and only if the number divides or there is less than one for each. |
| Ranges.Fits | src/bench.c:590-616 | No share crosses the end of the range, wrapped or not. |
| Ranges.SplitInside | src/bench.c:578-620 | A sub-range is never empty and lies inside its parent, also with fewer logins than processes or threads. |
| Ranges.SizeIs | src/bench.c:592-611 | The size of a thread's share is so rounded from that of its process, and what lies before it are whole shares. |
| Ranges.SplitIs | src/bench.c:578-620 | A sub-range has that size and begins where the shares before it end, counted round and round in the whole range. |
| Ranges.RangeSetFirstCount | src/bench.c:561-573 | A range from its first value and count. |
| Ranges.WrapEndsIff | src/bench.c:613-616 | The wrap loop, in words of 64 bits, ends if and only if the last login is not the largest word. |
| Ranges.WrapInto | src/bench.c:613-616 | It then reduces the offset modulo the range. |
| Ranges.RoundShare | src/bench.c:592-604 | The quotients in machine words: rounded up for number 0, else down, and at least one. |
| Ranges.FirstAndCount | src/bench.c:592-612 | Where a share begins before it is wrapped, and its size. |
| Ranges.RangeSplit | src/bench.c:578-620 | `rangeSplit` yields the share described, or fails its assertion exactly if the share would begin beyond the largest word. |
| Ranges.EqualShares | src/bench.c:590-611 | If the number divides, the shares lie one after the other. |
| Ranges.Clash | src/bench.c:590-616 | If it does not, two threads that share a login. |
| Ranges.DisjointIff | src/bench.c:590-616 | No two threads share a login if and only if processes times threads divide the number of logins. |
| Ranges.Covered | src/bench.c:590-616 | Then every login belongs to a thread. |
| Ranges.NextInside | src/bench.c:509-531 | Whatever was used last and whatever is drawn, the next login is in the range. |
| Ranges.RandomStep | src/bench.c:524-527 | A random range yields the login that the draw leads to, counted round and round. |
| Ranges.StepFromOutside | src/bench.c:528-531 | A step from a value beyond an end leads to the other one, except where it reaches the range or the word wraps. |
| Ranges.FirstStep | src/smtp.c:694-700 | With the initial last value, the first login is an end of the range. |
| Ranges.FirstRound | src/bench.c:517-520 | The first round visits every login once, in order. |
| Ranges.RoundsIff | src/bench.c:509-531 | The k-th login is first + k modulo the number of logins, or counted from the end, if and only if the machine word does not wrap at that end. |
| Ranges.OncePerRound | src/bench.c:509-531 | Each round visits each login at one place. |
| Ranges.TakesOwn | src/bench.c:509-531 | A thread never leaves its share. |
| Ranges.NoLoginShared | src/bench.c:578-620 | With equal shares no login is ever used by two threads. |
| Ranges.NoLoginSharedIff | src/bench.c:578-620 | No two threads ever take the same login if and only if processes times threads divide the number of logins. |
| Ranges.EveryLoginTaken | src/bench.c:578-620 | And every login is used in every round, if the word does not wrap at the end the direction leads to. |
| HttpRuns.PlacesAre | src/http-util.c:225-262 | Where the length, the end of its line and the end of the header are, in the bytes of the response: the header name in upper or lower case letters, the next line feed, the next blank line. |
| HttpRuns.StuckIff | src/http-util.c:257-267 | The header phase searches the same bytes for ever if and only if a read ends between the first Content-length and the end of its line. |
| HttpRuns.SomeStuckIff | src/http-util.c:257-267 | Some schedule leads there if and only if there is a Content-length: a first read that ends with it. |
| HttpRuns.LengthReached | src/http-util.c:257-267 | Without the end of that line every schedule leads there. |
| HttpRuns.NoLength | src/http-util.c:243-250 | Without a Content-length every schedule reads all it may and finds nothing. |
| HttpRuns.BreakFrom | src/http-util.c:243-250 | Searching only the last bytes again misses no blank line. |
| HttpRuns.BreakAfter | src/http-util.c:259-264 | Except that the search goes back one byte before the end of the line if just that byte, and then one more, has been read. |
| HttpRuns.EndIs | src/http-util.c:243-270 | Where a schedule that does not get stuck finds the end of the header, in terms of where its reads end. |
| HttpRuns.Differ | src/http-util.c:243-270 | Two schedules that find different ends if Content-length is in the last line of the header. |
| HttpRuns.SameEndIff | src/http-util.c:243-270 | All schedules that do not get stuck find the same end of the header, if any, if and only if Content-length is not in its last line, or that line ends just behind the first half of the buffer. |
| HttpReader.Reader.constructor | src/http-util.c:119-138 | The window invariant at the start: the buffer holds the end of what has been read, and all of it while that is at most half a buffer. |
| HttpReader.Reader.Shift | src/http-util.c:180-191 | The half-buffer shift keeps the window, and source and destination do not overlap. |
| HttpReader.Reader.Fill | src/http-util.c:172-212 | A read keeps the window, brings what the schedule says, never goes past what may be read, and happens unless the end is reached, the stream has ended or there is no room. |
| HttpReader.Reader.Look | src/http-util.c:225-241 | Searching the buffer from `searchStart` is searching the stream. |
| HttpReader.Reader.FoundLength | src/http-util.c:257-267 | The length is that of the first Content-length line, or the search starts over. |
| HttpReader.Reader.FoundBreak | src/http-util.c:268-273 | The bytes to read are the header and the content length. |
| HttpReader.Reader.Step | src/http-util.c:139-291 | An iteration before the end of the header is the step of the run, and says whether it will be repeated for ever. |
| HttpReader.Reader.StuckForever | src/http-util.c:257-267 | With the length held but not the end of its line, no number of iterations reads or changes anything. |
| HttpReader.Reader.Header | src/http-util.c:139-291 | For every stream and schedule, the header phase ends as the run does. |
| HttpReader.Reader.Body | src/http-util.c:169-223 | The body is read up to header plus content length, or to the end of the stream, and no further; nothing of it is read exactly if that much is there already, or the buffer is full with the break in its first half. |
| HttpReader.Reader.Response | src/http-util.c:107-323 | The whole reader for every stream and schedule: stuck, short, or with the length taken from its line and exactly as much read as the body, the stream and a full buffer allow. |
| HttpReader.CutShort | src/http-util.c:107-323 | A response of 121 bytes, with its length spelled in mixed case, of which a reader with a buffer of 50 bytes reads 49. |
| Terminators.KeptFive | src/bench.c:370-379 | Five bytes kept from one read to the next miss no terminator. |
| Terminators.Shuffle | src/bench.c:370-379 | The five last bytes come to the beginning. |
| Terminators.RetrMsg | src/bench.c:332-386 | `retrMsg` ends as the run of the schedule and of gf_timeexpired does; no read is made once a terminator is complete, or once gf_timeexpired has been seen at 20; success means that one is, or that time expired before; and what it then returns is the last read and up to five bytes before it, not the length of the message. |
| Terminators.ExposedRefused | src/bench.c:367-371 | Byte by byte, an -ERR at the beginning, or one of which the next six bytes come before a terminator is complete, is taken for an error reply. |
| Terminators.RefusedIff | src/bench.c:367-371 | Some schedule makes `retrMsg` take a stream for an error if and only if it has such an -ERR. |
| Terminators.StoppedIff | src/bench.c:332-386 | Without one, every schedule succeeds if and only if the stream has a terminator. |
| Terminators.RetrReply | src/bench.c:332-386 | A reply with its only terminator at its end is read to its last byte, with the last read. |
| Multiline.MultilineCmd | src/multipop.c:296-335 | `mpop_multiline_cmd` ends as the run of the schedule does: with the first read that ends with a terminator, reading nothing after it, or by repeating an empty read for ever. |
| Multiline.SpinsIff | src/multipop.c:323-335 | Some schedule makes it spin for ever if and only if neither the first read nor the whole stream ends with a terminator; the schedule that steps over all others is one. |
| Multiline.PassedOver | src/multipop.c:323-335 | A reply with a terminator, and a schedule that does not stop at it. |
| Multiline.MultilineReply | src/multipop.c:296-335 | A positive reply with its only terminator at its end is read to its last byte, with the last read. |
| Base64.CharacterIs | src/smtp.c:892-931 | Each character of an encoding is the letter of the standard alphabet for the six bits at its place in the group of 24, or padding. |
| Base64.GroupDecodes | src/smtp.c:906-931 | A group of up to three bytes decodes to itself. |
| Base64.GroupEncodes | src/smtp.c:906-931 | Four characters that decode are the encoding of what they decode to. |
| Base64.RoundTrip | src/smtp.c:892-939 | The encoding decodes under section 4 of RFC 4648 to the input. |
| Base64.OnlyEncodings | src/smtp.c:892-939 | Nothing but an encoding decodes, so encodings are canonical. |
| Base64.PutGroup | src/smtp.c:906-931 | An iteration writes one group and nothing else. |
| Base64.StrToBase64 | src/smtp.c:892-939 | It succeeds if and only if 4·ceil(len/3) < buflen - 2 or nothing goes into a buffer of one byte, returns that length, and leaves the rest of the buffer alone. |
| Loader.CountNumCommands | src/parse.c:464-509 | The first pass counts the openings of sections that are for this host and have a handler. |
| Loader.CommandList.TakeClose | src/parse.c:630-666 | A closing line adds a weight, stays in a section that could not be parsed, or trips over what such a section has left. |
| Loader.CommandList.TakeOpen | src/parse.c:668-722 | An opening line stays inside the list. |
| Loader.CommandList.Take | src/parse.c:626-753 | Every line keeps "loaded plus being read is at most the openings counted". |
| Loader.GraphAborts | src/parse.c:631-655 | A section whose end cannot be parsed and an ignored section behind it fail the assertion. |
| Loader.MixedFile | src/parse.c:626-753 | A file with a section that parseStart refuses, the default section, one for another host, a graph, one of an unknown protocol, and one whose end is parsed at the second attempt: only the last is loaded. |
| Loader.TakeLine | src/parse.c:626-753 | Every line keeps what is known of the section being read and of lines left over. |
| Loader.LoadLines | src/parse.c:626-753 | The second pass stops at the failed assertion if and only if a section that is not read is closed while the lines of another are left over. |
| Loader.LoadCommands | src/parse.c:578-755 | The second pass never leaves the list the first has sized; it aborts on exactly those files; from all others it loads the sections that are being read when a line closes them that can be parsed, in order, and the total is the sum of their weights; a sound file loads exactly the sections counted. |
| Loader.ChooseCmd | src/client.c:1157-1180 | The loop stops inside the list, at the command the draw belongs to. |
| Loader.OwnerOf | src/client.c:1157-1180 | Every draw below the total belongs to a command. |
| Loader.FairChoice | src/client.c:1157-1180 | Exactly as many draws belong to a command as it weighs, and none to two. |
| Stats.EventSum | src/bench.c:458-472 | `event_sum` is the sum of timers. |
| Stats.AddMonoid | src/bench.c:458-472 | On non-negative timers it is a commutative monoid, with zero as no minimum. |
| Stats.MergesNext | src/bench.c:458-472 | After `event_sum` each counter and sum is that of all timers added so far, and the times are the longest, and the shortest that is not zero. |
| Stats.EventStop | src/bench.c:419-445 | `event_stop` adds the timer of the one event. |
| Stats.RecordMeaning | src/bench.c:419-445 | What a timer says of the events recorded: their number, their bytes, times and squares of times added up, the longest time, and the shortest that is not zero. |
| Stats.TotalMerges | src/smtp.c:714-732 | The total merges all eight timers of a protocol. |
| Stats.TotalAdds | src/smtp.c:714-732 | The total of a sum is the sum of the totals. |
| Stats.SumMerges | src/smtp.c:705-736 | In a sum of records each of the eight timers merges those of the records. |
| Stats.Combine | src/smtp.c:722-730 | The combined timer is the total of the components. |
| Stats.PishStatsUpdate | src/smtp.c:705-736 | One update adds every component, and the total of the increment to the combined timer. |
| Stats.AnyOrderOfParts | src/client.c:598-606 | The sums do not depend on the order of threads and commands. |
| Stats.OfThreadsIs | src/client.c:598-606 | The records of a protocol are those of the commands it handles, each once, thread by thread and in order. |
| Stats.TimeSummary | src/client.c:590-606 | The summing pass over threads and commands gives each protocol the sum of its own records. |
| Stats.PartsAddUp | src/client.c:598-606 | In that sum the timers are the sums of the records' timers, and the blocks and errors add up. |
| Stats.CombinedIsTotal | src/smtp.c:722-732 | And the combined timer is the total of the component timers. |

## Left out

- Sockets, TLS, poll, line-speed emulation, fork and accept, signals and files are not modelled.
- SVN and P4 protocols, regular expressions, random distributions and the report scripts.
- `ev_queue_destroy` beyond setting `finish` and the broadcast: workers stop with events still
  queued, so the draining its comment in `src/event.h` promises is not claimed. Its timed wait is left out.
- The negative nanoseconds `src/event.c:391` can compute: such a wait returns at once, which the
  spurious wakeups of the model include.
- `StartedThreads` and `FinishedThreads` are incremented atomically here.
- The block count limit that begins a shutdown, throttling, and the idle timers of the clients.
- Protocols without a Loop or End function: those registered supply Start, Loop and End.
- Lifecycle.RunBoth: without shutdown and for non-negative loop counts, where the two engines can be compared.
- Md5.Context: `buf` and `bits` are fields of the record instead of arrays; bytes and words are
  integers, with the width as a parameter.
- Md5.Context.Update: pieces are shorter than 2^32 bytes, as `len` is an unsigned int.
- SocketBuffer.Find: the library search is over live bytes without NUL. `sb_discard` terminates
  the live bytes first and `sb_get` does not, so stale bytes behind them are not modelled.
- SocketBuffer.Buffer.DiscardN: for non-negative counts; a negative one would move the buffer forwards.
- A read error is the end of the stream. The codes that tell them apart are not modelled.
- Checksum.State.End: says nothing of the state it leaves, so of the several calls that
  `src/checksum.h:74-76` allows only the first is modelled. The four words of the digest are printed
  with eight digits each, as on machines whose unsigned long has 32 bits; on others
  `src/checksum.c:96` prints other bytes.
- The checksum `src/generate.c:494-496` writes includes a further CRLF, so there is no round trip
  from generator to `cs_retrieve`.
- ChecksumRuns.TerminatorFoundIff: for a terminator that is not empty and a start that fits into the buffer.
- Ranges.RangeSplit: where no sum or product before the first login exceeds the machine word
  (SumsFit), which takes a range of nearly 2^64 logins; range structs are returned instead of filled
  through a pointer.
- Ranges.RoundShare: where the sum that rounds up does not exceed the machine word.
- Ranges.FirstAndCount: the same, and where the product and sum that follow do not.
- `rangeSetFirstLast`, which only orders its arguments.
- HttpReader.Reader: no parse callback, no time-out; the header and body phases are separate
  loops; `atoi` is a parameter that is given what the buffer holds; live bytes have no NUL;
  telemetry is left out.
- HttpReader.Reader.Response: where the header phase would go on for ever, see StuckForever, the
  model stops; for buffers of at least three bytes.
- HttpReader.Reader.Body: for buffers of at least three bytes.
- Multiline.MultilineCmd: the first read is a parameter of at least five bytes; with fewer the
  code compares bytes before its buffer. Its `memcpy` may overlap if a read brings fewer than five
  bytes, and is modelled as a copy. A read error makes it return -1; only the end of the stream is
  modelled.
- Base64.StrToBase64: with fewer than four bytes of buffer only for an empty input; otherwise `buflen-4` wraps.
- Loader: host names, protocol lookup, parameters and quoting are reduced to what a line means to
  both passes; the lines kept for a section are only counted.
- Loader.ChooseCmd: for non-negative weights with a positive sum. With a sum of zero and several
  commands the code divides by zero.
- Stats: reals for doubles, unbounded counters; structs are returned instead of updated through pointers.
- `event_to_text` and the text of the reports.
