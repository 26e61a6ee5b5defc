# buzzkit voice and relay model

buzzkit is a client for the Buzz workspace. This project models, in Dafny, the
parts of it that carry state across calls, threads and messages, and proves what
they keep on every run:

- **Outbound voice.** PCM of any length goes through a stateful encoder
  (`Encoder`) into numbered 20 ms wire frames (`Wire`). The frames wait in a
  queue from which the paced loop takes one per slot, dropping late ones,
  realigning, trimming at 500 frames and filling empty slots with silence. It is a
  machine over single operations, between any two of which producers may encode,
  append or clear (`Pacer`); `PacedTurn` is about one turn of the loop, `Pacing` and
  `Deadlines` about its timing, `Drops` about why it drops a frame, `HuddleSender`
  about the object. The unpaced loop
  takes frames as they come (`RelayLoop`).
- **The recording.** The continuity check of the offline analyser reads the same
  counters back (`Continuity`; `Recording` goes from PCM to its report), and its
  scanner looks for holes in the audio (`HoleScan`).
- **Inbound voice.** One decoder per peer index and a roster kept from control
  messages (`Inbound`, `RosterEvents`, `PeerStreams`, `RosterReplay`, `Receiver`),
  whose events are handed to `events()` iterators (`EventHub`).
- **The relay client.** One reader task settles the handshake, answers publishes
  and feeds subscription queues (`RelayClient`); NIP-01, "Communication between
  clients and relays", and NIP-42, "Protocol flow".
- **Agents.** The condition language of owner attestations (`Conditions`) and
  agent resolution (`Agents`).

Code that updates fields or lists is modelled by classes and loops
(`EncoderInner`, `HuddleClient`, `HuddleReceiver`, `Hub`, `BuzzClient`, the two
analyser loops, agent resolution). Each of their methods is proved equal to a
step of a state machine on values, and the lemmas are about every run of that
machine. The long-lived classes carry the run they have followed as ghost state,
and `Valid` ties their fields to it, so that the run theorems speak of the object:
`HuddleClient.Diagnosis`, `HuddleReceiver.Hears` and `Shows`, `Hub.Received`,
`BuzzClient.Handshake`, `Answered` and `Projects`. The producer calls and the
loop's turns of `HuddleClient` are cut into single operations, which may be
interleaved at will.

Opus, the level meter, signature checking, case folding and the relay's answers
are arbitrary function values, so every theorem holds for all of them. Time is
whole nanoseconds, one frame being 20 000 000; the clock is monotone, and any
wait or send may take any time.

## What was found

Places where the code differs from its own documentation, or where a property
one would expect holds only under a condition. Each is a lemma with the condition
or with a witness.

- `_send_loop` promises "exactly one wire frame per 20 ms, never a burst" and a
  resync to "now + one frame" (`python/buzzkit/huddle.py:385-391`). The code
  realigns by whole slots. The next send keeps a whole frame's distance on every
  continuation iff the present one was decided at the very start of its slot
  (`FrameApartIffOnTime`), and the schedule after it is "now + one frame" iff the
  same holds (`ResyncIffOnTime`). In general the distance is at least a frame less
  the present send's lateness; `PacingBound` and `WindowBound` bound the whole run.
  `send_pcm` also describes an opening burst (`python/buzzkit/huddle.py:326-332`)
  that the code does not make.
- A comment expects one or two frames from a silence fill
  (`python/buzzkit/huddle.py:440-441`). There is never more than one
  (`SilenceFill`).
- Nothing keeps encoder order between a producer and the loop's own silence. A step
  loses the order of what is sent, queued and held iff it encodes silence while
  frames wait that were encoded before it (`OrderStep`, `OrderRun`). There are two
  ways to get there: a producer has encoded frames it has not appended
  (`HeldFrameOvertaken`), or it has appended them since the loop tested the queue
  (`QueuedFrameOvertaken`). In both runs frame 1, silence, is sent before frame 0.
- `clear_queue` between the relay loop's test and its pop ends the loop with an
  `IndexError` (`ClearBetweenTestAndPop`, `ClearKillsTheSender`). The paced loop is
  exposed in the same way: a clear can kill it iff pops are owed since its last
  look at the queue (`ClearKillsIffOwed`, `NoClearNoDeath`).
- A `clear_queue` in the middle of a turn can make fresh audio count as late: the
  drop loop goes on popping as many frames as it had counted, and takes what was
  appended since (`FreshFrameDropped`). What it pops was late at the clock reading
  iff the queue has not been cleared since (`DropsLateIffNotCleared`); every late
  frame has such a reason or was one too many (`LateHasReason`).
- A roster snapshot that gives a held index to someone else, or a frame that
  arrives for an index nobody holds, makes the next owner inherit a used decoder
  (`SnapshotSwapInherits`, `StrayFrameInherits`). A peer is heard from its own
  packets alone under every decoder iff its index had no decoder when it took it
  (`OwnAudioIffCleanTakeover`).
- The events do not show a snapshot that swaps an index's owner, nor our own join
  onto an index someone else holds; in all other cases they rebuild the roster
  (`MessageReplays`).
- The analyser prints ten "missing" figures; they add up to the loss iff no more
  pairs were lost (`PrintedSum`).
- An `events()` iterator opened after the close waits forever unless it is the
  first one (`MarkerArrives`, `LateIteratorWaits`, `LateIterator`); so does a
  subscription started after a malformed message has ended the reader
  (`LateSubscriber`).
- The handshake is accepted iff the first happening that decides it is an accepting
  OK for the newest challenge's event, or for a null id when no challenge has come
  (`AcceptedMeans`, `NullIdIff`, `NullIdAuthenticates`).

## Model

| member | source | states |
|---|---|---|
| `Wire.HeaderRoundTrip` | src/huddle.rs:78-123 | parsing what `encode_header` wrote, behind a peer index and before a non-empty payload, returns every field for all values |
| `Wire.HeaderLayout` | src/huddle.rs:78-85 | the eight bytes one by one: sequence number and timestamp most significant byte first, the level in two's complement, the flags |
| `Wire.ReadsBack32` | src/huddle.rs:80-81 | reading the four big-endian bytes of a u32 gives it back |
| `Wire.BytesBack32` | src/huddle.rs:78-85 | four bytes written back after being read as a big-endian number are the same four bytes |
| `Wire.ParseRebuild` | src/huddle.rs:93-123 | a frame parses iff it is longer than 9 bytes, and re-encoding it gives the received bytes with an out-of-range level floored to -127 |
| `Wire.SecondPassIsIdentity` | src/huddle.rs:106-113 | after one pass of parse and re-encode a second changes neither fields nor bytes |
| `Wire.PcmRoundTrip` | src/huddle.rs:125-138 | reading back the little-endian bytes of any samples gives those samples |
| `Wire.PcmBytesRoundTrip` | src/huddle.rs:331-334 | writing the samples read from any even-length byte string gives that byte string |
| `Wire.PcmMeans` | src/huddle.rs:132-137 | sample i is the signed 16-bit number whose low byte is byte 2i and whose high byte is byte 2i + 1 |
| `Wire.PcmConcat` | src/huddle.rs:125-138 | conversion of even-length pieces distributes over concatenation |
| `Encoder.EncoderInner.EncodeFrame` | src/huddle.rs:177-196 | one codec call; an empty packet yields no frame and moves no counter, any other is framed with the present counters, which then wrap at 2^16 and 2^32 |
| `Encoder.EncoderInner.EncodeWholeFrames` | src/huddle.rs:201-211 | the offset loop with its single cut at the end equals encoding whole frames off the front one at a time |
| `Encoder.EncoderInner.Drain` | src/huddle.rs:198-212 | fails exactly on an odd byte length and then changes nothing; otherwise drains the carry with the new samples behind it |
| `Encoder.EncoderInner.Flush` | src/huddle.rs:245-255 | nothing on an empty carry, else one codec call on the carry resized to a frame, leaving no carry |
| `Encoder.EncoderInner.Discard` | src/huddle.rs:259-261 | empties the carry and leaves codec and counters alone |
| `Encoder.ChunkingInvariance` | src/huddle.rs:198-212 | however a PCM stream is cut into calls, rejected odd pieces included, the frames with their headers, the counters, the codec state and the carry are those of one call with the whole accepted stream |
| `Encoder.DrainMeaning` | src/huddle.rs:198-211 | a drain gives the codec each 960-sample block of carry and input once, in order, numbers the non-empty packets consecutively and keeps exactly the samples past the last block |
| `Encoder.FrameStepReads` | src/huddle.rs:177-196 | one codec call as a receiver sees it: a frame iff the packet is not empty, and every parsed field of it: the next counters, the level of the samples encoded, the DTX flag iff at most two bytes, the packet |
| `Encoder.DrainOnTheWire` | src/huddle.rs:198-211 | every frame of a drain parses, behind any peer index, with the packet and the level of the 960-sample block it encodes, under the next counters |
| `Encoder.VoicedMeans` | src/huddle.rs:203-209 | these blocks are all those with a non-empty packet, in order |
| `Encoder.RunStaysPartial` | src/huddle.rs:203-210 | after any sequence of calls the carry is shorter than a frame, so `resize` in a flush never cuts |
| `Encoder.FlushIsZeroFill` | src/huddle.rs:245-255 | flushing a non-empty carry equals encoding exactly the zero bytes it lacks: same frame, counters, codec and carry; flushing an empty one changes and gives nothing |
| `Encoder.DiscardForgets` | src/huddle.rs:259-261 | whatever calls follow a discard, they go as if the buffered samples had never been fed: codec and counters are untouched |
| `Encoder.SilenceFill` | python/buzzkit/huddle.py:438-444 | in every state with a partial carry one frame of zero bytes is exactly one codec call, on the buffered speech followed by zero samples; at most one frame results, under the next counters; the carry keeps its length and is zeros |
| `Encoder.CountersClosed` | src/huddle.rs:193-194 | the wrapping increments in closed form: frame n has seq n mod 2^16 and timestamp 960n mod 2^32 |
| `Encoder.LifeOfAnEncoder` | src/huddle.rs:177-195 | over any life of encodes, flushes, discards and empty packets, the n-th emitted frame parses with the counters of n, a non-empty payload, the DTX flag exactly on payloads of at most two bytes, and the packet and level of one whole chunk given to the codec |
| `Continuity.CheckPeer` | examples/analyze_audio_tap.py:107-126 | the loop's report: skipped iff fewer than two speech frames, else the exact counts of lost pairs and timestamp jumps and the figures of the first ten of each |
| `Continuity.ReportMeans` | examples/analyze_audio_tap.py:107-126 | the report in terms of the rows alone: skipped iff fewer than two are not DTX; the counts are those of the positions where the sequence number does not go on by one, and where it does but the timestamp does not by 960; the lines are the figures of the first ten of each, in order |
| `Continuity.GapCounts` | examples/analyze_audio_tap.py:114-126 | over a recording with any gaps, "lost" counts the gaps that 2^16 does not divide and "jumps" those that 2^16 but not 2^26 divides |
| `Continuity.PrintedSum` | examples/analyze_audio_tap.py:117-121 | with gaps below 65535 the printed figures add up to the absent frames iff at most ten pairs were lost |
| `Continuity.GapReading` | examples/analyze_audio_tap.py:115-125 | with g frames missing between neighbours: "lost" iff 2^16 does not divide g, "ts jump" iff 2^16 does but 2^26 does not, silent iff 2^26 does; below 65535 the figure is g |
| `Continuity.TimestampIdentifies` | src/huddle.rs:193-194 | two frames carry the same timestamp iff their numbers agree modulo 2^26 |
| `Continuity.MissingSum` | examples/analyze_audio_tap.py:114-126 | with gaps below 65535 the "missing" figures add up to the frames absent from the recording, and no jump is reported |
| `HoleScan.Classify` | examples/analyze_audio_tap.py:144-149 | one flag per whole window, set iff the window holds a sample with magnitude above 400 |
| `HoleScan.WindowIsSlice` | examples/analyze_audio_tap.py:147-149 | the slice the loop looks at holds a peak above 400 iff some sample at a position of its own window exceeds 400 in magnitude |
| `HoleScan.Scan` | examples/analyze_audio_tap.py:150-164 | the nested loops report, in order and once each, exactly the maximal silent runs of 2 to 200 windows with a loud window on both sides |
| `HoleScan.ContextIsNeighbour` | examples/analyze_audio_tap.py:160-162 | for a maximal silent run the two 200 ms context tests are equivalent to the run starting after the first window and ending before the last |
| `HoleScan.AnalyzeRaw` | examples/analyze_audio_tap.py:132-164 | from samples to holes: exactness of the list against the window classification of the samples |
| `Pacer.OrderStep` | python/buzzkit/huddle.py:425-444 | at the grain of single operations, frames sent, queued and held by a producer stay in encoder order across a step iff it does not encode silence while queue or held frames are non-empty |
| `Pacer.OrderRun` | python/buzzkit/huddle.py:414-466 | over whole runs, through stalls, drops, trims and clears: every state is in order iff the run has no such step |
| `Pacer.HeldFrameOvertaken` | python/buzzkit/huddle.py:333-334 | a run in which a producer holds frame 0 while silence is encoded as frame 1: the wire is 1, 0 |
| `Pacer.QueuedFrameOvertaken` | python/buzzkit/huddle.py:437-440 | a run in which frame 0 is encoded and appended between the loop's test of the queue and its silence: the wire is 1, 0 |
| `Pacer.EveryFrameOnce` | python/buzzkit/huddle.py:333-355 | on every run, races included, each emitted frame is exactly once sent, held by the producer, queued, dropped late or cleared, and no other frame is anywhere |
| `Pacer.GapIsDropped` | python/buzzkit/huddle.py:425-435 | between two neighbours on the wire the missing numbers are exactly frames dropped late or cleared |
| `Pacer.MissingAreDropped` | python/buzzkit/huddle.py:350-355 | between any two frames sent, the numbers that were not sent are as many as the frames dropped late or cleared there |
| `PacedTurn.SafeStep` | python/buzzkit/huddle.py:425-438 | the pops the loop will make before it looks at the queue again stay covered across a step iff it is not a clear while some are owed |
| `PacedTurn.NoClearNoDeath` | python/buzzkit/huddle.py:425-438 | on every run of a connection without such a clear the loop never pops an empty queue |
| `PacedTurn.ClearKillsIffOwed` | python/buzzkit/huddle.py:350-355 | one clear, with no other interference, kills the loop iff pops are owed |
| `PacedTurn.AloneIsSlot` | python/buzzkit/huddle.py:422-456 | left alone, the operations of a turn come to the slot in closed form: frames whose slots passed are dropped, the newest 500 kept, the front taken, or a silence or idle wait begun |
| `PacedTurn.DropsThePassed` | python/buzzkit/huddle.py:424-430 | in an undisturbed turn read at t, the frame at position i reaches the test of the length iff t is before the end of its slot, `nextAt + (i + 1)` frames; the survivors keep their order and exactly the others join the late ones |
| `PacedTurn.TurnMeans` | python/buzzkit/huddle.py:422-456 | the whole turn: frames whose slots passed, and then all but the newest 500, are late; the next is taken in the slot that the clock reads in; if there is none the loop encodes silence, or idles when it is not to |
| `PacedTurn.MakeSlot` | python/buzzkit/huddle.py:416-438 | from any state between slots such a turn is a legal run |
| `Pacing.PacedStep` | python/buzzkit/huddle.py:416-466 | each send has a slot at least a frame after the previous one and is decided inside it; kept by every operation |
| `Pacing.PacingBound` | python/buzzkit/huddle.py:414-466 | on every run, sends i < j are decided more than j - i - 1 frames apart; so k and k + 2 more than a frame |
| `Pacing.WindowBound` | python/buzzkit/huddle.py:414-466 | any closed window of length L holds fewer than L / FRAME + 2 sends |
| `Pacing.OneFramePerSlot` | python/buzzkit/huddle.py:444-466 | a slot moves the schedule on by exactly one frame, whether something was sent or the silence gave no packet; start and idle wait set it to the clock |
| `Pacing.FrameApartIffOnTime` | python/buzzkit/huddle.py:384-396 | at any send of any run: every continuation keeps the next send a whole frame away iff this one was decided at the start of its slot; in general the distance is at least a frame less this one's lateness, and that is attained |
| `Pacing.ResyncIffOnTime` | python/buzzkit/huddle.py:387-390 | after any send the schedule is now plus one frame less that lateness, so "now + one frame" iff the send was on time |
| `Pacing.SpacingIsTight` | python/buzzkit/huddle.py:416-466 | for every distance from one tick to a frame, a run from the start with two sends exactly that far apart |
| `Deadlines.DeadlineStep` | python/buzzkit/huddle.py:422-466 | across any one operation a frame that goes on waiting in a running schedule is due no later than before or is about to be dropped, and one that is picked gets a slot no later than it was due |
| `Deadlines.DeadlineRun` | python/buzzkit/huddle.py:422-466 | the same over whole runs, with appends and clears at any point of a turn: a queued frame's deadline never slips while the schedule runs, and if it is ever sent its slot is no later |
| `Deadlines.GoneWithin500` | python/buzzkit/huddle.py:431-435 | a frame queued when the loop finds the queue no longer than the cap is gone from it by the slot 500 frames on, however long the stalls, and if sent goes out before that |
| `Drops.LateHasReason` | python/buzzkit/huddle.py:424-435 | on any run, every frame counted late was popped by the drop loop, its slot having passed at the turn's clock reading or the queue having been cleared since; or right after a test that found more than 500 frames |
| `Drops.DropsLateIffNotCleared` | python/buzzkit/huddle.py:424-428 | on any run, what the drop loop pops next had its slot passed at the clock reading iff the queue has not been cleared since |
| `Drops.FreshFrameDropped` | python/buzzkit/huddle.py:426-428 | such a run: a frame appended after the clock reading is dropped as late |
| `HuddleSender.SlotIsFrame` | python/buzzkit/huddle.py:52 | a slot lasts as long as 960 samples at 48 kHz |
| `HuddleSender.HuddleClient.EncodePcm` | python/buzzkit/huddle.py:333 | the encoder call of `send_pcm`: fails exactly on odd-length PCM, and the producer then holds the new frames |
| `HuddleSender.HuddleClient.AppendNext` | python/buzzkit/huddle.py:334 | one append: the first frame held joins the back of the queue |
| `HuddleSender.HuddleClient.SendPcm` | python/buzzkit/huddle.py:320-336 | the operations together, when nothing comes between: the encoder's new frames and nothing else join the back of the queue; the wire is untouched |
| `HuddleSender.HuddleClient.EncodeTail` | python/buzzkit/huddle.py:340 | the encoder call of `flush_pcm`: the producer then holds at most one frame |
| `HuddleSender.HuddleClient.FlushPcm` | python/buzzkit/huddle.py:338-343 | the operations together: at most one frame, the encoder's flush, joins the back of the queue |
| `HuddleSender.HuddleClient.DiscardCarry` | python/buzzkit/huddle.py:352 | the first part of `clear_queue`: the carry goes, the queue stays |
| `HuddleSender.HuddleClient.EmptyQueue` | python/buzzkit/huddle.py:354 | the last part: whatever the queue holds by now is booked as cleared |
| `HuddleSender.HuddleClient.ClearQueue` | python/buzzkit/huddle.py:350-355 | the parts together: returns how many frames were queued; queue and carry are empty, nothing else has moved |
| `HuddleSender.HuddleClient.ReadClock` | python/buzzkit/huddle.py:424-430 | the clock is read, the schedule realigned by whole slots, and the frames to drop are counted |
| `HuddleSender.HuddleClient.DropNext` | python/buzzkit/huddle.py:427-428 | one pop of the drop loop; it raises exactly on an empty queue |
| `HuddleSender.HuddleClient.CountDropped` | python/buzzkit/huddle.py:429 | the batch dropped is counted once the loop has ended |
| `HuddleSender.HuddleClient.TrimNext` | python/buzzkit/huddle.py:434-435 | one pop past the cap, counted; it raises exactly on an empty queue |
| `HuddleSender.HuddleClient.TakeFront` | python/buzzkit/huddle.py:437-438 | the front of the queue goes on the wire; it raises exactly on an empty queue |
| `HuddleSender.HuddleClient.FillSilence` | python/buzzkit/huddle.py:439-444 | one frame of silence through the connection's encoder goes on the wire, or the slot passes; the run stays race-free iff the silence overtakes nothing queued or held |
| `HuddleSender.HuddleClient.RunTurn` | python/buzzkit/huddle.py:422-456 | a whole turn, when nothing interferes, is the closed form of the slot with at most one silence encoded, and does not raise |
| `HuddleSender.HuddleClient.FinishSend` | python/buzzkit/huddle.py:457-466 | counts the send and moves the schedule one frame on, nothing else |
| `HuddleSender.HuddleClient.WakeUp` | python/buzzkit/huddle.py:446-452 | the idle wait ends with the schedule restarted from the clock |
| `HuddleSender.HuddleClient.ConnectionLost` | python/buzzkit/huddle.py:467-468 | a send that raises is not counted, and the loop ends |
| `HuddleSender.HuddleClient.Diagnosis` | examples/analyze_audio_tap.py:114-126 | of any sender without a race so far, whichever frames the relay forwards: the recording has one row per frame, no jump, and "missing" figures adding up to what was dropped late, cleared, or lost by the relay between first and last; the printed ones do iff at most ten pairs were lost |
| `Recording.LossyRelay` | examples/analyze_audio_tap.py:114-126 | the same for every codec, every sequence of encoder calls, every race-free run of the sender and every choice of forwarded frames |
| `Recording.EndToEnd` | examples/analyze_audio_tap.py:114-126 | with a relay that forwards everything the figures are the sender's own drops |
| `Recording.ReceivedRecords` | src/huddle.rs:93-123 | every frame on the wire passes the receiver's parser and is recorded under the counters of its number |
| `Recording.ReceivedDtx` | src/huddle.rs:189 | and its row is marked as DTX iff its packet has at most two bytes |
| `Recording.LostAmongMeans` | examples/analyze_audio_tap.py:114-121 | what the relay lost is counted by the positions of the wire, between the first and the last forwarded, that were not |
| `RelayLoop.NoLostWakeup` | python/buzzkit/huddle.py:333-348 | on every interleaving of single operations, a producer's test of the queue and its scheduling being two, a relay loop parked over a non-empty queue has its flag set, a callback scheduled, or a producer between its append and its scheduling |
| `RelayLoop.ProducerWakes` | python/buzzkit/huddle.py:333-348 | after `send_pcm` a callback is due iff the queue was seen non-empty, after `flush_pcm` always |
| `RelayLoop.OrderedRun` | python/buzzkit/huddle.py:374-380 | frames leave in the order they were appended, whatever is cleared in between |
| `RelayLoop.Drains` | python/buzzkit/huddle.py:374-380 | once producers stop and the connection stays up, every run of the loop thread is bounded, keeps the line of frames, and ends with everything queued sent in order |
| `RelayLoop.EverythingLeaves` | python/buzzkit/huddle.py:362-382 | from the start: after any run without a clear between test and pop, with no producer inside a call and the connection up, the loop thread sends everything queued, in order of appending, in a bounded number of steps, and then waits |
| `RelayLoop.StuckMeansDone` | python/buzzkit/huddle.py:375-378 | the loop thread has no step left only when it is parked over an empty queue |
| `RelayLoop.NoClearNoDeath` | python/buzzkit/huddle.py:374-379 | on every run without a clear between test and pop the loop never pops an empty queue |
| `RelayLoop.ClearBetweenTestAndPop` | python/buzzkit/huddle.py:350-355 | what the loop saw in its test holds until its pop unless, and only unless, `clear_queue` runs between them; only then can it pop an empty queue |
| `RelayLoop.ClearKillsTheSender` | python/buzzkit/huddle.py:375-379 | such a run: one frame, tested, cleared, popped |
| `Inbound.PeersMean` | python/buzzkit/huddle.py:595-604 | an index is listed iff a well-typed entry has it, and the last such entry gives the key |
| `Inbound.PeersInOrder` | python/buzzkit/huddle.py:595-604 | further entries only add at the end, so indexes are listed by first mention |
| `RosterEvents.RosterAfter` | python/buzzkit/huddle.py:543-581 | who holds each index after each kind of message: the newcomer, ourselves included; nobody after a `left`; the snapshot's last word; else whoever did before |
| `RosterEvents.OrderAfter` | python/buzzkit/huddle.py:550-557 | the roster's order: a new index goes last, a known one keeps its place, one that leaves is cut out |
| `RosterEvents.OneEvent` | python/buzzkit/huddle.py:545-562 | a well-typed `joined` or `left` gives exactly one event with its own key and index, our own join none; any other message none |
| `RosterEvents.SnapshotEvents` | python/buzzkit/huddle.py:564-581 | a snapshot's events: `PeerLeft(pk, i)` iff i was held by pk, is not in the snapshot, and pk is not us; `PeerJoined` likewise the other way; leavers before joiners, each group in its dictionary's order, each once |
| `Receiver.HuddleReceiver.constructor` | python/buzzkit/huddle.py:281 | starts from the relay's initial peer list with no decoder |
| `Receiver.HuddleReceiver.ReadPeers` | python/buzzkit/huddle.py:595-604 | the loop over the entries gives the peer list of `PeersMean` and `PeersInOrder` |
| `Receiver.HuddleReceiver.Handle` | python/buzzkit/huddle.py:500-512 | one turn of the receive loop keeps the object where its messages have brought it, and publishes that message's events |
| `Receiver.HuddleReceiver.OnAudio` | python/buzzkit/huddle.py:527-541 | one frame: dropped if malformed or undecodable, else decoded by its index's decoder, made on first use, and labelled with the index's owner |
| `Receiver.HuddleReceiver.OnControl` | python/buzzkit/huddle.py:543-584 | joined, left and roster messages: new roster, decoders forgotten, events in order |
| `Receiver.HuddleReceiver.Resync` | python/buzzkit/huddle.py:564-581 | a snapshot replaces the roster; leavers in old order, then joiners in new order, without ourselves; leavers' decoders are forgotten |
| `Receiver.HuddleReceiver.Hears` | python/buzzkit/huddle.py:527-541 | of the object: the next frame of an owned index is heard from its owner's packets alone, if the owner took it without a decoder |
| `Receiver.HuddleReceiver.Shows` | python/buzzkit/huddle.py:500-512 | of the object: the events published so far show its roster, if no swap went unannounced |
| `PeerStreams.DecoderStep` | src/huddle.rs:287-301 | one message moves an index's decoder only by forgetting it or by a well-formed frame of that index |
| `PeerStreams.MalformedIsIgnored` | python/buzzkit/huddle.py:528-532 | a frame of at most 9 bytes changes no state and gives no event |
| `PeerStreams.DecoderHeard` | src/huddle.rs:286-301 | after any traffic, an index's decoder is a new decoder run on that index's payloads since it was last forgotten; other indexes' traffic never matters |
| `PeerStreams.AudioFromHistory` | python/buzzkit/huddle.py:527-541 | so a frame's event is made from that history and the frame alone |
| `PeerStreams.HeardIsInheritedThenOwn` | python/buzzkit/huddle.py:557-561 | what an owned index's decoder heard is what it remembered at takeover, then the owner's own payloads |
| `PeerStreams.InheritedIff` | python/buzzkit/huddle.py:577-579 | nothing was inherited iff the index had no decoder as its present owner took it |
| `PeerStreams.CleanTakeoverDecides` | src/huddle.rs:348-351 | for every decoder: if an index had no decoder when its owner took it, the owner's PCM is a new decoder's output on its own payloads alone |
| `PeerStreams.PeerAloneDecides` | python/buzzkit/huddle.py:557-561 | in particular if an owner is replaced only through a `left` or a snapshot that drops it, and no frame comes for an unowned index |
| `PeerStreams.SameTakeover` | src/huddle.rs:286-301 | neither that condition nor what counts as an owner's own payloads depends on the decoder |
| `PeerStreams.OwnAudioIffCleanTakeover` | python/buzzkit/huddle.py:559-561 | the exact condition on any traffic: with a clean takeover every decoder gives the owner's PCM from its own payloads; without one there is a decoder that does not |
| `PeerStreams.SnapshotSwapInherits` | python/buzzkit/huddle.py:566-580 | a snapshot that gives a live index to someone else hands over the used decoder |
| `PeerStreams.StrayFrameInherits` | src/huddle.rs:289-295 | a frame for an unowned index makes a decoder that the next owner inherits |
| `RosterReplay.MessageReplays` | python/buzzkit/huddle.py:543-581 | applying a message's events by index to the roster without ourselves gives the new roster without ourselves, iff the message makes no silent swap of an index |
| `RosterReplay.RosterReplays` | python/buzzkit/huddle.py:564-581 | that equivalence for snapshots: they replay iff no index stays present under another key |
| `RosterReplay.JoinReplays` | python/buzzkit/huddle.py:545-553 | that equivalence for joins: they replay unless the join is our own onto an index another peer holds |
| `RosterReplay.EventsRebuildRoster` | python/buzzkit/huddle.py:500-512 | over a whole connection without silent swaps the published events rebuild the roster |
| `RosterReplay.SnapshotTwice` | python/buzzkit/huddle.py:564-581 | the same snapshot applied again gives no event and changes neither roster nor decoders |
| `EventHub.Hub.PublishLocked` | python/buzzkit/huddle.py:518-523 | under the lock: to the backlog, oldest evicted at 512, while nobody ever subscribed; else the subscribers of that moment become the targets |
| `EventHub.Hub.DispatchAll` | python/buzzkit/huddle.py:524-525 | schedules one put per target, in order |
| `EventHub.Hub.Join` | python/buzzkit/huddle.py:485-489 | takes over the backlog once and for all, then joins |
| `EventHub.Hub.Next` | python/buzzkit/huddle.py:490-498 | the closing marker ends the iterator and removes it, anything else is yielded |
| `EventHub.DeliversRun` | python/buzzkit/huddle.py:483-525 | on every interleaving, for every iterator finished or not, what it took and what is on its way to it is what it was handed plus the publications of its subscribed time, in order and once |
| `EventHub.HandOver` | python/buzzkit/huddle.py:483-525 | the first iterator gets the newest 512 events from before it joined and every later one, in order and exactly once; others, every event from when they joined |
| `EventHub.NewestMeans` | python/buzzkit/huddle.py:171 | the backlog is the last 512 published, or all of them |
| `EventHub.EverythingArrives` | python/buzzkit/huddle.py:490-525 | after any run, when no more is published, the calls, callbacks and takes for an iterator are bounded, and when none is left a reader has taken all it is due; if the close is among it, the iterator has ended |
| `EventHub.MarkerArrives` | python/buzzkit/huddle.py:514-515 | on every run that ends with the close: the marker is on its way to a reading iterator, last and once, iff that iterator joined before the close or was the first; otherwise nothing is on its way and nothing was taken |
| `EventHub.MarkerEnds` | python/buzzkit/huddle.py:490-498 | an iterator that takes the marker has by then taken all it was due, is no longer subscribed, and takes nothing more on any continuation |
| `EventHub.LateIteratorWaits` | python/buzzkit/huddle.py:485-489 | an iterator that joins after the last publication and is not the first gets nothing on any continuation |
| `EventHub.LateIterator` | python/buzzkit/huddle.py:485-489 | such an iterator exists: the second one, opened after the close |
| `EventHub.Hub.Received` | python/buzzkit/huddle.py:483-525 | of the object at any time: the hand-over and the fate of the marker for each of its iterators, reading or ended |
| `EventHub.Hub.Complete` | python/buzzkit/huddle.py:490-525 | of the object: when nothing is left to do for a reader, it has taken all it is due |
| `RelayClient.BuzzClient.SettleAuth` | python/buzzkit/client.py:430-438 | the first verdict stands, later ones change nothing |
| `RelayClient.BuzzClient.OnOk` | python/buzzkit/client.py:486-497 | an OK settles the handshake if its id is the newest challenge's, else it answers and forgets the pending publish of its id, if that still waits |
| `RelayClient.BuzzClient.Handle` | python/buzzkit/client.py:443-467 | one turn of the reader, for every kind of message, including one whose handling raises |
| `RelayClient.BuzzClient.FinishReader` | python/buzzkit/client.py:472-477 | the handshake, if pending, fails with the close code; every live queue gets a terminator |
| `RelayClient.BuzzClient.NextItem` | python/buzzkit/client.py:522-533 | one turn of an iterator: yields an event, skips an EOSE it was not to close on, or ends and removes its queue |
| `RelayClient.BuzzClient.StartPublish` | python/buzzkit/client.py:506-508 | a new waiting future under the event's id |
| `RelayClient.ConnectSettlesOnce` | python/buzzkit/client.py:421-438 | for any interleaving, `connect` is settled by the first of: an OK for the newest challenge's event, the end of the reader, the timeout; nothing later alters it |
| `RelayClient.VerdictIsFirst` | python/buzzkit/client.py:430-438 | the verdict is what the first deciding happening decides, and pending iff there is none |
| `RelayClient.AcceptedMeans` | python/buzzkit/client.py:486-494 | accepted iff the first deciding happening is an accepting OK whose id is that of the newest challenge's event (null if there was none) |
| `RelayClient.NullIdIff` | python/buzzkit/client.py:487-494 | an accepted handshake was accepted by a null id iff no challenge had come before |
| `RelayClient.NullIdAuthenticates` | python/buzzkit/client.py:487-494 | an accepting OK with a null id, first on the socket, completes the handshake |
| `RelayClient.PublishGetsFirstOk` | python/buzzkit/client.py:499-511 | a publish with an id of its own resolves with the first OK for that id before its timeout, with nothing else, whatever else is in flight |
| `RelayClient.OkMeans` | python/buzzkit/client.py:486-497 | all that an OK does: settle a pending handshake, or take its publish out of the pending ones and answer it if it waits; nothing else changes |
| `RelayClient.PublishMeans` | python/buzzkit/client.py:507-510 | a publish files one new waiting future under its id; giving up cancels that one future if it waits; nothing else changes |
| `RelayClient.AnswerIsFinal` | python/buzzkit/client.py:495-497 | a publish that has resolved keeps its answer |
| `RelayClient.SubscriptionProjection` | python/buzzkit/client.py:517-536 | an iterator yields exactly the EVENT payloads for its id, in order, up to the first CLOSED, loss of connection, or EOSE when it closes on that; other subscriptions' traffic does not matter, and what it has not yielded is in its queue |
| `RelayClient.SubscribeIsFresh` | python/buzzkit/client.py:519-520 | a subscription starts with an empty queue and touches no other |
| `RelayClient.AbandonFrees` | python/buzzkit/client.py:532-533 | an abandoned subscription's queue is gone, its id free again, all others as they were |
| `RelayClient.AbandonedIsSilent` | python/buzzkit/client.py:532-533 | and it yields nothing more, whatever arrives |
| `RelayClient.EndMeans` | python/buzzkit/client.py:472-477 | all that the reader's end does: fail a pending handshake with the close code, and append the terminator to every live queue |
| `RelayClient.ReaderLeavesTerminators` | python/buzzkit/client.py:472-477 | when the reader ends, for whatever reason, every live queue holds an item that ends its iterator |
| `RelayClient.TerminatorStays` | python/buzzkit/client.py:522-533 | and keeps one until its iterator has ended |
| `RelayClient.LateSubscriberWaits` | python/buzzkit/client.py:519-524 | a queue made after the reader has ended stays empty for ever and its iterator yields nothing |
| `RelayClient.LateSubscriber` | python/buzzkit/client.py:449-477 | such a subscription exists: a message whose handling raises, then a subscribe, whatever follows |
| `RelayClient.BuzzClient.Handshake` | python/buzzkit/client.py:421-438 | of the object: the handshake stands where the happenings so far put it |
| `RelayClient.BuzzClient.Answered` | python/buzzkit/client.py:499-511 | of the object: each publish under an id of its own holds the first answer that came |
| `RelayClient.BuzzClient.Projects` | python/buzzkit/client.py:513-536 | of the object: each subscription has yielded, or holds in its queue, exactly its projection |
| `Conditions.JoinIsAnd` | python/buzzkit/agents.py:47-60 | evaluating two condition strings joined by `&` is evaluating both |
| `Conditions.OnlyClausesMatter` | python/buzzkit/agents.py:47-60 | reordering or repeating clauses changes nothing |
| `Conditions.Meaning` | python/buzzkit/agents.py:41-60 | accepted iff no clause is malformed, every kind clause is the decimal form of the kind, and `created_at` lies in the open interval from the greatest lower to the least upper bound |
| `Conditions.KindClause` | python/buzzkit/agents.py:48-49 | the clause written for a kind accepts exactly that kind |
| `Conditions.ClauseMeans` | python/buzzkit/agents.py:47-59 | a single clause of every form: `kind=` text iff it is the kind's decimal form; `created_at<` and `created_at>` iff digits on the right side of it; empty always; any other never |
| `Conditions.BoundClauses` | python/buzzkit/agents.py:43-55 | the clause written for a bound accepts exactly its side; without kind or time nothing is accepted |
| `Conditions.Numerals` | python/buzzkit/agents.py:49 | kinds are written in decimal, with a minus sign and without leading zeros |
| `Conditions.BoundNumerals` | python/buzzkit/agents.py:52-55 | bounds may have leading zeros but no sign and at least one digit |
| `Conditions.DecimalIsInjective` | python/buzzkit/agents.py:49 | two kinds with the same decimal form are the same, negative ones included |
| `Agents.OneAuthTag` | python/buzzkit/agents.py:34-38 | the filter yields one tag iff exactly one position of the tags holds an auth tag |
| `Agents.VerifiedIffAttested` | python/buzzkit/agents.py:63-91 | "verified" iff the key is 64 lower-case hex digits, there is exactly one auth tag, the signature oracle returns the requested owner for it, and its conditions hold |
| `Agents.KeyMeans` | python/buzzkit/agents.py:69-75 | a well-formed key is sixty-four digits out of 0-9 and a-f |
| `Agents.CountVerdicts` | python/buzzkit/agents.py:76-80 | "missing_auth" iff no position holds an auth tag, "multiple_auth_tags" iff two do, the key being well formed |
| `Agents.SignatureVerdicts` | python/buzzkit/agents.py:69-86 | "invalid_agent_pubkey" iff the key is malformed or the oracle rejects it for the only auth tag; "invalid_auth" iff it rejects that tag |
| `Agents.AttestationVerdicts` | python/buzzkit/agents.py:87-90 | "owner_mismatch" iff the only auth tag attests another owner; "condition_mismatch" iff it attests this one under conditions not met |
| `Agents.OwnedIffAttested` | python/buzzkit/client.py:321-336 | an entry names an owner iff its author's last profile is attested by the requested owner, and is "missing_profile" iff there is none |
| `Agents.SortedLists` | python/buzzkit/client.py:322 | the sorted list is strictly increasing in code point order and holds exactly the set's members |
| `Agents.LessMeans` | python/buzzkit/client.py:322 | that order: the first difference decides, a proper prefix comes first |
| `Agents.Candidates` | python/buzzkit/client.py:306-316 | exactly the non-empty first d tags of records whose name matches up to case |
| `Agents.CaseDoesNotMatter` | python/buzzkit/client.py:312 | names are compared up to case on both sides |
| `Agents.DTagMeans` | python/buzzkit/client.py:314 | the first "d" tag that has a value, else the empty string |
| `Agents.ByAuthor` | python/buzzkit/client.py:320 | for each author the last profile in the answer |
| `Agents.LastByMeans` | python/buzzkit/client.py:320 | the last profile with that key, none if there is none |
| `Agents.ResolveAgent` | python/buzzkit/client.py:302-337 | for whatever the relay answers: one entry per candidate, strictly sorted by key, each made from its author's last profile in the answer to the query for all candidates |

## Left out

- Opus itself. Decoding errors are modelled, encoding errors are not.
- Encoder.EncoderInner.EncodeFrame: the codec is total; the error that a failing encode raises is not modelled.
- Encoder.EncoderInner.Drain: likewise; after such an error the source keeps the carry with the frames already encoded still in it.
- Encoder.EncoderInner.Flush: likewise; after such an error the source has lost the carry.
- The floating-point level meter: any function from samples to a level in [-127, 0].
- Event building and Schnorr signatures: the signature check is an oracle, of which it is only assumed that a tag it accepts has a string in third place, where the conditions are.
- Rounding of floating-point clock readings and of the 20 ms step: time is exact, and a sleep ends at or after its target.
- The counters `stalls`, `burst_sends` and `max_gap_ms`.
- HuddleSender.HuddleClient.SendPcm: is the call with nothing between its operations; with the loop between them it is `EncodePcm` and `AppendNext`. Producers call one at a time, and the wake-up is in `RelayLoop`.
- HuddleSender.HuddleClient.FlushPcm: likewise, as `EncodeTail` and `AppendNext`.
- HuddleSender.HuddleClient.ClearQueue: likewise, as `DiscardCarry`, `QueuedFrames` and `EmptyQueue`.
- HuddleSender.HuddleClient.RunTurn: likewise, as `ReadClock` to `FillSilence`; the endless loop around it is any run of such operations with sends, wakes and closes.
- Deadlines.GoneWithin500: speaks of a running schedule; an idle wait, which begins only over a queue seen empty, restarts it from the clock.
- PeerStreams.OwnAudioIffCleanTakeover: for one given decoder the condition is only sufficient; one that ignores its state hides any inheritance.
- Recording.LossyRelay: the relay loses frames but neither reorders nor repeats them.
- RelayClient.SubscriptionProjection: sub ids are not reused while live, and a REQ that fails to be sent is not modelled.
- RelayClient.PublishGetsFirstOk: the id is not in flight twice and is not that of an AUTH event.
- Agents.ResolveAgent: content that is not JSON is a missing name; profile content is returned as it came, and case folding is any function on strings.
- Conditions.Meaning: ASCII strings; other Unicode digits and the interpreter's limit on the length of integers are not modelled.
- Peer indexes outside one byte, and JSON booleans in the place of integers.
- The huddle's challenge, leave message, teardown, I/O thread start and stop, and reconnecting the same client: one connection's life, from the initial roster on.
- The HTTP bridge, invites, URL rewriting, Python binding glue, lock poisoning, `parse_owner_command`: plumbing or easy members.
- The analyser's send-timing and wire-log reports, its printed text, and the other examples.
