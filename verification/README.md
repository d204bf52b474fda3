# NAILA, verified

NAILA is a voice assistant. A Rust hub gates the microphone audio of its devices and
multiplexes them onto one gRPC stream; a Python server turns utterances into spoken replies;
a Python client plays them. This project models the parts of it that carry state across calls,
threads and processes, and proves what they promise. Objects whose methods change their fields
are classes, loops are loops, protocols with interleaving are transition systems over single
steps, and each is proved against a declarative account of what it should do.

## The four places that are hard

**The utterance path.** `Vad` declares the utterances in a stream of speech and silence verdicts
(runs of speech that open a segment, runs of silence that close it) and proves the four-state
gate frame by frame against that. A threshold of 0 or 1 behaves as 2, because the first frame of
a run never tests it. `Device` proves that the relay's own state machine never loses step with
the gate, so that a session puts exactly the gate's segments and one closing END on the bus, up
to where the bus closes. `Grpc` numbers them, `Service` rebuilds audio from the messages, and
`Pipeline` composes all of it: the audio frozen for processing is the PCM of the gate's segments,
one for one, exactly if no segment that is long enough to be processed overruns the server's
buffer. Sessions may overlap as long as no frame of another session comes inside an utterance;
what the closing END of a displaced session does there is stated too. `StreamProtocol` covers what runs concurrently with the reader: one utterance job at a
time, an ordered queue, and an end that every stream reaches. `Orchestration` looks inside a job
and says exactly when what it started outlives it.

**The session registry.** `Registry` lets any number of negotiations and sessions interleave at
every access to a shared map or token. Quiescence holds under every interleaving. That a live
session keeps its voice does not: in a run of the code as it stands a reconnected device loses its
subscription. Whether that can happen is settled when the session registers, and the project
proves exactly when: if no other session of the device has then yet to subscribe, or has decided
to unsubscribe, the session keeps its channel in every continuation, with no discipline on any
step; otherwise there is a continuation that takes it. Two disciplines (check and removal in one
step; subscribe before the next registration) rule the bad case out. That the negotiations of one
device are serialised, which one might expect to be needed, is not. It is needed for something
else: the promise that a reconnection cancels the session it replaces. An uncancelled session
stays on record until a negotiation or a registration of its device, whatever is cleaned up
meanwhile; a negotiation that finds it cancels it, but a registration only overwrites it, which
two overlapping negotiations make happen. `Registry` proves that exactly. A channel that is taken out of
the map loses its only sender, so its session's relay loop ends (`hub/src/device.rs:129-132`): the
reconnected session is torn down rather than left silent.

**The reply path.** `Sentences` and `Chunking` prove that segmentation conserves text, that every
piece is exactly one complete sentence unless the buffer reached its maximum, and that how the model's output is cut into chunks does not matter exactly when every seam is harmless.
`Response` carries the sentences through the one-sentence lookahead and the choice between
action, streaming and fallback, and `Delivery` through the one-packet lookahead of a buffering
encoder, sequence numbers and pacing against a clock that the contracts tie to every stamp.

**Caches and indexes.** `LruCache` states once what a history of operations must leave cached and
proves both caches of the server against it, so they agree with each other. `Routing` proves
cache and shortcuts of the MQTT router transparent. `Playback` conserves samples across an
arbitrary interleaving of callbacks. `Migrations` proves that crashes do not matter.
`Demux` proves that a device that does not drain its audio harms nobody else.

The three transition systems (`StreamProtocol`, `Orchestration`, `Registry`) each define their own
`Run`: its steps are partial, and a shared version over function values would put the
preconditions of `After` into every lemma.

## What the code does that its documentation does not say

* `ai-server/mqtt/core/routing.py:197` lets `#` match zero levels; the loop's final test rejects
  the parent level: `a` does not match `a/#` (`Routing.ParentExample`). The code is followed, and
  `Routing.HashParent` says where the two differ.
* A migration numbered 0 is never applied to a fresh database, whose version is 0, and of two
  migrations with one number only the first is (`Migrations.ZeroIsSkipped`,
  `Migrations.SecondIsSkipped`, and exactly `Migrations.AllPending`).
* `hub/src/device.rs:164-173` calls the removal safe for a new session; it is not between the
  check and the removal (`Registry.StaleCheckSilences`).
* `hub/src/http.rs:155` says that an active session of the device is cancelled on reconnection. Of two
  negotiations that overlap neither finds the other, and both sessions run on
  (`Registry.OverlapLeavesTwo`; `Registry.StandsExactly` says exactly when).
* `ai-server/rpc/service.py:412` calls an utterance's processing cancellable on interrupt. The
  orchestration behind it is not over when the processing is. One whose processing was waiting for
  an item is told to cancel but not waited for (`ai-server/rpc/service.py:702-704`), so an ordinary
  interrupt already has it unwinding beside the next one (`Orchestration.InterruptOverlap`); one
  whose output was waiting for the stream's queue is not told at all and works on
  (`Orchestration.CaughtOverlap`). Either may be left with an item that can never be put, because
  nobody drains its queue any more (`Orchestration.FateAtCancellation` says exactly when).
* That at most one delivery of a turn is final rests on streamed sentences being non-blank: with
  blank ones alone the fallback would speak after a final delivery (`Response.OneFinalDelivery`).
  The sentence buffer never yields one (`Response.StreamedHasInk`).

## Model

| member | source | states |
|---|---|---|
| Vad.FirstRunIsFirst | hub/src/vad.rs:107-172 | the declared start of a run is the earliest one, and there is none only if no run exists |
| Vad.SegmentsShape | hub/src/vad.rs:107-172 | declared utterances are ordered and disjoint, as long as an onset run and, if closed, a hangover run after it (thresholds below 2 counting as 2), and only the last can be open |
| Vad.SegmentsAreRuns | hub/src/vad.rs:107-172 | every declared utterance begins with the first run of speech since the one before it; a closed one ends with the first run of silence after that, and an open one has none |
| Vad.OpensAtThreshold | hub/src/vad.rs:120-131 | speech alone opens a segment exactly with the frame that reaches the onset threshold, or with the second one if the threshold is below 2 |
| Vad.ClosesAtThreshold | hub/src/vad.rs:153-167 | silence after it closes the segment exactly with the frame that reaches the hangover threshold, or with the second one if that is below 2 |
| Vad.SegmentsSnoc | hub/src/vad.rs:107-172 | one more verdict changes the segmentation only at its end: it opens a segment, lengthens or closes the open one, or changes nothing |
| Vad.ForwardedSnoc | hub/src/vad.rs:107-172 | the frames decided for a verdict are exactly what it adds to the forwarded audio: nothing is lost, repeated or revised over any input |
| Vad.DecisionTells | hub/src/vad.rs:107-172 | START goes out exactly when a segment opens, END exactly when one closes, and nothing is withheld in between |
| Vad.VadFilter.constructor | hub/src/vad.rs:78-91 | a new gate has heard nothing and is in silence |
| Vad.VadFilter.Process | hub/src/vad.rs:95-173 | after any history the gate emits what the declared segmentation of everything heard calls for, the whole buffered onset included |
| Vad.VadFilter.InSilence | hub/src/vad.rs:108-118 | the first speech frame is held back and begins a run of one |
| Vad.VadFilter.InMaybeSpeech | hub/src/vad.rs:120-140 | a run that completes flushes its own frames under START; a run that breaks is discarded whole |
| Vad.VadFilter.InSpeaking | hub/src/vad.rs:142-151 | every frame continues the segment, silent ones too |
| Vad.VadFilter.InMaybeSilence | hub/src/vad.rs:153-171 | the frame that completes the run of silence is the END; speech resets the run |
| Device.AudioBus.Send | hub/src/device.rs:200-203 | a frame is queued in order, or refused once the bus has closed |
| Device.DeviceTask.SendFrames | hub/src/device.rs:181-206 | the frames go out in order, the first under the given event and the others as CONTINUE, up to where the bus closes |
| Device.DeviceTask.OnMic | hub/src/device.rs:61-102 | whatever the gate decides to forward is forwarded: the relay streams iff the gate has an utterance open, so the idle branch swallows no emission |
| Device.DeviceTask.OnWake | hub/src/device.rs:59-135 | after each wake-up that does not end the session nothing has been refused, or the bus has closed and holds what it would hold of the whole session |
| Device.DeviceTask.RunDevice | hub/src/device.rs:53-157 | for every order of wake-ups a session sends the gate's segments and one closing END as far as the bus stays open, and plays the replies before its end, all of them if the bus does |
| Device.LivesAsLong | hub/src/device.rs:59-135 | a session goes on through microphone frames and replies that were sent, and ends at the first wake-up of any other kind: stream or channel closed, a failed or timed-out send, a cancellation |
| Device.SessionIsWellFormed | hub/src/device.rs:70-157 | a session's events are (START CONTINUE+ END)*, then possibly START CONTINUE+, then one closing END |
| Device.ForwardedPrefix | hub/src/device.rs:70-102 | hearing more never revises what was already put on the bus |
| Device.CutShort | hub/src/device.rs:78-80 | leaving the loop on a closed bus leaves on it what the whole session would have left |
| Grpc.SendLoop | hub/src/grpc.rs:214-294 | each frame becomes one message, in order, numbered by position modulo 2^32, with the device's configuration on its first START only; on a broken stream exactly the accepted messages are out |
| Grpc.WireAt | hub/src/grpc.rs:226-272 | message by message: the frame's own bytes, rate, timestamp, identities and event, its position modulo 2^32, and a configuration iff it is the first START of a device that has one, with that device's rate and codecs |
| Grpc.CodecsAreKnown | hub/src/grpc.rs:277-296 | a codec is announced iff the device lists it by its name |
| Service.StreamReader.OnInput | ai-server/rpc/service.py:235-358 | after any history of messages the buffer is the pending audio of that history, and each message is judged on it: too short below 450 ms, overflow above 6 MiB on CONTINUE only |
| Service.JudgedExactly | ai-server/rpc/service.py:243-358 | for every history: an interrupt is always one; an END makes the utterance of all bytes since its beginning and its own, processed iff they last 450 ms; a CONTINUE overflows iff its bytes take these above 6 MiB; nothing else is made of any message |
| Service.DurationIsExact | ai-server/rpc/service.py:67-72 | the duration is the whole milliseconds that the samples last at their rate, and not one more |
| Service.LongEnoughExactly | ai-server/rpc/service.py:67-72 | rounding down decides as the exact duration would: an utterance is long enough iff it has 450 ms of samples, and at rate 0 never |
| Service.PendingIsGathered | ai-server/rpc/service.py:243-358 | the pending audio is the bytes of all messages since the last START, END, interrupt or overflow, and nothing else |
| Service.NothingSince | ai-server/rpc/service.py:243-358 | since that beginning no message started another utterance, ended or interrupted one, or overflowed |
| Pipeline.UtteranceIntegrity | ai-server/rpc/service.py:235-343 | over any sessions on one stream, overlapping or not, whose utterances are unbroken on the bus: what is handed to processing is the PCM of the gate's segments of at least 450 ms, one for one in order, iff none of these overruns the buffer; nothing stays pending |
| Pipeline.EachSessionsOwn | hub/src/device.rs:70-157 | what is owed of such a stream is, for each session, the PCM of its own segments of at least 450 ms, in their order; blocks of sessions always lie within them |
| Pipeline.SessionIsItsParts | hub/src/device.rs:70-157 | a session's utterances and its closing END, put together, are what its device task puts on an open bus |
| Pipeline.InTurnCarries | hub/src/device.rs:70-157 | sessions one after the other are among the ways in which their blocks can come |
| Pipeline.ForeignEndCuts | hub/src/device.rs:144-157 | the closing END of a displaced session inside another's utterance cuts it in two: the first piece goes out under the displaced session's name at the default rate, the rest as the utterance, each if long enough |
| Pipeline.SegmentHeard | ai-server/rpc/service.py:243-343 | a complete segment yields its one utterance with its exact bytes, or fewer bytes or none if it overran the buffer |
| Pipeline.OpenClosing | hub/src/device.rs:144-157 | an utterance cut short by the end of its session is completed by the closing END with the default sample rate |
| Pipeline.PartHeard | ai-server/rpc/service.py:243-291 | inside a segment the buffer is the PCM so far, or strictly less of it after an overflow |
| Pipeline.EndHeard | ai-server/rpc/service.py:293-343 | lost bytes can only make an utterance shorter, so a clip too short to process is dropped whatever was lost |
| Pipeline.HearTagged | hub/src/grpc.rs:226-272 | the send loop between relay and reader adds and loses nothing that the reader can see |
| Pipeline.LongerIsLonger | ai-server/rpc/service.py:67-72 | at one sample rate more bytes never make a shorter duration, rounding included |
| Pipeline.EveryUtteranceProcessed | ai-server/rpc/service.py:229-366 | microphone to processing: a stream that carried such sessions and was answered to its end has run, in order, one processing job per spoken utterance, each on that utterance's own audio, iff none of these overran the buffer |
| StreamProtocol.RunInv | ai-server/rpc/service.py:229-374 | the invariants of reader, jobs, bounded queue and answer hold in every reachable state |
| StreamProtocol.OneTaskAtATime | ai-server/rpc/service.py:322-343 | at most one utterance job (`_enqueue_utterance`) is live in every reachable state; for what a job may leave behind see Orchestration |
| StreamProtocol.OutputsNeverInterleave | ai-server/rpc/service.py:322-343 | between two outputs of an utterance nothing of another is queued, and its outputs keep their order |
| StreamProtocol.OnlyUtterancesCancel | ai-server/rpc/service.py:308-352 | over every run a reply is asked to cancel iff a message read while it was in flight is an interrupt or completes an utterance that is long enough; a clip that is too short never is the cause |
| StreamProtocol.ReadCancels | ai-server/rpc/service.py:322-352 | with a reply in flight exactly such a message has it asked to cancel; the reader then waits for its end, and goes on with the new utterance if there is one |
| StreamProtocol.AnsweredInFull | ai-server/rpc/service.py:359-375 | the sentinel is queued once and last; when it is read, every output any job made was delivered in order, nothing is running, every accepted utterance had its own job, and every overflow its error message |
| StreamProtocol.NeverStuck | ai-server/rpc/service.py:229-375 | before the stream is answered some step other than reading input is always possible, in spite of the bounded queue |
| StreamProtocol.EveryStreamIsAnswered | ai-server/rpc/service.py:229-375 | a continuation that reads nothing more is no longer than a measure of the state plus twice the outputs in it, and one that cannot go on has answered the stream in full |
| Orchestration.RunInv | ai-server/rpc/service.py:425-714 | in every reachable state only the newest utterance is still being processed, with an orchestration exactly from its transcription on, no queue is over its bound, and what was told to cancel has at most one item left |
| Orchestration.OutlivesExactly | ai-server/rpc/service.py:691-704 | after an utterance's processing is over its orchestration works on untold iff a cancellation caught an output being put and items are left, and unwinds iff a cancellation landed while an item was awaited and its closing item is left |
| Orchestration.OverlapOnlyIfCancelled | ai-server/rpc/service.py:322-343 | two orchestrations are unfinished at once only if the older one's processing was cancelled after its transcription, at the stage that tells whether it was told |
| Orchestration.InterruptOverlap | ai-server/rpc/service.py:702-704 | an ordinary interrupt: for every number of items a run in which the older orchestration still unwinds while the newer one works |
| Orchestration.CaughtOverlap | ai-server/rpc/service.py:416-423 | for every number of items a run in which two orchestrations work at once, the older one never told |
| Orchestration.ToldPutsOneMore | ai-server/rpc/service.py:679-687 | in every continuation an orchestration that was told to cancel puts at most one more item |
| Orchestration.FinishesExactly | ai-server/rpc/service.py:498 | an orchestration left behind can end in some continuation iff its queue has room for all it has left to put |
| Orchestration.FateAtCancellation | ai-server/rpc/service.py:686-704 | at the moment of a cancellation: a told orchestration can end unless its queue of 32 is full and it was not yet waiting to put its closing item; an untold one can end iff what is left fits |
| Orchestration.FullWhenTold | ai-server/rpc/service.py:619-626 | a burst that fills the queue and then an interrupt: a run whose orchestration can never put its closing item |
| Orchestration.WaitingWhenTold | ai-server/rpc/service.py:686-687 | one that already waits to put its closing item on a full queue gives up the wait when told, and ends |
| Orchestration.UncancelledIsDrained | ai-server/rpc/service.py:693-701 | in every reachable state an utterance whose processing got past transcription and is over without a cancellation has had every item taken, and leaves nothing behind |
| Orchestration.ProcessingGoesOn | ai-server/rpc/service.py:691-701 | an utterance in processing can always move on without a cancellation, in spite of the bounded queue |
| Orchestration.RunsThrough | ai-server/rpc/service.py:691-701 | for every number of items the run without a mishap ends with all of them put on the stream's queue |
| Registry.RunInv | hub/src/http.rs:155-333 | in every reachable state tokens on record belong to sessions that will still clean up, and someone will clean up after every subscription |
| Registry.RecordStep | hub/src/device.rs:173 | a token that is not cancelled leaves the record by a negotiation or a registration of its device and by no other step, no cleanup in particular, and never comes back |
| Registry.ForgetsTheCancelled | hub/src/device.rs:173 | a cleanup removes its device's entry iff the token in it is cancelled, whoever it belongs to |
| Registry.StandsExactly | hub/src/http.rs:155-302 | over every run, for an uncancelled session that registered: it is on record iff there has been neither a negotiation nor a registration for its device since; if it is not, the session that displaced it is about to cancel it, iff no registration overwrote it |
| Registry.CancelledBy | hub/src/http.rs:155-159 | a token is cancelled by its own session's end, its peer's failure or the session that displaced it, and by nothing else |
| Registry.FailureLeavesNothing | hub/src/http.rs:299-302 | a negotiation that fails never has a token on record, in any continuation |
| Registry.OneSessionPerDevice | hub/src/http.rs:155-159 | if the negotiations of a device are serialised, then of its registered sessions at most one is neither cancelled nor about to be, in every reachable state, and that is the one on record |
| Registry.OverlapLeavesTwo | hub/src/http.rs:155-302 | otherwise not: for every device a run of the code that leaves two sessions running, the older one off the record with nobody to cancel it |
| Registry.Quiescence | hub/src/device.rs:159-173 | under every interleaving: once a device's sessions have cleaned up and none is between registration and spawn, neither map knows the device |
| Registry.LiveSessionKeepsVoice | hub/src/device.rs:164-173 | with check and removal in one step and subscription before the next registration, the session on record is the one subscribed, in every reachable state |
| Registry.VoiceLostExactly | hub/src/device.rs:164-173 | over every run of the code as it stands the last write to the device's subscription since a live session subscribed decides whether it has its channel |
| Registry.VoiceAfterRegistration | hub/src/http.rs:300-302 | over every continuation: a live session is without its channel iff a session that, when it registered, had yet to subscribe or had decided to unsubscribe does so after its own subscription |
| Registry.VoiceIsSettledAtRegistration | hub/src/http.rs:300-302 | no continuation takes the channel of a live session, with no discipline on any step, iff when it registered it was cancelled already or no other session of the device had yet to subscribe or had decided to unsubscribe |
| Registry.StaleCheckSilences | hub/src/device.rs:167-172 | for every device a run of the code that removes the subscription of the reconnected session while it runs; its channel then has no sender and its loop will end |
| Registry.LateSubscriberSilences | hub/src/device.rs:49-51 | for every device a run in which a displaced session subscribes last and replaces the channel of its successor |
| Demux.RecvLoop.OnMessage | hub/src/grpc.rs:302-395 | the message changes no channel but its device's; frames that are neither errors nor empty are routed or counted as dropped, without waiting |
| Demux.RecvLoop.OnDevice | hub/src/device.rs:49-51 | what devices do to their subscriptions meanwhile changes no channel but their own |
| Demux.SharedIsAlone | hub/src/grpc.rs:362 | each device's channel in the shared map is what its own events alone make of it |
| Demux.NonInterference | hub/src/grpc.rs:353-390 | in the map shared by all devices, histories that agree on one device's own events leave it the same channel, whatever the others do or fail to do |
| Demux.SubscribersAreServed | hub/src/grpc.rs:356-383 | since its subscription a device got the frames offered to it in order, none twice, within its capacity, and all of them if it refused none |
| Demux.RefusedExactly | hub/src/grpc.rs:363-383 | a device is refused no frame iff its own channel was open and had room each time, and then it gets every frame offered |
| Delivery.DeliveryState.constructor | ai-server/rpc/service.py:518-523 | a new utterance has no encoder, no packets and no pacing clock |
| Delivery.DeliveryState.Prepare | ai-server/rpc/service.py:545-591 | the PCM is that of `NewFrames`, which `CallIsHeard` gives; lead-in silence and the pacing start come with the first audio of the utterance, at a time the clock then shows, and are never set again; the encoder is created once |
| Delivery.DeliveryState.EncodeFrames | ai-server/rpc/service.py:630-643 | all whole frames are encoded in order, and all packets they yield but the last are out |
| Delivery.DeliveryState.Advance | ai-server/rpc/service.py:640-655 | a packet is sent, not final, once its successor exists, and the newest is held back |
| Delivery.DeliveryState.SendPacket | ai-server/rpc/service.py:605-626 | the packet takes the next number and is stamped with a time the clock shows during the call; the clock never goes back, and past the burst it has reached the next slot on return |
| Delivery.DeliveryState.EncodeCall | ai-server/rpc/service.py:545-643 | before the flush a call has put out its packets but the last one, with stamps off the clock and a start that stays |
| Delivery.DeliveryState.Flush | ai-server/rpc/service.py:651-656 | the encoder is flushed and dropped, and all packets but the newest are out |
| Delivery.DeliveryState.Deliver | ai-server/rpc/service.py:531-663 | after any calls the queue is the declared sequence of messages, whatever the encoder yields; no stamp is revised, each new one is a time the clock showed during the call, and the start of pacing is set once, by the first audio |
| Delivery.Numbered | ai-server/rpc/service.py:605-618 | across all calls messages are numbered 0 to n-1 and only number 0 carries the transcription |
| Delivery.OnlyTheLastIsFinal | ai-server/rpc/service.py:593-663 | only the very last message of an utterance can be final, and it is iff the final call yields a packet |
| Delivery.OneContinuousStream | ai-server/rpc/service.py:581-663 | what is sent, each packet once and in order, is what one encoder of samples yields for all whole frames of the utterance, as if there were no sentence boundaries; only the remainder of each call is missing |
| Delivery.CallIsHeard | ai-server/rpc/service.py:545-573 | what of a call with audio reaches the encoder: its samples, resampled iff their rate is not 48 kHz, after 4800 zeros iff no call before had audio, up to the last whole frame |
| Delivery.UtteranceIsHeard | ai-server/rpc/service.py:545-643 | all the encoder is fed in an utterance is the lead-in, once and in front, and then the audio of each call at 48 kHz up to its last whole frame |
| Delivery.EachFrameIsSent | ai-server/rpc/service.py:581-663 | with an encoder that is one frame behind, a finished utterance has sent exactly one packet for each frame, in order, across all sentence boundaries |
| Delivery.FramesLoseRemainder | ai-server/rpc/service.py:631-632 | of a call's samples exactly a remainder shorter than a frame, at its end, does not reach the encoder |
| Delivery.PacingBound | ai-server/rpc/service.py:525-529 | in every state of a delivery at most max(11, T/20 + 1) messages have stamps within T ms of the start of pacing, across all sentences, and if no more than T ms have passed there are no more messages |
| Sentences.SearchIsLeftmost | ai-server/utils/sentence_buffer.py:15 | the search finds the leftmost match of the sentence-end pattern, and fails only if there is none |
| Sentences.ExtractConserves | ai-server/utils/sentence_buffer.py:46-64 | extraction keeps all ink in order, cuts trimmed pieces, and leaves a buffer without a complete sentence and below the maximum |
| Sentences.CutsSentences | ai-server/utils/sentence_buffer.py:46-58 | every piece cut off is exactly one sentence: the first sentence end in it is its own end |
| Sentences.ForcedExactly | ai-server/utils/sentence_buffer.py:50-58 | a flush is forced iff what is left after cutting reaches the maximum, and never if the whole buffer is below it; every piece but a forced last one is one complete sentence, and without one the rest stays as it is |
| Sentences.SentenceBuffer.Feed | ai-server/utils/sentence_buffer.py:39-44 | over any feeds the ink of the pieces and the buffer is that of the input, and what is emitted are the pieces of at least the minimum length; while buffer and chunk are below the maximum together, every piece emitted is one complete sentence |
| Sentences.SentenceBuffer.ExtractSentences | ai-server/utils/sentence_buffer.py:46-64 | the loop ends, because the buffer shrinks, with exactly the declared pieces emitted; if what is left after cutting is below the maximum it stays in the buffer and only complete sentences are emitted |
| Sentences.SentenceBuffer.Flush | ai-server/utils/sentence_buffer.py:66-70 | the trimmed rest is the tail unless it is too short, and the buffer is empty |
| Chunking.CutResumes | ai-server/utils/sentence_buffer.py:46-64 | cutting what is complete before going on changes neither sentences nor tail if the seam is harmless |
| Chunking.CompleteLeavesNothing | ai-server/utils/sentence_buffer.py:46-64 | a text that ends in a terminator, with or without its closing quote, is cut at its end |
| Chunking.CutsEndAtBreaks | ai-server/utils/sentence_buffer.py:15 | a piece never ends inside a stretch of ink |
| Chunking.FeedAllConserves | ai-server/utils/sentence_buffer.py:39-64 | however a text is chunked its ink ends up in the pieces and the buffer, in order |
| Chunking.ChunkingIndependence | ai-server/utils/sentence_buffer.py:39-70 | if chunked feeding is never forced, it gives the sentences and the tail of the whole text iff no seam follows a terminator (and its quote) without whitespace |
| Chunking.SentencesOnly | ai-server/utils/sentence_buffer.py:39-64 | a text shorter than the maximum forces no flush however it is chunked, and while none is forced every piece is one complete sentence |
| Response.Produce | ai-server/services/llm.py:326-358 | a stream of deltas yields the buffer's sentences and its tail, the tail only if the stream does not fail |
| Response.StreamedHasInk | ai-server/services/llm.py:346-353 | no sentence a stream yields is blank or untrimmed |
| Response.OnlyFragmentsAreDropped | ai-server/services/llm.py:346-353 | of a stream that does not fail only pieces of at most one character go unsaid |
| Response.ResponseGenerator.Deliver | ai-server/agents/response_generator.py:238-248 | an attempt whose synthesis raises is recorded but reaches no callback, and nothing is raised |
| Response.ResponseGenerator.StreamResponseToAudio | ai-server/agents/response_generator.py:222-274 | the sentences are attempted in order, once each, the last one final, and the text is their joined form |
| Response.ResponseGenerator.Process | ai-server/agents/response_generator.py:85-173 | action, streaming or fallback is taken under the source's conditions, with exactly the declared attempts and reply |
| Response.StreamTextInk | ai-server/agents/response_generator.py:270-274 | the recorded text has the ink of the streamed sentences and is empty only if they are all blank |
| Response.OneFinalDelivery | ai-server/agents/response_generator.py:85-173 | for any sentences: of a turn's attempts exactly the last is final, iff it is not the case that sentences were streamed and all of them were blank |
| Response.StreamingIsNeverFollowed | ai-server/agents/response_generator.py:85-173 | with the sentences of a real stream one attempt is final and last, and once something was streamed nothing else is attempted |
| Response.TurnSpeaks | ai-server/agents/response_generator.py:85-173 | the whole table: nothing is said without a need for audio, a callback and a voice; the reply or an action's text is said once under each veto (action, visual answer, no model, confidence below 0.3, empty stream); otherwise the sentences, once each in order, the last one final |
| Response.CallsKeepFinality | ai-server/agents/response_generator.py:238-248 | the callback sees at most one final call, the last, whatever syntheses fail |
| Response.CallAt | ai-server/agents/response_generator.py:238-248 | each attempt that can be synthesised makes its one call, with its own audio and finality, after those of the attempts before it |
| Response.TurnPackets | ai-server/rpc/service.py:593-663 | model deltas to packets: of a turn's packets only the last can be final, and is iff the last synthesis succeeded and its call yields a packet |
| LruCache.LRUCache.Get | ai-server/utils/cache.py:37-51 | after any history a lookup hits iff its key is live, was never crowded out and is younger than the time to live, and then returns the latest value put |
| LruCache.LRUCache.Put | ai-server/utils/cache.py:53-64 | the cache is what the history with this put calls for, the oldest key leaving a full one; without room for a single entry nothing is put |
| LruCache.LRUCache.Invalidate | ai-server/utils/cache.py:95-101 | exactly the key is removed, and whether it was cached is told by the history |
| LruCache.LRUCache.Clear | ai-server/utils/cache.py:103-107 | nothing is cached any more, and the counters stay |
| LruCache.OneOrder | ai-server/utils/cache.py:37-64 | a history leaves one possible content in one possible order of recency |
| LruCache.LivesOut | ai-server/utils/cache.py:37-51 | a value just put is found until its time to live has passed, and from then on no longer |
| LruCache.RemovalIsExact | ai-server/utils/cache.py:95-107 | an invalidated or cleared key is not found, and invalidating another key changes nothing for it |
| LruCache.Survival | ai-server/utils/cache.py:37-64 | a key neither removed nor expired is found while fewer than the capacity of other keys were put or hit since it was |
| LruCache.TouchedIsOrdered | ai-server/utils/cache.py:43-64 | moving to the end and dropping the oldest keeps exactly the keys that the history calls for |
| LruCache.RemovedIsOrdered | ai-server/utils/cache.py:47-50 | removing an expired or invalidated key keeps exactly the keys that the history calls for |
| LruCache.TTSPhraseLRUCache.SetItem | ai-server/services/tts.py:37-43 | inserting first and dropping the oldest after leaves what the history calls for |
| LruCache.TTSPhraseLRUCache.Lookup | ai-server/services/tts.py:202-205 | a phrase is found iff the history calls for it, with its latest audio, and becomes the newest |
| LruCache.TwoCachesAgree | ai-server/services/tts.py:37-47 | after the same lookups and stores, none of them too late, both caches hold the same keys in the same order with the same values |
| Routing.JoinSplit | ai-server/mqtt/core/routing.py:211-212 | joining the levels of a topic gives it back, so no two topics have the same levels |
| Routing.MatchTopicParts | ai-server/mqtt/core/routing.py:216-248 | the two-index loop decides the declared level-wise match: levels agree up to the first `#`, which needs a level of its own |
| Routing.TopicMatches | ai-server/mqtt/core/routing.py:191-214 | the equality and no-wildcard shortcuts change nothing |
| Routing.NoWildcards | ai-server/mqtt/core/routing.py:207-209 | a pattern without wildcards matches its own text only |
| Routing.PlusIsAnyLevel | ai-server/mqtt/core/routing.py:240-243 | `+` stands for exactly one level, whatever it is: a pattern with it matches iff the pattern with the level in its place would match |
| Routing.HashParent | ai-server/mqtt/core/routing.py:197-248 | for any topic and pattern the code and its documentation of `#` differ exactly where the part before a last `#` matches the topic by itself, or a pattern with a `#` elsewhere matches |
| Routing.RestIsIgnored | ai-server/mqtt/core/routing.py:237-239 | what follows a `#` in a pattern is never looked at |
| Routing.ParentNeverMatches | ai-server/mqtt/core/routing.py:248 | no topic without a `#` matches the pattern made of it and `/#`, as it should by the documentation |
| Routing.ParentExample | ai-server/mqtt/core/routing.py:248 | `a` does not match `a/#` |
| Routing.MessageRouter.RegisterHandler | ai-server/mqtt/core/routing.py:31-42 | the handler is registered once per topic given, in order, and no stale answer stays cached |
| Routing.MessageRouter.AppendHandler | ai-server/mqtt/core/routing.py:35-38 | the handler comes last under its topic, and a new topic last among the topics |
| Routing.MessageRouter.RouteMessage | ai-server/mqtt/core/routing.py:163-189 | over any interleaving the handlers run are those a cache-free scan of the registrations finds, in pattern-registration order |
| Routing.EachMatchOnce | ai-server/mqtt/core/routing.py:177-186 | a message runs a handler as often as it is registered under a matching pattern |
| Routing.RunInOrder | ai-server/mqtt/core/routing.py:177-186 | the handlers of a matching pattern run next to each other, after those of the matching patterns registered before it |
| Routing.MessageRouter.GetCachedTopicInfo | ai-server/mqtt/core/routing.py:73-90 | the cached answer is the parsed one, and the cache never exceeds its size, or one entry |
| Routing.EvictionKeeps | ai-server/mqtt/core/routing.py:82-89 | a full cache loses its oldest tenth, but at least one key; what stays are the newest keys in their order, and there is room for one more |
| Playback.AudioPipeline.Callback | devices/audio-client/audio_client/audio.py:79-87 | the oldest queued frame is played, or silence if there is none |
| Playback.AudioPipeline.PutNowait | devices/audio-client/audio_client/audio.py:221-231 | a frame is queued last unless the queue is full, and puts that find it full are on record |
| Playback.AudioPipeline.DropOldest | devices/audio-client/audio_client/audio.py:224-227 | after it there is room, whether or not callbacks emptied the queue meanwhile |
| Playback.AudioPipeline.Enqueue | devices/audio-client/audio_client/audio.py:221-233 | with callbacks before every queue operation, each frame formed enters the queue once; at most one frame is dropped for it, only if a put found the queue full, and then it is counted |
| Playback.AudioPipeline.FormFrame | devices/audio-client/audio_client/audio.py:218-220 | taking a frame off the residue moves no sample |
| Playback.AudioPipeline.QueuePlayback | devices/audio-client/audio_client/audio.py:209-233 | frames formed and residue are all samples received, each frame is exact, the residue is under a frame, and there are no more drops than puts that found the queue full, which the counter counts |
| Playback.PlayedInOrder | devices/audio-client/audio_client/audio.py:79-87 | each played frame stands among the played ones in its place of formation |
| Playback.LosslessWithoutDrops | devices/audio-client/audio_client/audio.py:209-233 | while the drop counter is zero, everything received is played, queued or residual, sample by sample and in order |
| Migrations.SplitStatements | ai-server/memory/db.py:89-100 | the script is cut after each line that completes a statement, blank pieces left out, the unfinished rest kept |
| Migrations.StatementsConserve | ai-server/memory/db.py:89-100 | splitting loses no ink of the script, for any notion of completeness |
| Migrations.ChunksAreShortest | ai-server/memory/db.py:89-97 | the script is cut after each line that completes what has gathered since the last cut and nowhere else, for any notion of completeness; no part of the rest is complete |
| Migrations.TrimmedAt | ai-server/memory/db.py:94-100 | each piece that is not blank is one statement, trimmed and in its place, and blank ones are none |
| Migrations.RunsInOrder | ai-server/memory/db.py:76-77 | the first statement runs first and the others on what it leaves, or not at all |
| Migrations.DiscoveredSorts | ai-server/memory/db.py:35-46 | discovery gives exactly the eligible files of a listing, in ascending order of version |
| Migrations.OneSorting | ai-server/memory/db.py:38-46 | with distinct versions the order in which a directory is listed does not matter |
| Migrations.EqualsStayInOrder | ai-server/memory/db.py:38-46 | files with one number keep the order of the listing, so the first listed is the one that counts |
| Migrations.Connection.Begin | ai-server/memory/db.py:74 | a transaction records what a rollback restores, or is not begun |
| Migrations.Connection.Execute | ai-server/memory/db.py:76-77 | a statement takes full effect or none |
| Migrations.Connection.ExecuteAll | ai-server/memory/db.py:76-77 | the statements take their effect one after the other, all of them iff none raises |
| Migrations.Connection.Finish | ai-server/memory/db.py:75-84 | the transaction commits statements and version iff nothing raises, and otherwise restores what was before |
| Migrations.Connection.ApplyOne | ai-server/memory/db.py:66-86 | all of a migration with its version, or nothing; it is applied iff no operation on the way fails and its statements run on the schema found; the isolation level is restored |
| Migrations.Connection.ApplyMigrations | ai-server/memory/db.py:49-63 | a run applies the pending migrations from the first on; it succeeds, with all of them, iff no operation on the way fails and they run on the database found |
| Migrations.PendingResumes | ai-server/memory/db.py:58-63 | after an interrupted run exactly the rest is pending, for any list and any point |
| Migrations.RunsCompose | ai-server/memory/db.py:49-86 | two runs in succession do what one run does |
| Migrations.CrashesDoNotMatter | ai-server/memory/db.py:49-86 | after any number of runs, each failing anywhere and listing the directory in any order, the database is the fold of a prefix of the sorted migrations with that prefix's last version, and after a success what one uninterrupted run leaves |
| Migrations.AllPending | ai-server/memory/db.py:58-60 | a run from a given version applies the whole sorted list iff its versions are distinct and above that version |
| Migrations.NeverPending | ai-server/memory/db.py:58-60 | what is pending is always above the version found |
| Migrations.ZeroIsSkipped | ai-server/memory/db.py:58-60 | on a fresh database a directory with one migration numbered 0 makes a run that succeeds and applies nothing |
| Migrations.SecondIsSkipped | ai-server/memory/db.py:58-60 | of two migrations with one number the second is not applied |

## Left out

- libfvad, libopus, the resampler, speech recognition, the language model and speech synthesis are foreign: the classifier is any sequence of booleans (an error counts as silence, as in the code), the encoder any function from frames to packets, the resampler any function on samples.
- WebRTC, SDP, RTP, PortAudio, echo cancellation, MQTT transport, HTTP handlers and health endpoints are I/O.
- Several devices on one server stream: the server has one audio buffer per stream, so `Pipeline` asks that no frame of another session comes inside an utterance. Frames that `drain_stale` discards on reconnection are outside it.
- Grpc.SendLoop: does not model a configuration that changes while the stream is open, nor the message fields that are constants; a cancelled loop is one whose frames end.
- Service.StreamReader.OnInput: does not model the use of the session configuration and the target rate, and computes durations exactly where the source rounds in floating point.
- Outer cancellation of a stream. `StreamProtocol` has every output step of a job directly on the stream's queue, any number of them at any time, and a job asked to cancel may go on for a while, which is more than the real one does; the inner queue is the subject of `Orchestration`. There an orchestration that was told to cancel puts nothing but its closing item, as long as the graph it runs lets the cancellation through; a client that disconnects in the middle leaves orchestrations behind in further ways. "Never" is said of the protocol: a job that only its own queue refers to may be collected by the interpreter.
- Delivery.OneContinuousStream: the encoder is a function of samples; the presentation time of a frame, which the source restarts at 0 in every call (`ai-server/rpc/service.py:637`), is not passed to it.
- Pipeline.UtteranceIntegrity: does not say what becomes of an utterance with frames of another session inside it, except for a closing END (`Pipeline.ForeignEndCuts`).
- Error messages and the text-only message after a turn without audio, both marked final, are not audio packets; the finality results are about those.
- Response.ResponseGenerator.Process: takes a stream that fails to start for an empty one, which the source treats alike; does not model the wording of the non-streaming reply, the conversation history, the recorded audio or the retries; a delivery callback that raises is not distinguished from one that completes, except that `TurnPackets` speaks of calls that complete.
- Playback.AudioPipeline.QueuePlayback: the drop counter is exact about puts that found the queue full, not about drops: a callback between two queue operations can make the source count a drop that did not happen. The microphone half of the callback is left out.
- LruCache.LRUCache.Put: does not model the exception's type where there is no room for an entry. `get_or_compute`, the locks and the statistics other than hits and misses are left out.
- Routing.MessageRouter.RouteMessage: does not model what handlers do, or that they run concurrently; `parse_message` and the parsing of topic structure are a parameter. Conformance to section 4.7.1.2 of MQTT Version 3.1.1 is not claimed.
- Migrations.Connection.ApplyOne: does not model statements that end the transaction themselves, a rollback that fails, or the 32-bit limit of `user_version`; a connection starts without an open transaction, as a fresh one does. The names of migration files are given as parsed.
- `Text` has the whitespace of Python's `str.strip` and `\s`; surrogates, normalisation and case are not modelled.
- Text normaliser, intent detection, canned responses, weather and time handlers, hardware configuration, lifecycle order, `ResourcePool` and back-off loops are shallow or library behaviour.
