/** The audio delivery callback of one utterance (ai-server/rpc/service.py): Opus packets
    with a one-packet lookahead, sequence numbers that run on from call to call, and pacing.

    The resampler and the encoder are foreign code. The encoder may buffer: each frame, and
    the flush, yields any number of packets, depending on every frame it has seen. */
module Delivery {
  import opened Audio

  newtype Sample = x: int | -0x8000 <= x < 0x8000

  type Frame = seq<Sample>

  type Packet = seq<byte>

  const FRAME_SIZE: nat := 960
  const LEAD_IN_SAMPLES: nat := 4800
  const INITIAL_BURST_FRAMES: nat := 10
  const FRAME_DURATION_MS: real := 20.0

  datatype AudioData = AudioData(samples: seq<Sample>, sampleRate: nat)

  /** One invocation of the callback. */
  datatype Call = Call(audio: Option<AudioData>, isFinal: bool)

  datatype AudioOutput = AudioOutput(audioOpus: Packet, sequenceNum: nat, isFinal: bool, finalStt: string)

  /** The foreign parts. `encode` yields the packets for the last of the frames fed so far,
      `flush` those still held back after them. */
  datatype Codec = Codec(
    resample: (seq<Sample>, nat) -> seq<Sample>,
    encode: seq<Frame> -> seq<Packet>,
    flush: seq<Frame> -> seq<Packet>)

  // ---- What the calls should put on the queue ----

  predicate HasAudio(c: Call) {
    c.audio.Some? && c.audio.value.samples != []
  }

  predicate AnyAudio(calls: seq<Call>) {
    exists i :: 0 <= i < |calls| && HasAudio(calls[i])
  }

  /** The whole frames of a piece of PCM; a remainder shorter than a frame is not encoded. */
  function FramesOf(pcm: seq<Sample>): seq<Frame> {
    if |pcm| < FRAME_SIZE then [] else [pcm[..FRAME_SIZE]] + FramesOf(pcm[FRAME_SIZE..])
  }

  function Concat(frames: seq<Frame>): seq<Sample> {
    if frames == [] then [] else Concat(frames[..|frames| - 1]) + frames[|frames| - 1]
  }

  function At48k(codec: Codec, a: AudioData): seq<Sample> {
    if a.sampleRate == 48000 then a.samples else codec.resample(a.samples, a.sampleRate)
  }

  function LeadIn(): seq<Sample> {
    seq(LEAD_IN_SAMPLES, _ => 0 as Sample)
  }

  /** The frames call `c` encodes after the calls `before`: the first audio of the utterance
      has the lead-in silence in front of it. */
  function NewFrames(codec: Codec, before: seq<Call>, c: Call): seq<Frame> {
    if !HasAudio(c) then []
    else FramesOf((if AnyAudio(before) then [] else LeadIn()) + At48k(codec, c.audio.value))
  }

  function AllFrames(codec: Codec, calls: seq<Call>): seq<Frame> {
    if calls == [] then []
    else AllFrames(codec, calls[..|calls| - 1]) + NewFrames(codec, calls[..|calls| - 1], calls[|calls| - 1])
  }

  /** The packets of feeding `frames` to an encoder that has seen `seen`. */
  function Encoded(codec: Codec, seen: seq<Frame>, frames: seq<Frame>): seq<Packet> {
    if frames == [] then []
    else Encoded(codec, seen, frames[..|frames| - 1]) + codec.encode(seen + frames)
  }

  /** The frames seen by the encoder held after `calls`, if one is held: a final call drops it. */
  function Held(codec: Codec, calls: seq<Call>): Option<seq<Frame>>
    decreases |calls|, 0
  {
    if calls == [] then None
    else if calls[|calls| - 1].isFinal then None
    else Fed(codec, calls[..|calls| - 1], calls[|calls| - 1])
  }

  /** The same during call `c`, once its own frames are in. */
  function Fed(codec: Codec, before: seq<Call>, c: Call): Option<seq<Frame>>
    decreases |before|, 1
  {
    var held := Held(codec, before);
    if HasAudio(c) then Some((if held.Some? then held.value else []) + NewFrames(codec, before, c)) else held
  }

  /** All the packets that call `c` has to send after the calls `before`. */
  function Packets(codec: Codec, before: seq<Call>, c: Call): seq<Packet> {
    var held := Held(codec, before);
    var fed := Fed(codec, before, c);
    Encoded(codec, if held.Some? then held.value else [], NewFrames(codec, before, c)) +
    (if c.isFinal && fed.Some? then codec.flush(fed.value) else [])
  }

  /** A call's packets as messages: numbered from `first` on, the transcription on number 0
      only, and `isFinal` on none but the last. */
  function Outputs(packets: seq<Packet>, first: nat, isFinal: bool, transcription: string): (r: seq<AudioOutput>) {
    if packets == [] then []
    else
      var n := |packets| - 1;
      Outputs(packets[..n], first, false, transcription) + [Message(packets[n], first + n, isFinal, transcription)]
  }

  function Message(payload: Packet, sequence: nat, isFinal: bool, transcription: string): AudioOutput {
    AudioOutput(payload, sequence, isFinal, if sequence == 0 then transcription else "")
  }

  function Timeline(codec: Codec, transcription: string, calls: seq<Call>): seq<AudioOutput> {
    if calls == [] then []
    else
      var before, c := calls[..|calls| - 1], calls[|calls| - 1];
      var sent := Timeline(codec, transcription, before);
      sent + Outputs(Packets(codec, before, c), |sent|, c.isFinal, transcription)
  }

  // ---- The callback ----

  predicate SentSoFar(queue: seq<AudioOutput>, base: seq<AudioOutput>, yielded: seq<Packet>,
                      pending: Option<Packet>, transcription: string) {
    if yielded == [] then pending.None? && queue == base
    else
      && pending == Some(yielded[|yielded| - 1])
      && queue == base + Outputs(yielded[..|yielded| - 1], |base|, false, transcription)
  }

  /** Packet `s` is queued no earlier than its place in real time, past the initial burst. */
  ghost predicate OnTime(stamps: seq<real>, start: real) {
    forall s :: 0 <= s < |stamps| ==>
      stamps[s] >= start && (s > INITIAL_BURST_FRAMES ==> stamps[s] >= start + FRAME_DURATION_MS * s as real)
  }

  /** The stamps were read off a clock that never goes back and now shows `now`. */
  ghost predicate ReadOff(stamps: seq<real>, now: real) {
    && (forall i :: 0 <= i < |stamps| ==> stamps[i] <= now)
    && (forall i, j :: 0 <= i < j < |stamps| ==> stamps[i] <= stamps[j])
  }

  /** The clock goes on, no stamp is revised, and each new one is a time it showed meanwhile. */
  ghost predicate Onward(before: real, stamps: seq<real>, after: real, stamps': seq<real>) {
    && before <= after && stamps <= stamps'
    && (forall i :: |stamps| <= i < |stamps'| ==> before <= stamps'[i] <= after)
  }

  lemma OnwardAgain(t0: real, s0: seq<real>, t1: real, s1: seq<real>, t2: real, s2: seq<real>)
    requires Onward(t0, s0, t1, s1) && Onward(t1, s1, t2, s2)
    ensures Onward(t0, s0, t2, s2)
  {
    assert forall i :: 0 <= i < |s1| ==> s2[i] == s1[i];
  }

  /** Once set, the start of pacing stays; it is set to a time the clock shows meanwhile. */
  ghost predicate StartKept(start: Option<real>, before: real, start': Option<real>, after: real) {
    if start.Some? then start' == start else start'.Some? ==> before <= start'.value <= after
  }

  lemma StandingStill(t: real, stamps: seq<real>)
    ensures Onward(t, stamps, t, stamps)
  {
  }

  lemma StartStays(start: Option<real>, t0: real, start': Option<real>, t1: real, s1: seq<real>, t2: real, s2: seq<real>)
    requires StartKept(start, t0, start', t1) && Onward(t1, s1, t2, s2)
    ensures StartKept(start, t0, start', t2)
  {
  }

  class DeliveryState {
    const codec: Codec
    const transcription: string
    var silencePrepended: bool
    /** When the first audio of the utterance arrived, in milliseconds. */
    var pacingStart: Option<real>
    var cumulativeSeq: nat
    /** The encoder, as the frames it has been fed. */
    var encoder: Option<seq<Frame>>
    var ttsQueue: seq<AudioOutput>
    /** When each message was queued. */
    ghost var stamps: seq<real>
    /** The monotonic clock. */
    var now: real
    /** The calls completed so far. */
    ghost var calls: seq<Call>

    ghost predicate Paced(start: Option<real>)
      reads `stamps, `ttsQueue, `cumulativeSeq, `now
    {
      && |stamps| == |ttsQueue| == cumulativeSeq
      && (cumulativeSeq > 0 ==> start.Some?)
      && ReadOff(stamps, now)
      && (start.Some? ==>
            && OnTime(stamps, start.value) && now >= start.value
            && (cumulativeSeq > INITIAL_BURST_FRAMES ==> now >= start.value + FRAME_DURATION_MS * cumulativeSeq as real))
    }

    ghost predicate Valid()
      reads this
    {
      && silencePrepended == AnyAudio(calls) == pacingStart.Some?
      && encoder == Held(codec, calls)
      && (encoder.Some? ==> pacingStart.Some?)
      && ttsQueue == Timeline(codec, transcription, calls)
      && Paced(pacingStart)
    }

    constructor (codec: Codec, transcription: string, now: real)
      ensures Valid() && this.codec == codec && this.transcription == transcription && calls == []
      ensures this.now == now && pacingStart.None?
    {
      this.codec, this.transcription, this.now := codec, transcription, now;
      silencePrepended, pacingStart, cumulativeSeq, encoder := false, None, 0, None;
      ttsQueue, stamps, calls := [], [], [];
    }

    /** Time passes, by an amount nothing here controls. */
    method Elapse(atLeast: real)
      requires atLeast >= 0.0
      modifies this`now
      ensures now >= old(now) + atLeast
    {
      var more: real := *;
      now := now + atLeast + (if more > 0.0 then more else 0.0);
    }

    method SendPacket(payload: Packet, final: bool, start: Option<real>)
      requires Paced(start) && start.Some?
      modifies this`cumulativeSeq, this`ttsQueue, this`stamps, this`now
      ensures Paced(start)
      ensures
        ttsQueue == old(ttsQueue) + [Message(payload, |old(ttsQueue)|, final, transcription)]
      ensures |stamps| == |old(stamps)| + 1 && Onward(old(now), old(stamps), now, stamps)
    {
      var sequence := cumulativeSeq;
      Elapse(0.0);  // the queue may be full
      ttsQueue := ttsQueue + [AudioOutput(payload, sequence, final, if sequence == 0 then transcription else "")];
      stamps := stamps + [now];
      cumulativeSeq := sequence + 1;
      if cumulativeSeq > INITIAL_BURST_FRAMES && start.Some? {
        var target := start.value + FRAME_DURATION_MS * cumulativeSeq as real;
        Elapse(0.0);
        var delay := target - now;
        if delay > 0.0 {
          Elapse(delay);
        }
      }
    }

    /** Sends each packet once its successor is known, and keeps the last one back. */
    method Advance(packets: seq<Packet>, held: Option<Packet>, start: Option<real>,
                   ghost base: seq<AudioOutput>, ghost yielded: seq<Packet>)
      returns (pending: Option<Packet>)
      requires SentSoFar(ttsQueue, base, yielded, held, transcription)
      requires Paced(start) && start.Some?
      modifies this`cumulativeSeq, this`ttsQueue, this`stamps, this`now
      ensures Paced(start) && Onward(old(now), old(stamps), now, stamps)
      ensures SentSoFar(ttsQueue, base, yielded + packets, pending, transcription)
    {
      StandingStill(now, stamps);
      hide SentSoFar, Onward, ReadOff, OnTime;
      pending := held;
      assert yielded + packets[..0] == yielded;
      for i := 0 to |packets|
        invariant Paced(start) && Onward(old(now), old(stamps), now, stamps)
        invariant SentSoFar(ttsQueue, base, yielded + packets[..i], pending, transcription)
      {
        ghost var sofar := yielded + packets[..i];
        assert yielded + packets[..i + 1] == sofar + [packets[i]];
        ghost var before := ttsQueue;
        if pending.Some? {
          ghost var t, st := now, stamps;
          SendPacket(pending.value, false, start);
          OnwardAgain(old(now), old(stamps), t, st, now, stamps);
        }
        Successor(before, base, sofar, pending, packets[i], transcription);
        pending := Some(packets[i]);
      }
      assert yielded + packets[..|packets|] == yielded + packets;
    }

    /** `_grpc_audio_delivery`: encodes the call's frames, flushes and drops the encoder on the
        final call, and sends the last packet under the call's own finality. */
    method Deliver(c: Call)
      requires Valid()
      modifies this
      ensures Valid() && calls == old(calls) + [c]
      ensures Onward(old(now), old(stamps), now, stamps)
      ensures StartKept(old(pacingStart), old(now), pacingStart, now)
    {
      ghost var before, base := calls, ttsQueue;
      AnyAudioSnoc(before, c);
      TimelineSnoc(codec, transcription, before, c);
      HeldSnoc(codec, before, c);
      hide Outputs, Encoded, Timeline, NewFrames, AnyAudio, Message, OnTime, SentSoFar, Held, Fed, Onward, ReadOff,
           DeliveryState.Paced;
      var pending, packets := EncodeCall(c);
      var start := pacingStart;
      ghost var t, st := now, stamps;
      StandingStill(t, st);
      if c.isFinal && encoder.Some? {
        pending, packets := Flush(pending, start, base, packets);
      }
      ghost var t', st' := now, stamps;
      CallSent(ttsQueue, base, packets, pending, c.isFinal, transcription);
      if pending.Some? {
        SendPacket(pending.value, c.isFinal, start);
        OnwardAgain(t, st, t', st', now, stamps);
      }
      OnwardAgain(old(now), old(stamps), t, st, now, stamps);
      StartStays(old(pacingStart), old(now), start, t, st, now, stamps);
      assert packets == Packets(codec, before, c);
      calls := calls + [c];
    }

    /** Flushes the encoder and drops it. */
    method Flush(held: Option<Packet>, start: Option<real>, ghost base: seq<AudioOutput>, ghost yielded: seq<Packet>)
      returns (pending: Option<Packet>, ghost packets: seq<Packet>)
      requires encoder.Some? && SentSoFar(ttsQueue, base, yielded, held, transcription)
      requires Paced(start) && start.Some?
      modifies this`encoder, this`cumulativeSeq, this`ttsQueue, this`stamps, this`now
      ensures encoder.None? && packets == yielded + codec.flush(old(encoder).value)
      ensures Paced(start) && Onward(old(now), old(stamps), now, stamps)
      ensures SentSoFar(ttsQueue, base, packets, pending, transcription)
    {
      hide SentSoFar, Onward, ReadOff, OnTime;
      var flushed := codec.flush(encoder.value);
      pending := Advance(flushed, held, start, base, yielded);
      packets := yielded + flushed;
      encoder := None;
    }

    /** The part of a call that comes before the flush. */
    method EncodeCall(c: Call) returns (pending: Option<Packet>, ghost packets: seq<Packet>)
      requires Valid()
      modifies this`silencePrepended, this`pacingStart, this`encoder,
               this`cumulativeSeq, this`ttsQueue, this`stamps, this`now
      ensures silencePrepended == pacingStart.Some? == AnyAudio(calls + [c])
      ensures encoder == Fed(codec, calls, c) && (encoder.Some? || pending.Some? ==> pacingStart.Some?)
      ensures
        var held := Held(codec, calls);
        packets == Encoded(codec, if held.Some? then held.value else [], NewFrames(codec, calls, c))
      ensures Paced(pacingStart)
      ensures SentSoFar(ttsQueue, old(ttsQueue), packets, pending, transcription)
      ensures Onward(old(now), old(stamps), now, stamps)
      ensures StartKept(old(pacingStart), old(now), pacingStart, now)
    {
      hide Outputs, Timeline;
      AnyAudioSnoc(calls, c);
      NothingSent(ttsQueue, transcription);
      hide SentSoFar, AnyAudio, FramesOf, OnTime, Onward, ReadOff, StartKept;
      ghost var seen := if encoder.Some? then encoder.value else [];
      EncodedNothing(codec, seen);
      pending, packets := None, [];
      var pcm := Prepare(c);
      ghost var t, st := now, stamps;
      if HasAudio(c) {
        pending, packets := EncodeFrames(pcm, pacingStart, ttsQueue, seen);
        OnwardAgain(old(now), old(stamps), t, st, now, stamps);
        StartStays(old(pacingStart), old(now), pacingStart, t, st, now, stamps);
      }
    }

    /** The call's PCM at 48 kHz, with the lead-in and the pacing clock's start on the first
        audio of the utterance, and an encoder if none is held. */
    method Prepare(c: Call) returns (pcm: seq<Sample>)
      requires Valid()
      modifies this`silencePrepended, this`pacingStart, this`encoder, this`now
      ensures HasAudio(c) ==> FramesOf(pcm) == NewFrames(codec, calls, c)
      ensures silencePrepended == pacingStart.Some? == AnyAudio(calls + [c])
      ensures Paced(pacingStart)
      ensures encoder == if HasAudio(c) && old(encoder).None? then Some([]) else old(encoder)
      ensures Onward(old(now), old(stamps), now, stamps)
      ensures StartKept(old(pacingStart), old(now), pacingStart, now)
    {
      hide FramesOf;
      AnyAudioSnoc(calls, c);
      hide AnyAudio;
      var hasAudio := c.audio.Some? && c.audio.value.samples != [];
      pcm := [];
      if hasAudio {
        pcm := c.audio.value.samples;
        if c.audio.value.sampleRate != 48000 {
          pcm := codec.resample(pcm, c.audio.value.sampleRate);
        }
        Elapse(0.0);  // resampling
        if !silencePrepended {
          pcm := LeadIn() + pcm;
          pacingStart := Some(now);
          silencePrepended := true;
        } else {
          assert [] + pcm == pcm;
        }
        if encoder.None? {
          encoder := Some([]);
        }
      }
    }

    /** Feeds the whole frames of `pcm` to the encoder, one by one. */
    method EncodeFrames(pcm: seq<Sample>, start: Option<real>, ghost base: seq<AudioOutput>, ghost seen: seq<Frame>)
      returns (pending: Option<Packet>, ghost packets: seq<Packet>)
      requires encoder == Some(seen) && ttsQueue == base && Paced(start) && start.Some?
      modifies this`encoder, this`cumulativeSeq, this`ttsQueue, this`stamps, this`now
      ensures encoder == Some(seen + FramesOf(pcm)) && packets == Encoded(codec, seen, FramesOf(pcm))
      ensures Paced(start) && SentSoFar(ttsQueue, base, packets, pending, transcription)
      ensures Onward(old(now), old(stamps), now, stamps)
    {
      NothingSent(ttsQueue, transcription);
      StandingStill(now, stamps);
      hide SentSoFar, Onward, OnTime, ReadOff;
      pending, packets := None, [];
      ghost var frames: seq<Frame> := [];
      EncodedNothing(codec, seen);
      assert seen + frames == seen && pcm[0..] == pcm && frames + FramesOf(pcm) == FramesOf(pcm);
      hide FramesOf, Encoded;
      var i: nat := 0;
      while i + FRAME_SIZE <= |pcm|
        invariant i <= |pcm| && FramesOf(pcm) == frames + FramesOf(pcm[i..])
        invariant encoder == Some(seen + frames) && packets == Encoded(codec, seen, frames)
        invariant Paced(start) && SentSoFar(ttsQueue, base, packets, pending, transcription)
        invariant Onward(old(now), old(stamps), now, stamps)
      {
        ghost var t, st := now, stamps;
        var chunk := pcm[i..i + FRAME_SIZE];
        Regrouped(seen, frames, [chunk]);
        encoder := Some(encoder.value + [chunk]);
        var yielded := codec.encode(encoder.value);
        pending := Advance(yielded, pending, start, base, packets);
        OnwardAgain(old(now), old(stamps), t, st, now, stamps);
        EncodedSnoc(codec, seen, frames, chunk);
        packets := packets + yielded;
        NextFrame(pcm, i);
        Regrouped(frames, [chunk], FramesOf(pcm[i + FRAME_SIZE..]));
        frames := frames + [chunk];
        i := i + FRAME_SIZE;
      }
      NoMoreFrames(pcm[i..]);
      assert frames + [] == frames;
    }
  }

  lemma AnyAudioSnoc(calls: seq<Call>, c: Call)
    ensures AnyAudio(calls + [c]) <==> AnyAudio(calls) || HasAudio(c)
  {
    if AnyAudio(calls) {
      var i :| 0 <= i < |calls| && HasAudio(calls[i]);
      assert HasAudio((calls + [c])[i]);
    }
    if HasAudio(c) {
      assert HasAudio((calls + [c])[|calls|]);
    }
  }

  lemma NothingSent(queue: seq<AudioOutput>, transcription: string)
    ensures SentSoFar(queue, queue, [], None, transcription)
  {
  }

  /** With its last packet out, a call has sent all its packets. */
  lemma CallSent(queue: seq<AudioOutput>, base: seq<AudioOutput>, packets: seq<Packet>, pending: Option<Packet>,
                 isFinal: bool, transcription: string)
    requires SentSoFar(queue, base, packets, pending, transcription)
    ensures base + Outputs(packets, |base|, isFinal, transcription) ==
            if pending.None? then queue else queue + [Message(pending.value, |queue|, isFinal, transcription)]
  {
    if packets != [] {
      OutputsLength(packets[..|packets| - 1], |base|, false, transcription);
    }
  }

  lemma TimelineSnoc(codec: Codec, transcription: string, calls: seq<Call>, c: Call)
    ensures
      var sent := Timeline(codec, transcription, calls);
      Timeline(codec, transcription, calls + [c]) ==
      sent + Outputs(Packets(codec, calls, c), |sent|, c.isFinal, transcription)
  {
    assert (calls + [c])[..|calls|] == calls;
  }

  lemma HeldSnoc(codec: Codec, calls: seq<Call>, c: Call)
    ensures Held(codec, calls + [c]) == if c.isFinal then None else Fed(codec, calls, c)
  {
    assert (calls + [c])[..|calls|] == calls;
  }

  lemma EncodedNothing(codec: Codec, seen: seq<Frame>)
    ensures Encoded(codec, seen, []) == []
  {
  }

  lemma EncodedSnoc(codec: Codec, seen: seq<Frame>, frames: seq<Frame>, chunk: Frame)
    ensures Encoded(codec, seen, frames + [chunk]) == Encoded(codec, seen, frames) + codec.encode(seen + frames + [chunk])
  {
    assert (frames + [chunk])[..|frames|] == frames;
    assert seen + (frames + [chunk]) == seen + frames + [chunk];
  }

  lemma Regrouped(a: seq<Frame>, b: seq<Frame>, c: seq<Frame>)
    ensures (a + b) + c == a + (b + c)
  {
  }

  lemma NoMoreFrames(pcm: seq<Sample>)
    requires |pcm| < FRAME_SIZE
    ensures FramesOf(pcm) == []
  {
  }

  lemma NextFrame(pcm: seq<Sample>, i: nat)
    requires i + FRAME_SIZE <= |pcm|
    ensures FramesOf(pcm[i..]) == [pcm[i..i + FRAME_SIZE]] + FramesOf(pcm[i + FRAME_SIZE..])
  {
    assert pcm[i..][..FRAME_SIZE] == pcm[i..i + FRAME_SIZE];
    assert pcm[i..][FRAME_SIZE..] == pcm[i + FRAME_SIZE..];
  }

  lemma {:induction false} OutputsLength(packets: seq<Packet>, first: nat, isFinal: bool, transcription: string)
    ensures |Outputs(packets, first, isFinal, transcription)| == |packets|
  {
    if packets != [] {
      OutputsLength(packets[..|packets| - 1], first, false, transcription);
    }
  }

  /** The lookahead moves on to packet `p` once what it held has been sent. */
  lemma Successor(queue: seq<AudioOutput>, base: seq<AudioOutput>, yielded: seq<Packet>, held: Option<Packet>,
                  p: Packet, transcription: string)
    requires SentSoFar(queue, base, yielded, held, transcription)
    ensures
      var queue' := if held.None? then queue else queue + [Message(held.value, |queue|, false, transcription)];
      SentSoFar(queue', base, yielded + [p], Some(p), transcription)
  {
    assert (yielded + [p])[..|yielded|] == yielded;
    if yielded != [] {
      OutputsLength(yielded[..|yielded| - 1], |base|, false, transcription);
    }
  }

  // ---- What a whole utterance looks like ----

  /** The calls of one utterance: only the last may be final. */
  predicate OneUtterance(calls: seq<Call>) {
    forall i :: 0 <= i < |calls| - 1 ==> !calls[i].isFinal
  }

  function Payloads(outputs: seq<AudioOutput>): seq<Packet> {
    if outputs == [] then []
    else Payloads(outputs[..|outputs| - 1]) + [outputs[|outputs| - 1].audioOpus]
  }

  lemma {:induction false} PayloadsAppend(a: seq<AudioOutput>, b: seq<AudioOutput>)
    ensures Payloads(a + b) == Payloads(a) + Payloads(b)
  {
    if b == [] {
      assert a + b == a;
    } else {
      assert (a + b)[..|a + b| - 1] == a + b[..|b| - 1];
      PayloadsAppend(a, b[..|b| - 1]);
    }
  }

  lemma {:induction false} OutputsCarry(packets: seq<Packet>, first: nat, isFinal: bool, transcription: string)
    ensures Payloads(Outputs(packets, first, isFinal, transcription)) == packets
  {
    NoPayloads();
    if packets != [] {
      var before, n := packets[..|packets| - 1], |packets| - 1;
      var m := Message(packets[n], first + n, isFinal, transcription);
      assert m.audioOpus == packets[n];
      hide Payloads, Message;
      OutputsCarry(before, first, false, transcription);
      PayloadsSnoc(Outputs(before, first, false, transcription), m);
      assert packets == before + [packets[n]];
    }
  }

  lemma NoPayloads()
    ensures Payloads([]) == []
  {
  }

  lemma PayloadsSnoc(outputs: seq<AudioOutput>, m: AudioOutput)
    ensures Payloads(outputs + [m]) == Payloads(outputs) + [m.audioOpus]
  {
    assert (outputs + [m])[..|outputs|] == outputs;
  }

  lemma {:induction false} OutputAt(packets: seq<Packet>, first: nat, isFinal: bool, transcription: string, i: nat)
    requires i < |packets|
    ensures
      var out := Outputs(packets, first, isFinal, transcription);
      && |out| == |packets|
      && out[i] == Message(packets[i], first + i, isFinal && i == |packets| - 1, transcription)
  {
    OutputsLength(packets, first, isFinal, transcription);
    OutputsLength(packets[..|packets| - 1], first, false, transcription);
    hide Message;
    if i < |packets| - 1 {
      OutputAt(packets[..|packets| - 1], first, false, transcription, i);
    }
  }

  /** A message of the queue is an earlier call's, or one of the last call's packets. */
  lemma TimelineAt(codec: Codec, transcription: string, before: seq<Call>, c: Call, i: nat)
    requires i < |Timeline(codec, transcription, before + [c])|
    ensures
      var all, sent := Timeline(codec, transcription, before + [c]), Timeline(codec, transcription, before);
      var packets := Packets(codec, before, c);
      && |all| == |sent| + |packets|
      && all[i] == if i < |sent| then sent[i]
                   else Message(packets[i - |sent|], i, c.isFinal && i == |all| - 1, transcription)
  {
    TimelineSnoc(codec, transcription, before, c);
    hide Timeline, Packets, Outputs, Message;
    var sent, packets := Timeline(codec, transcription, before), Packets(codec, before, c);
    OutputsLength(packets, |sent|, c.isFinal, transcription);
    if i >= |sent| {
      OutputAt(packets, |sent|, c.isFinal, transcription, i - |sent|);
    }
  }

  lemma NothingQueued(codec: Codec, transcription: string)
    ensures Timeline(codec, transcription, []) == []
  {
  }

  /** Across all calls, messages are numbered 0, 1, 2, ... and only number 0 carries the
      transcription. */
  lemma {:induction false} Numbered(codec: Codec, transcription: string, calls: seq<Call>, i: nat)
    requires i < |Timeline(codec, transcription, calls)|
    ensures
      var m := Timeline(codec, transcription, calls)[i];
      m.sequenceNum == i && m.finalStt == (if i == 0 then transcription else "")
  {
    hide Timeline, Packets;
    NothingQueued(codec, transcription);
    var before, c := calls[..|calls| - 1], calls[|calls| - 1];
    assert calls == before + [c];
    TimelineAt(codec, transcription, before, c, i);
    if i < |Timeline(codec, transcription, before)| {
      Numbered(codec, transcription, before, i);
    }
  }

  /** Only the very last message of an utterance can be final, and it is exactly when the
      final call has a packet of its own to send. */
  lemma {:induction false} OnlyTheLastIsFinal(codec: Codec, transcription: string, calls: seq<Call>, i: nat)
    requires OneUtterance(calls) && i < |Timeline(codec, transcription, calls)|
    ensures
      var outputs, before := Timeline(codec, transcription, calls), calls[..|calls| - 1];
      outputs[i].isFinal <==>
        i == |outputs| - 1 && calls[|calls| - 1].isFinal && Packets(codec, before, calls[|calls| - 1]) != []
  {
    hide Timeline, Packets;
    NothingQueued(codec, transcription);
    var before, c := calls[..|calls| - 1], calls[|calls| - 1];
    assert calls == before + [c];
    TimelineAt(codec, transcription, before, c, i);
    if i < |Timeline(codec, transcription, before)| {
      assert before != [] ==> before[|before| - 1] == calls[|before| - 1];
      OnlyTheLastIsFinal(codec, transcription, before, i);
    }
  }

  /** The flush owed after `calls`, if the last of them is final. */
  function Flushed(codec: Codec, calls: seq<Call>): seq<Packet> {
    if calls != [] && calls[|calls| - 1].isFinal && AnyAudio(calls) then codec.flush(AllFrames(codec, calls)) else []
  }

  /** Sentence boundaries leave no trace in the audio: what is sent, in order and each packet
      once, is what one encoder yields for all the frames of the utterance, and after the
      final call what it still held back. */
  lemma {:induction false} OneContinuousStream(codec: Codec, transcription: string, calls: seq<Call>)
    requires OneUtterance(calls)
    ensures Payloads(Timeline(codec, transcription, calls)) ==
            Encoded(codec, [], AllFrames(codec, calls)) + Flushed(codec, calls)
  {
    hide AllFrames, NewFrames, Timeline, Outputs, Payloads, Encoded, Packets, Flushed, AnyAudio;
    if calls == [] {
      NoCalls(codec, transcription);
    } else {
      var before, c := calls[..|calls| - 1], calls[|calls| - 1];
      assert calls == before + [c];
      assert before != [] ==> before[|before| - 1] == calls[|before| - 1];
      OneContinuousStream(codec, transcription, before);
      CallPayloads(codec, transcription, before, c);
      LastCall(codec, before, c);
      var frames, more := AllFrames(codec, before), NewFrames(codec, before, c);
      EncodedAppend(codec, [], frames, more);
      assert [] + frames == frames;
      var first, second := Encoded(codec, [], frames), Encoded(codec, frames, more);
      assert first + [] + (second + Flushed(codec, calls)) == first + second + Flushed(codec, calls);
    }
  }

  lemma NoCalls(codec: Codec, transcription: string)
    ensures Payloads(Timeline(codec, transcription, [])) == [] == Encoded(codec, [], AllFrames(codec, [])) == Flushed(codec, [])
  {
  }

  lemma CallPayloads(codec: Codec, transcription: string, before: seq<Call>, c: Call)
    ensures Payloads(Timeline(codec, transcription, before + [c])) ==
            Payloads(Timeline(codec, transcription, before)) + Packets(codec, before, c)
    ensures AllFrames(codec, before + [c]) == AllFrames(codec, before) + NewFrames(codec, before, c)
    ensures before == [] || !before[|before| - 1].isFinal ==> Flushed(codec, before) == []
  {
    TimelineSnoc(codec, transcription, before, c);
    assert (before + [c])[..|before|] == before;
    var sent, packets := Timeline(codec, transcription, before), Packets(codec, before, c);
    hide Timeline, Packets, NewFrames, AnyAudio, Encoded;
    OutputsCarry(packets, |sent|, c.isFinal, transcription);
    PayloadsAppend(sent, Outputs(packets, |sent|, c.isFinal, transcription));
  }

  /** While no call is final the encoder has seen every frame so far, so what the next call
      sends continues from there. */
  lemma {:induction false} LastCall(codec: Codec, before: seq<Call>, c: Call)
    requires forall i :: 0 <= i < |before| ==> !before[i].isFinal
    ensures Packets(codec, before, c) ==
            Encoded(codec, AllFrames(codec, before), NewFrames(codec, before, c)) + Flushed(codec, before + [c])
  {
    HeldIsAll(codec, before);
    AnyAudioSnoc(before, c);
    assert (before + [c])[..|before|] == before;
    var frames := AllFrames(codec, before);
    assert frames + [] == frames;
    hide Encoded, AnyAudio, Held, FramesOf;
  }

  lemma {:induction false} HeldIsAll(codec: Codec, calls: seq<Call>)
    requires forall i :: 0 <= i < |calls| ==> !calls[i].isFinal
    ensures Held(codec, calls) == if AnyAudio(calls) then Some(AllFrames(codec, calls)) else None
    ensures !AnyAudio(calls) ==> AllFrames(codec, calls) == []
  {
    if calls != [] {
      var before, c := calls[..|calls| - 1], calls[|calls| - 1];
      HeldIsAll(codec, before);
      AnyAudioSnoc(before, c);
      assert before + [c] == calls;
      var frames := AllFrames(codec, before);
      assert frames + [] == frames;
      hide AnyAudio, FramesOf;
    }
  }

  lemma {:induction false} EncodedAppend(codec: Codec, seen: seq<Frame>, a: seq<Frame>, b: seq<Frame>)
    ensures Encoded(codec, seen, a + b) == Encoded(codec, seen, a) + Encoded(codec, seen + a, b)
  {
    if b == [] {
      assert a + b == a;
    } else {
      assert (a + b)[..|a + b| - 1] == a + b[..|b| - 1];
      EncodedAppend(codec, seen, a, b[..|b| - 1]);
      assert seen + (a + b) == seen + a + b;
    }
  }

  /** An encoder that is one frame behind and makes a packet `pkt` of each. */
  ghost predicate OneBehind(codec: Codec, pkt: Frame -> Packet) {
    && (forall fs :: codec.encode(fs) == if |fs| >= 2 then [pkt(fs[|fs| - 2])] else [])
    && (forall fs :: codec.flush(fs) == if fs == [] then [] else [pkt(fs[|fs| - 1])])
  }

  function Packed(pkt: Frame -> Packet, frames: seq<Frame>): seq<Packet> {
    seq(|frames|, i requires 0 <= i < |frames| => pkt(frames[i]))
  }

  lemma EncodesBehind(codec: Codec, pkt: Frame -> Packet, fs: seq<Frame>)
    requires OneBehind(codec, pkt)
    ensures codec.encode(fs) == if |fs| >= 2 then [pkt(fs[|fs| - 2])] else []
    ensures codec.flush(fs) == if fs == [] then [] else [pkt(fs[|fs| - 1])]
  {
  }

  lemma PackedSnoc(pkt: Frame -> Packet, frames: seq<Frame>, f: Frame)
    ensures Packed(pkt, frames + [f]) == Packed(pkt, frames) + [pkt(f)]
    ensures Packed(pkt, []) == []
  {
  }

  lemma {:induction false} EncodedBehind(codec: Codec, pkt: Frame -> Packet, frames: seq<Frame>)
    requires OneBehind(codec, pkt)
    ensures Encoded(codec, [], frames) == if frames == [] then [] else Packed(pkt, frames[..|frames| - 1])
  {
    hide OneBehind, Packed;
    EncodedNothing(codec, []);
    if frames != [] {
      var before, last := frames[..|frames| - 1], frames[|frames| - 1];
      EncodedBehind(codec, pkt, before);
      EncodesBehind(codec, pkt, frames);
      assert frames == before + [last];
      EncodedSnoc(codec, [], before, last);
      hide Encoded;
      assert [] + before + [last] == frames;
      if before == [] {
        PackedSnoc(pkt, [], last);
      } else {
        var front, f := before[..|before| - 1], before[|before| - 1];
        assert before == front + [f];
        PackedSnoc(pkt, front, f);
      }
    }
  }

  /** What such an encoder holds back at the end of a sentence is not lost, nor held for ever: a
      finished utterance has sent one packet for each of its frames, in order. */
  lemma EachFrameIsSent(codec: Codec, pkt: Frame -> Packet, transcription: string, calls: seq<Call>)
    requires OneBehind(codec, pkt) && OneUtterance(calls) && calls != [] && calls[|calls| - 1].isFinal
    ensures Payloads(Timeline(codec, transcription, calls)) == Packed(pkt, AllFrames(codec, calls))
  {
    hide Payloads, Timeline, Encoded, AllFrames, AnyAudio, OneBehind, Packed;
    var frames := AllFrames(codec, calls);
    OneContinuousStream(codec, transcription, calls);
    EncodedBehind(codec, pkt, frames);
    EncodesBehind(codec, pkt, frames);
    if !AnyAudio(calls) {
      NoFrames(codec, calls);
    }
    if frames == [] {
      PackedSnoc(pkt, [], []);
    } else {
      var before, last := frames[..|frames| - 1], frames[|frames| - 1];
      assert frames == before + [last];
      PackedSnoc(pkt, before, last);
    }
  }

  lemma {:induction false} NoFrames(codec: Codec, calls: seq<Call>)
    requires !AnyAudio(calls)
    ensures AllFrames(codec, calls) == []
  {
    if calls != [] {
      assert !HasAudio(calls[|calls| - 1]);
      NoFrames(codec, calls[..|calls| - 1]);
    }
  }

  // ---- What does not reach the encoder ----

  lemma {:induction false} ConcatAppend(a: seq<Frame>, b: seq<Frame>)
    ensures Concat(a + b) == Concat(a) + Concat(b)
  {
    if b == [] {
      assert a + b == a;
    } else {
      var last := b[|b| - 1];
      assert (a + b)[..|a + b| - 1] == a + b[..|b| - 1];
      ConcatAppend(a, b[..|b| - 1]);
      assert (Concat(a) + Concat(b[..|b| - 1])) + last == Concat(a) + (Concat(b[..|b| - 1]) + last);
    }
  }

  /** Framing keeps the samples of a call but for a remainder shorter than a frame. */
  lemma {:induction false} FramesLoseRemainder(pcm: seq<Sample>)
    ensures Concat(FramesOf(pcm)) == pcm[..|pcm| - |pcm| % FRAME_SIZE]
    ensures forall f :: f in FramesOf(pcm) ==> |f| == FRAME_SIZE
  {
    if |pcm| >= FRAME_SIZE {
      var first, rest := pcm[..FRAME_SIZE], pcm[FRAME_SIZE..];
      FramesLoseRemainder(rest);
      ConcatAppend([first], FramesOf(rest));
      assert [first][..0] == [];
      assert |pcm| % FRAME_SIZE == |rest| % FRAME_SIZE;
    }
  }

  predicate Silent(c: Call) {
    c.audio.None? || c.audio.value.samples == []
  }

  function WholeFrames(pcm: seq<Sample>): seq<Sample> {
    pcm[..|pcm| - |pcm| % FRAME_SIZE]
  }

  /** What of a call's audio reaches the encoder: its samples, resampled unless their rate is
      48 kHz, after a tenth of a second of silence if all calls before were without audio, and
      all of that up to a remainder shorter than a frame. */
  lemma CallIsHeard(codec: Codec, before: seq<Call>, c: Call)
    requires !Silent(c)
    ensures
      var a := c.audio.value;
      var pcm := if a.sampleRate == 48000 then a.samples else codec.resample(a.samples, a.sampleRate);
      var first := forall i :: 0 <= i < |before| ==> Silent(before[i]);
      Concat(NewFrames(codec, before, c)) == WholeFrames((if first then seq(4800, _ => 0 as Sample) else []) + pcm)
  {
    FramesAreWhole((if AnyAudio(before) then [] else LeadIn()) + At48k(codec, c.audio.value));
    hide FramesOf, Concat, WholeFrames;
  }

  /** The audio of the calls, one after the other, each at 48 kHz and up to its last whole frame. */
  function Spoken(codec: Codec, calls: seq<Call>): seq<Sample> {
    if calls == [] then []
    else
      var c := calls[|calls| - 1];
      Spoken(codec, calls[..|calls| - 1]) + (if Silent(c) then [] else WholeFrames(At48k(codec, c.audio.value)))
  }

  /** An utterance as the encoder hears it: the lead-in once, in front, and then nothing but the
      audio of the calls. */
  lemma {:induction false} UtteranceIsHeard(codec: Codec, calls: seq<Call>)
    ensures Concat(AllFrames(codec, calls)) == (if AnyAudio(calls) then LeadIn() else []) + Spoken(codec, calls)
  {
    hide AnyAudio, Concat, At48k, LeadIn, NewFrames, WholeFrames, AllFrames, Spoken;
    if calls == [] {
      NothingHeard(codec);
    } else {
      var before, c := calls[..|calls| - 1], calls[|calls| - 1];
      UtteranceIsHeard(codec, before);
      assert calls == before + [c];
      AudioSnoc(codec, before, c);
      AnyAudioSnoc(before, c);
      ConcatAppend(AllFrames(codec, before), NewFrames(codec, before, c));
      CallAdds(codec, before, c);
      if !AnyAudio(before) {
        NothingBefore(codec, before);
      } else {
        LeadStays(LeadIn(), Spoken(codec, before), if Silent(c) then [] else WholeFrames(At48k(codec, c.audio.value)));
      }
    }
  }

  lemma NothingHeard(codec: Codec)
    ensures Concat(AllFrames(codec, [])) == [] == Spoken(codec, []) && !AnyAudio([])
  {
  }

  lemma LeadStays(lead: seq<Sample>, said: seq<Sample>, more: seq<Sample>)
    ensures (lead + said) + more == lead + (said + more)
  {
  }

  lemma AudioSnoc(codec: Codec, before: seq<Call>, c: Call)
    ensures AllFrames(codec, before + [c]) == AllFrames(codec, before) + NewFrames(codec, before, c)
    ensures Spoken(codec, before + [c]) ==
            Spoken(codec, before) + (if Silent(c) then [] else WholeFrames(At48k(codec, c.audio.value)))
  {
    assert (before + [c])[..|before|] == before;
    hide NewFrames, WholeFrames;
  }

  lemma {:induction false} NothingBefore(codec: Codec, calls: seq<Call>)
    requires !AnyAudio(calls)
    ensures Spoken(codec, calls) == []
  {
    if calls != [] {
      assert Silent(calls[|calls| - 1]);
      NothingBefore(codec, calls[..|calls| - 1]);
    }
  }

  lemma CallAdds(codec: Codec, before: seq<Call>, c: Call)
    ensures Concat(NewFrames(codec, before, c)) ==
            if Silent(c) then []
            else (if AnyAudio(before) then [] else LeadIn()) + WholeFrames(At48k(codec, c.audio.value))
  {
    hide AnyAudio, FramesOf, At48k, WholeFrames;
    if !Silent(c) {
      hide Concat, LeadIn;
      var lead, pcm := if AnyAudio(before) then [] else LeadIn(), At48k(codec, c.audio.value);
      FramesAreWhole(lead + pcm);
      LeadInIsWhole(lead, pcm);
    }
  }

  lemma FramesAreWhole(pcm: seq<Sample>)
    ensures Concat(FramesOf(pcm)) == WholeFrames(pcm)
  {
    FramesLoseRemainder(pcm);
  }

  lemma LeadInIsWhole(lead: seq<Sample>, pcm: seq<Sample>)
    requires lead == LeadIn() || lead == []
    ensures WholeFrames(lead + pcm) == lead + WholeFrames(pcm)
  {
    assert (|lead| + |pcm|) % FRAME_SIZE == |pcm| % FRAME_SIZE;
  }

  // ---- Pacing ----

  /** How many of the messages were queued by time `t`. */
  function QueuedBy(stamps: seq<real>, t: real): nat {
    if stamps == [] then 0
    else QueuedBy(stamps[..|stamps| - 1], t) + (if stamps[|stamps| - 1] <= t then 1 else 0)
  }

  /** What real time allows in `ms` milliseconds, but no less than the initial burst. */
  function Allowance(ms: real): int {
    var realTime := (ms / FRAME_DURATION_MS).Floor + 1;
    if realTime > INITIAL_BURST_FRAMES + 1 then realTime else INITIAL_BURST_FRAMES + 1
  }

  lemma {:induction false} TimelyStamps(stamps: seq<real>, start: real, ms: real)
    requires OnTime(stamps, start)
    ensures QueuedBy(stamps, start + ms) <= Allowance(ms)
    ensures QueuedBy(stamps, start + ms) <= |stamps|
  {
    if stamps != [] {
      var s := |stamps| - 1;
      TimelyStamps(stamps[..s], start, ms);
      if s >= Allowance(ms) {
        assert s as real > ms / FRAME_DURATION_MS;
        assert stamps[s] > start + ms;
      }
    }
  }

  /** However many sentences they belong to, no more messages are queued within `ms`
      milliseconds of the start of pacing than that. Message `i` was queued at `stamps[i]`,
      a time the clock then showed, and the start is when the first audio came: see `Deliver`. */
  lemma PacingBound(d: DeliveryState, ms: real)
    requires d.Valid() && d.pacingStart.Some?
    ensures |d.stamps| == |d.ttsQueue|
    ensures QueuedBy(d.stamps, d.pacingStart.value + ms) <= Allowance(ms)
    ensures d.now - d.pacingStart.value <= ms ==> |d.ttsQueue| <= Allowance(ms)
  {
    TimelyStamps(d.stamps, d.pacingStart.value, ms);
    if d.now - d.pacingStart.value <= ms {
      AllQueued(d.stamps, d.pacingStart.value + ms);
    }
  }

  lemma {:induction false} AllQueued(stamps: seq<real>, t: real)
    requires forall i :: 0 <= i < |stamps| ==> stamps[i] <= t
    ensures QueuedBy(stamps, t) == |stamps|
  {
    if stamps != [] {
      AllQueued(stamps[..|stamps| - 1], t);
    }
  }
}
