/** The client's playback queue (devices/audio-client/audio_client/audio.py): rechunking on
    the event loop's thread, with audio callbacks between any two queue operations. */
module Playback {
  import opened Delivery

  const SPEAKER_QUEUE_MAX := 500

  /** The frames whose fate is to be played. */
  function Chosen(frames: seq<Frame>, fates: seq<bool>): seq<Frame>
    requires |frames| == |fates|
  {
    if frames == [] then []
    else
      var n := |frames| - 1;
      Chosen(frames[..n], fates[..n]) + (if fates[n] then [frames[n]] else [])
  }

  function Count(fates: seq<bool>, fate: bool): nat {
    if fates == [] then 0 else Count(fates[..|fates| - 1], fate) + (if fates[|fates| - 1] == fate then 1 else 0)
  }

  class AudioPipeline {
    const frameSize: nat
    /** How many audio callbacks run before the n-th queue operation. */
    const callbacksBefore: nat -> nat
    var playbackBuf: seq<Sample>
    var speakerQueue: seq<Frame>
    var ttsFramesPlayed: nat
    var ttsFramesDropped: nat
    var operations: nat
    /** All samples received, the frames formed of them, for each frame that left the queue
        whether it was played, and the frames played. */
    ghost var received: seq<Sample>
    ghost var formed: seq<Frame>
    ghost var fates: seq<bool>
    ghost var played: seq<Frame>
    /** How many puts found the queue full. */
    ghost var fullPuts: nat

    /** What holds between any two queue operations. */
    ghost predicate QueueValid()
      reads `speakerQueue, `formed, `fates, `played, `ttsFramesPlayed, `fullPuts
    {
      && frameSize >= 1
      && |speakerQueue| <= SPEAKER_QUEUE_MAX
      // The queue is the newest frames, without a gap.
      && |fates| + |speakerQueue| == |formed| && speakerQueue == formed[|fates|..]
      // Every older frame was played, in order, or dropped.
      && played == Chosen(formed[..|fates|], fates)
      && ttsFramesPlayed == Count(fates, true) && Count(fates, false) <= fullPuts
      && forall f :: f in formed ==> |f| == frameSize
    }

    ghost predicate Valid()
      reads this
    {
      && QueueValid()
      && Concat(formed) + playbackBuf == received
      && |playbackBuf| < frameSize
      // A frame is dropped only for a put that found the queue full, and each such is counted.
      && ttsFramesDropped == fullPuts
    }

    constructor (frameSize: nat, callbacksBefore: nat -> nat)
      requires frameSize >= 1
      ensures Valid() && received == [] && played == []
      ensures this.frameSize == frameSize && this.callbacksBefore == callbacksBefore
    {
      this.frameSize, this.callbacksBefore := frameSize, callbacksBefore;
      playbackBuf, speakerQueue, ttsFramesPlayed, ttsFramesDropped, operations := [], [], 0, 0, 0;
      received, formed, fates, played, fullPuts := [], [], [], [], 0;
    }

    /** The speaker half of the audio callback: the oldest frame, or silence. */
    method Callback() returns (out: Frame)
      requires QueueValid()
      modifies `speakerQueue, `ttsFramesPlayed, `fates, `played
      ensures QueueValid()
      ensures
        if old(speakerQueue) == [] then
          out == Silence(frameSize) && speakerQueue == [] && played == old(played) && fates == old(fates)
        else
          && out == old(speakerQueue)[0] && speakerQueue == old(speakerQueue)[1..]
          && played == old(played) + [out] && fates == old(fates) + [true]
    {
      if speakerQueue == [] {
        out := Silence(frameSize);
      } else {
        out := speakerQueue[0];
        FateSnoc(formed, fates, true);
        speakerQueue := speakerQueue[1..];
        ttsFramesPlayed := ttsFramesPlayed + 1;
        fates, played := fates + [true], played + [out];
      }
    }

    /** The callbacks that happen to run before the next queue operation. */
    method AudioThread()
      requires QueueValid()
      modifies `speakerQueue, `ttsFramesPlayed, `fates, `played, `operations
      ensures QueueValid()
      ensures Count(fates, false) == Count(old(fates), false) && |speakerQueue| <= |old(speakerQueue)|
    {
      hide Chosen, Count;
      var left := callbacksBefore(operations);
      operations := operations + 1;
      while left > 0
        invariant QueueValid() && Count(fates, false) == Count(old(fates), false)
        invariant |speakerQueue| <= |old(speakerQueue)|
      {
        CountSnoc(fates, true);
        var out := Callback();
        left := left - 1;
      }
    }

    method PutNowait(chunk: Frame) returns (full: bool)
      requires QueueValid() && |chunk| == frameSize
      modifies `speakerQueue, `formed, `fullPuts
      ensures fullPuts == old(fullPuts) + (if |old(speakerQueue)| == SPEAKER_QUEUE_MAX then 1 else 0)
      ensures QueueValid() && (full <==> |old(speakerQueue)| == SPEAKER_QUEUE_MAX)
      ensures formed == if full then old(formed) else old(formed) + [chunk]
      ensures |speakerQueue| == |old(speakerQueue)| + (if full then 0 else 1)
    {
      full := |speakerQueue| >= SPEAKER_QUEUE_MAX;
      if full {
        fullPuts := fullPuts + 1;
      } else {
        assert (formed + [chunk])[..|fates|] == formed[..|fates|];
        speakerQueue, formed := speakerQueue + [chunk], formed + [chunk];
      }
    }

    /** Makes room by dropping the oldest frame, if callbacks have not taken all. */
    method DropOldest()
      requires QueueValid() && Count(fates, false) < fullPuts
      modifies `speakerQueue, `fates
      ensures QueueValid() && |speakerQueue| < SPEAKER_QUEUE_MAX
      ensures Count(fates, false) <= Count(old(fates), false) + 1
    {
      if speakerQueue != [] {
        FateSnoc(formed, fates, false);
        speakerQueue, fates := speakerQueue[1..], fates + [false];
      }
    }

    /** Every frame formed gets into the queue. At most one frame is dropped for it, and only if
        the put found the queue full. */
    method Enqueue(chunk: Frame)
      requires QueueValid() && ttsFramesDropped == fullPuts && |chunk| == frameSize
      modifies `speakerQueue, `formed, `fates, `played, `ttsFramesPlayed, `ttsFramesDropped, `operations, `fullPuts
      ensures QueueValid() && ttsFramesDropped == fullPuts && formed == old(formed) + [chunk]
      ensures Count(fates, false) - Count(old(fates), false) <= fullPuts - old(fullPuts) <= 1
      ensures fullPuts > old(fullPuts) ==> |old(speakerQueue)| == SPEAKER_QUEUE_MAX
    {
      hide Chosen, Count;
      AudioThread();
      var full := PutNowait(chunk);
      if full {
        AudioThread();
        DropOldest();
        AudioThread();
        full := PutNowait(chunk);
        ttsFramesDropped := ttsFramesDropped + 1;
      }
    }

    /** One frame off the front of the residue. */
    method FormFrame()
      requires QueueValid() && ttsFramesDropped == fullPuts && |playbackBuf| >= frameSize
      modifies this
      ensures QueueValid() && ttsFramesDropped == fullPuts && received == old(received)
      ensures |playbackBuf| < |old(playbackBuf)| && old(formed) <= formed
      ensures Concat(formed) + playbackBuf == Concat(old(formed)) + old(playbackBuf)
    {
      assert frameSize >= 1;
      hide Concat, AudioPipeline.QueueValid;
      var chunk := playbackBuf[..frameSize];
      CutChunk(formed, playbackBuf, frameSize);
      playbackBuf := playbackBuf[frameSize..];
      Enqueue(chunk);
    }

    method QueuePlayback(samples: seq<Sample>)
      requires Valid()
      modifies this
      ensures Valid() && received == old(received) + samples
      ensures old(formed) <= formed
    {
      hide Concat, AudioPipeline.QueueValid;
      Associative(Concat(formed), playbackBuf, samples);
      playbackBuf := playbackBuf + samples;
      received := received + samples;
      while |playbackBuf| >= frameSize
        invariant QueueValid() && ttsFramesDropped == fullPuts && Concat(formed) + playbackBuf == received
        invariant received == old(received) + samples && old(formed) <= formed
        decreases |playbackBuf|
      {
        FormFrame();
      }
    }
  }

  function Silence(frameSize: nat): Frame {
    seq(frameSize, _ => 0 as Sample)
  }

  lemma FateSnoc(formed: seq<Frame>, fates: seq<bool>, fate: bool)
    requires |fates| < |formed|
    ensures
      var next := formed[|fates|];
      Chosen(formed[..|fates| + 1], fates + [fate]) ==
      Chosen(formed[..|fates|], fates) + (if fate then [next] else [])
    ensures forall b :: Count(fates + [fate], b) == Count(fates, b) + (if fate == b then 1 else 0)
  {
    CountSnoc(fates, fate);
    hide Count;
    var n := |fates|;
    assert (fates + [fate])[..n] == fates;
    assert formed[..n + 1][..n] == formed[..n];
  }

  lemma CountSnoc(fates: seq<bool>, fate: bool)
    ensures forall b :: Count(fates + [fate], b) == Count(fates, b) + (if fate == b then 1 else 0)
  {
    assert (fates + [fate])[..|fates|] == fates;
  }

  /** Forming a frame of the front of the residue moves no sample. */
  lemma CutChunk(formed: seq<Frame>, residue: seq<Sample>, n: nat)
    requires n <= |residue|
    ensures Concat(formed + [residue[..n]]) + residue[n..] == Concat(formed) + residue
  {
    var chunk := residue[..n];
    assert (formed + [chunk])[..|formed|] == formed;
    Associative(Concat(formed), chunk, residue[n..]);
    assert residue == chunk + residue[n..];
  }

  lemma Associative(a: seq<Sample>, b: seq<Sample>, c: seq<Sample>)
    ensures (a + b) + c == a + (b + c)
  {
  }

  lemma {:induction false} AllChosen(frames: seq<Frame>, fates: seq<bool>)
    requires |frames| == |fates|
    ensures |Chosen(frames, fates)| == Count(fates, true)
    ensures Count(fates, true) + Count(fates, false) == |fates|
    ensures Count(fates, false) == 0 ==> Chosen(frames, fates) == frames
  {
    if frames != [] {
      var n := |frames| - 1;
      AllChosen(frames[..n], fates[..n]);
      assert frames == frames[..n] + [frames[n]];
    }
  }

  /** Each played frame stands in its place among the formed ones: the k-th played frame is
      the frame at the k-th playing fate. */
  lemma {:induction false} PlayedInOrder(frames: seq<Frame>, fates: seq<bool>, i: nat)
    requires |frames| == |fates| && i < |fates| && fates[i]
    ensures
      var k := Count(fates[..i], true);
      k < |Chosen(frames, fates)| && Chosen(frames, fates)[k] == frames[i]
  {
    var n := |fates| - 1;
    if i < n {
      PlayedInOrder(frames[..n], fates[..n], i);
      assert fates[..n][..i] == fates[..i];
    } else {
      AllChosen(frames[..n], fates[..n]);
    }
  }

  /** While the drop counter is zero, everything received is played, queued or residual, in
      this order, sample by sample. */
  lemma LosslessWithoutDrops(p: AudioPipeline)
    requires p.Valid() && p.ttsFramesDropped == 0
    ensures Concat(p.played) + Concat(p.speakerQueue) + p.playbackBuf == p.received
  {
    hide Concat, Chosen, Count;
    var gone := p.formed[..|p.fates|];
    AllChosen(gone, p.fates);
    assert p.formed == gone + p.speakerQueue;
    ConcatAppend(gone, p.speakerQueue);
  }
}
