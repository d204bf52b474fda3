/** The reading half of the server's voice stream (ai-server/rpc/service.py): how messages
    become utterances. What then happens to an utterance is the subject of StreamProtocol. */
module Service {
  import opened Audio
  import opened Grpc

  const MAX_AUDIO_BUFFER_BYTES: nat := 6 * 1024 * 1024
  const MIN_UTTERANCE_DURATION_MS: nat := 450
  const DEFAULT_SAMPLE_RATE: u32 := 48000

  /** The audio frozen for one processing task. */
  datatype Utterance = Utterance(audio: seq<byte>, sampleRate: u32, deviceId: string, conversationId: string)

  /** What the reader makes of one message. */
  datatype Dispatch = Quiet | Overflow | TooShort | Process(utterance: Utterance) | Interrupt

  function ExtractAudio(p: Payload): Option<seq<byte>> {
    match p
    case Pcm(bytes) => Some(bytes)
    case Opus(_) => None
    case Absent => None
  }

  /** The bytes a message adds; an absent payload adds none. */
  function Bytes(m: AudioInput): seq<byte> {
    var audio := ExtractAudio(m.audio);
    if audio.Some? then audio.value else []
  }

  function SampleRate(rate: u32): u32 {
    if rate == 0 then DEFAULT_SAMPLE_RATE else rate
  }

  /** Duration of 16-bit mono PCM in whole milliseconds, rounded down. */
  function PcmDurationMs(byteCount: nat, sampleRate: u32): nat {
    if sampleRate == 0 then 0 else (byteCount / 2) * 1000 / sampleRate as nat
  }

  /** The duration is the whole milliseconds in the samples: they last that long and not one
      millisecond more. */
  lemma DurationIsExact(byteCount: nat, sampleRate: u32)
    requires sampleRate != 0
    ensures
      var samples, ms, rate := byteCount / 2, PcmDurationMs(byteCount, sampleRate), sampleRate as nat;
      ms * rate <= samples * 1000 < (ms + 1) * rate
  {
    var n, rate := byteCount / 2 * 1000, sampleRate as nat;
    assert n == n / rate * rate + n % rate;
  }

  predicate Overflows(pending: nat, m: AudioInput) {
    m.event == EventContinue && Bytes(m) != [] && pending + |Bytes(m)| > MAX_AUDIO_BUFFER_BYTES
  }

  predicate LongEnough(u: Utterance) {
    PcmDurationMs(|u.audio|, u.sampleRate) >= MIN_UTTERANCE_DURATION_MS
  }

  /** Rounding down lets no utterance through, and drops none, that the exact duration would not. */
  lemma LongEnoughExactly(u: Utterance)
    ensures LongEnough(u) <==> u.sampleRate != 0 && (|u.audio| / 2) * 1000 >= 450 * u.sampleRate as nat
  {
    if u.sampleRate != 0 {
      DurationIsExact(|u.audio|, u.sampleRate);
      RoundingIsHarmless(|u.audio| / 2 * 1000, u.sampleRate as nat, PcmDurationMs(|u.audio|, u.sampleRate), 450);
    }
  }

  lemma RoundingIsHarmless(n: nat, rate: nat, ms: nat, min: nat)
    requires ms * rate <= n < (ms + 1) * rate
    ensures ms >= min <==> n >= min * rate
  {
    if ms >= min {
      ProductGrows(min, ms, rate);
    } else {
      ProductGrows(ms + 1, min, rate);
    }
  }

  lemma ProductGrows(m: nat, n: nat, rate: nat)
    requires m <= n
    ensures m * rate <= n * rate
  {
  }

  /** The utterance that an END message makes of the pending audio. */
  function Completed(pending: seq<byte>, m: AudioInput): Utterance {
    Utterance(pending + Bytes(m), SampleRate(m.sampleRate), m.deviceId, m.conversationId)
  }

  /** What is pending after message `m`. */
  function Gathered(pending: seq<byte>, m: AudioInput): seq<byte> {
    match m.event
    case EventStart => Bytes(m)
    case EventContinue => if Overflows(|pending|, m) then [] else pending + Bytes(m)
    case EventEnd => []
    case EventInterrupt => []
    case EventUnknown => pending
  }

  function Judged(pending: seq<byte>, m: AudioInput): Dispatch {
    match m.event
    case EventStart => Quiet
    case EventContinue => if Overflows(|pending|, m) then Overflow else Quiet
    case EventEnd => if LongEnough(Completed(pending, m)) then Process(Completed(pending, m)) else TooShort
    case EventInterrupt => Interrupt
    case EventUnknown => Quiet
  }

  /** The audio gathered by a history of messages and not yet frozen or dropped. */
  function Pending(ms: seq<AudioInput>): seq<byte> {
    if ms == [] then [] else Gathered(Pending(ms[..|ms| - 1]), ms[|ms| - 1])
  }

  function DispatchOf(ms: seq<AudioInput>, m: AudioInput): Dispatch {
    Judged(Pending(ms), m)
  }

  function Dispatches(ms: seq<AudioInput>): seq<Dispatch> {
    if ms == [] then []
    else Dispatches(ms[..|ms| - 1]) + [DispatchOf(ms[..|ms| - 1], ms[|ms| - 1])]
  }

  /** The utterances handed to processing tasks, in order. */
  function Utterances(ms: seq<AudioInput>): seq<Utterance> {
    if ms == [] then []
    else
      var d := DispatchOf(ms[..|ms| - 1], ms[|ms| - 1]);
      Utterances(ms[..|ms| - 1]) + (if d.Process? then [d.utterance] else [])
  }

  /** The PCM that a message carries. */
  function PcmIn(m: AudioInput): seq<byte> {
    if m.audio.Pcm? then m.audio.bytes else []
  }

  /** The bytes that a stretch of messages adds, one after the other: those of START and CONTINUE. */
  function BytesOf(ms: seq<AudioInput>): seq<byte> {
    if ms == [] then []
    else
      var m := ms[|ms| - 1];
      BytesOf(ms[..|ms| - 1]) + (if m.event == EventStart || m.event == EventContinue then PcmIn(m) else [])
  }

  /** Message `m`, coming after `ms`, leaves nothing pending: it ends or interrupts an utterance,
      or overflows the buffer. */
  predicate Empties(ms: seq<AudioInput>, m: AudioInput) {
    m.event == EventEnd || m.event == EventInterrupt || Overflows(|Pending(ms)|, m)
  }

  /** The message with which the utterance in the making begins: the last START, or the first
      after whatever last left nothing pending. */
  function Beginning(ms: seq<AudioInput>): (k: nat)
    ensures k <= |ms|
  {
    if ms == [] then 0
    else
      var before, m := ms[..|ms| - 1], ms[|ms| - 1];
      if Empties(before, m) then |ms| else if m.event == EventStart then |ms| - 1 else Beginning(before)
  }

  /** From the beginning on nothing empties the buffer, and no other utterance starts. */
  lemma {:induction false} NothingSince(ms: seq<AudioInput>, i: nat)
    requires Beginning(ms) <= i < |ms|
    ensures !Empties(ms[..i], ms[i]) && (i > Beginning(ms) ==> ms[i].event != EventStart)
  {
    hide Empties;
    var before, m := ms[..|ms| - 1], ms[|ms| - 1];
    if i < |ms| - 1 {
      assert before[..i] == ms[..i];
      NothingSince(before, i);
    }
  }

  /** The pending audio is the bytes of all messages since the last START, END, interrupt or
      overflow, and nothing else. */
  lemma {:induction false} PendingIsGathered(ms: seq<AudioInput>)
    ensures Pending(ms) == BytesOf(ms[Beginning(ms)..])
  {
    NoBytes();
    if ms != [] {
      var before, m := ms[..|ms| - 1], ms[|ms| - 1];
      var b := Beginning(before);
      assert ms == before + [m];
      hide BytesOf, Pending, Gathered, Empties, Bytes, Beginning;
      PendingIsGathered(before);
      PendingStep(before, m);
      OneMore(before, m);
      BeginningStep(before, m);
      if Empties(before, m) {
        assert ms[|ms|..] == [];
      } else if m.event == EventStart {
        assert ms[|ms| - 1..] == [] + [m];
        BytesSnoc([], m);
      } else {
        assert ms[b..] == before[b..] + [m];
        BytesSnoc(before[b..], m);
      }
    }
  }

  /** What is made of a message, for every history: an interrupt always is one; an END completes
      the utterance of all bytes gathered since its beginning and its own, processed if and only
      if it lasts 450 ms; a CONTINUE whose bytes would make more than 6 MiB of these overflows;
      nothing else is ever made of any message. */
  lemma JudgedExactly(ms: seq<AudioInput>, m: AudioInput)
    ensures
      var d, gathered, pcm := DispatchOf(ms, m), BytesOf(ms[Beginning(ms)..]), PcmIn(m);
      var rate: u32 := if m.sampleRate == 0 then 48000 else m.sampleRate;
      var long := (|gathered + pcm| / 2) * 1000 >= 450 * rate as nat;
      match m.event
      case EventInterrupt => d == Interrupt
      case EventEnd =>
        d == if long then Process(Utterance(gathered + pcm, rate, m.deviceId, m.conversationId)) else TooShort
      case EventContinue => d == if pcm != [] && |gathered| + |pcm| > 6 * 1024 * 1024 then Overflow else Quiet
      case _ => d == Quiet
  {
    PendingIsGathered(ms);
    hide BytesOf, Pending, Beginning, LongEnough;
    LongEnoughExactly(Completed(Pending(ms), m));
  }

  lemma BeginningStep(before: seq<AudioInput>, m: AudioInput)
    ensures Beginning(before + [m]) ==
            if Empties(before, m) then |before| + 1 else if m.event == EventStart then |before| else Beginning(before)
  {
    assert (before + [m])[..|before|] == before;
    hide Empties;
  }

  lemma OneMore(before: seq<AudioInput>, m: AudioInput)
    ensures Gathered(Pending(before), m) ==
            if Empties(before, m) then []
            else if m.event == EventStart then [] + Bytes(m)
            else Pending(before) + (if m.event == EventContinue then Bytes(m) else [])
  {
  }

  lemma NoBytes()
    ensures BytesOf([]) == []
  {
  }

  lemma BytesSnoc(ms: seq<AudioInput>, m: AudioInput)
    ensures BytesOf(ms + [m]) == BytesOf(ms) + (if m.event == EventStart || m.event == EventContinue then Bytes(m) else [])
  {
    assert (ms + [m])[..|ms|] == ms;
  }

  lemma PendingStep(before: seq<AudioInput>, m: AudioInput)
    ensures Pending(before + [m]) == Gathered(Pending(before), m)
  {
    assert (before + [m])[..|before|] == before;
  }

  class StreamReader {
    var audioBuffer: seq<byte>
    var deviceId: string
    var conversationId: string
    var inputSampleRate: u32
    /** Every message read so far. */
    ghost var read: seq<AudioInput>

    ghost predicate Valid()
      reads this
    {
      audioBuffer == Pending(read)
    }

    constructor ()
      ensures Valid() && read == []
    {
      audioBuffer, deviceId, conversationId, inputSampleRate := [], "", "", 48000;
      read := [];
    }

    method OnInput(m: AudioInput) returns (d: Dispatch)
      requires Valid()
      modifies this
      ensures Valid() && read == old(read) + [m]
      ensures d == DispatchOf(old(read), m)
      ensures deviceId == m.deviceId && conversationId == m.conversationId
    {
      hide PcmDurationMs;
      ghost var before, pending := read, audioBuffer;
      deviceId := m.deviceId;
      conversationId := m.conversationId;
      inputSampleRate := if m.sampleRate != 0 then m.sampleRate else 48000;
      var pcm := Bytes(m);
      match m.event {
        case EventStart =>
          audioBuffer := [];
          if pcm != [] {
            audioBuffer := audioBuffer + pcm;
          }
          d := Quiet;
        case EventContinue =>
          d := Quiet;
          if pcm != [] {
            if |audioBuffer| + |pcm| > MAX_AUDIO_BUFFER_BYTES {
              audioBuffer := [];
              d := Overflow;
            } else {
              audioBuffer := audioBuffer + pcm;
            }
          }
        case EventEnd =>
          if pcm != [] {
            audioBuffer := audioBuffer + pcm;
          }
          if PcmDurationMs(|audioBuffer|, inputSampleRate) < MIN_UTTERANCE_DURATION_MS {
            d := TooShort;
          } else {
            d := Process(Utterance(audioBuffer, inputSampleRate, deviceId, conversationId));
          }
          audioBuffer := [];
        case EventInterrupt =>
          audioBuffer := [];
          d := Interrupt;
        case EventUnknown =>
          d := Quiet;
      }
      assert audioBuffer == Gathered(pending, m) && d == Judged(pending, m);
      read := read + [m];
      assert read[..|read| - 1] == before;
    }
  }
}
