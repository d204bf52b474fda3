/** Values that cross component boundaries: frames, speech events and the tags
    that the hub puts on forwarded audio (hub/src/audio.rs). */
module Audio {

  newtype u32 = x: int | 0 <= x < 0x1_0000_0000

  newtype byte = x: int | 0 <= x < 256

  datatype Option<+T> = None | Some(value: T)

  /** One microphone frame. `data` is 16-bit little-endian PCM. */
  datatype AudioFrame = AudioFrame(data: seq<byte>, sampleRate: u32, timestamp: nat)

  datatype SpeechEvent = Start | Continue | End

  /** A frame with the speech event it is forwarded under. */
  datatype Mark = Mark(frame: AudioFrame, event: SpeechEvent)

  /** Synthesised audio on its way to a device. */
  datatype TtsFrame = TtsFrame(data: seq<byte>, sampleRate: u32, isFinal: bool, isOpus: bool)

  datatype TaggedFrame = TaggedFrame(deviceId: string, conversationId: string, mark: Mark)
}
