/** The hub's gRPC send loop (hub/src/grpc.rs): every frame of the bus becomes one
    numbered message, in order. */
module Grpc {
  import opened Audio

  datatype WireEvent = EventUnknown | EventStart | EventContinue | EventEnd | EventInterrupt

  /** The `audio` oneof of a message. */
  datatype Payload = Pcm(bytes: seq<byte>) | Opus(packet: seq<byte>) | Absent

  datatype AudioCodec = PcmS16le | OpusCodec

  datatype DeviceAudioConfig = DeviceAudioConfig(preferredOutputSampleRate: u32, supportedOutputCodecs: seq<string>)

  datatype SessionConfig = SessionConfig(preferredOutputSampleRate: u32, supportedOutputCodecs: seq<AudioCodec>)

  datatype AudioInput = AudioInput(
    deviceId: string,
    conversationId: string,
    audio: Payload,
    sampleRate: u32,
    timestamp: nat,
    sequenceNum: u32,
    event: WireEvent,
    sessionConfig: Option<SessionConfig>)

  function OnWire(e: SpeechEvent): WireEvent {
    match e
    case Start => EventStart
    case Continue => EventContinue
    case End => EventEnd
  }

  /** The codecs a device lists that the protocol knows, in the order it lists them. */
  function KnownCodecs(names: seq<string>): seq<AudioCodec> {
    if names == [] then []
    else KnownCodecs(names[..|names| - 1]) +
         (if names[|names| - 1] == "pcm_s16le" then [PcmS16le]
          else if names[|names| - 1] == "opus" then [OpusCodec] else [])
  }

  function BuildSessionConfig(configs: map<string, DeviceAudioConfig>, deviceId: string): Option<SessionConfig> {
    if deviceId in configs then
      Some(SessionConfig(configs[deviceId].preferredOutputSampleRate, KnownCodecs(configs[deviceId].supportedOutputCodecs)))
    else None
  }

  /** A device that has already begun an utterance on this stream. */
  predicate HasStarted(before: seq<TaggedFrame>, deviceId: string) {
    exists i :: 0 <= i < |before| && before[i].deviceId == deviceId && before[i].mark.event == Start
  }

  /** The message owed for frame `t` after the frames `before`: numbered by position modulo
      2^32, and carrying the device's config on its first START only. */
  function Input(before: seq<TaggedFrame>, t: TaggedFrame, configs: map<string, DeviceAudioConfig>): AudioInput {
    AudioInput(
      t.deviceId, t.conversationId,
      Pcm(t.mark.frame.data), t.mark.frame.sampleRate, t.mark.frame.timestamp,
      (|before| % 0x1_0000_0000) as u32,
      OnWire(t.mark.event),
      if t.mark.event == Start && !HasStarted(before, t.deviceId) then BuildSessionConfig(configs, t.deviceId) else None)
  }

  function Wire(frames: seq<TaggedFrame>, configs: map<string, DeviceAudioConfig>): (r: seq<AudioInput>)
    ensures |r| == |frames|
  {
    if frames == [] then []
    else
      var before := frames[..|frames| - 1];
      Wire(before, configs) + [Input(before, frames[|frames| - 1], configs)]
  }

  /** Drains the bus until it closes (`graceful`) or the outbound stream has taken `room`
      messages and refuses the next. */
  method SendLoop(frames: seq<TaggedFrame>, configs: map<string, DeviceAudioConfig>, room: Option<nat>)
    returns (out: seq<AudioInput>, graceful: bool)
    ensures graceful <==> room.None? || |frames| <= room.value
    ensures out == Wire(frames[..if graceful then |frames| else room.value], configs)
  {
    hide HasStarted, Wire, BuildSessionConfig;
    out := [];
    var sequence: u32 := 0;
    var configSent: set<string> := {};
    var i := 0;
    StartedNothing();
    NothingOnWire(configs);
    while i < |frames|
      invariant i <= |frames| && (room.Some? ==> i <= room.value)
      invariant out == Wire(frames[..i], configs)
      invariant sequence as int == i % 0x1_0000_0000
      invariant forall d :: d in configSent <==> HasStarted(frames[..i], d)
    {
      var tagged := frames[i];
      var sessionConfig: Option<SessionConfig> := None;
      if tagged.mark.event == Start && tagged.deviceId !in configSent {
        configSent := configSent + {tagged.deviceId};
        sessionConfig := BuildSessionConfig(configs, tagged.deviceId);
      }
      var msg := AudioInput(
        tagged.deviceId, tagged.conversationId,
        Pcm(tagged.mark.frame.data), tagged.mark.frame.sampleRate, tagged.mark.frame.timestamp,
        sequence, OnWire(tagged.mark.event), sessionConfig);
      sequence := if sequence == 0xFFFF_FFFF then 0 else sequence + 1;
      if room.Some? && i >= room.value {
        return out, false;
      }
      StartedSnoc(frames, i);
      WireSnoc(frames, i, configs);
      out := out + [msg];
      i := i + 1;
    }
    assert frames[..i] == frames;
    graceful := true;
  }

  /** What each message says: all of its frame, its place in the stream modulo 2^32, and the
      configuration if it is the first START of a device that has one. */
  lemma {:induction false} WireAt(frames: seq<TaggedFrame>, configs: map<string, DeviceAudioConfig>, i: nat)
    requires i < |frames|
    ensures
      var m, t := Wire(frames, configs)[i], frames[i];
      && m.deviceId == t.deviceId && m.conversationId == t.conversationId
      && m.audio == Pcm(t.mark.frame.data) && m.sampleRate == t.mark.frame.sampleRate
      && m.timestamp == t.mark.frame.timestamp && m.sequenceNum as int == i % 0x1_0000_0000
      && m.event == (match t.mark.event case Start => EventStart case Continue => EventContinue case End => EventEnd)
      && (m.sessionConfig.Some? <==>
            && t.mark.event == Start && t.deviceId in configs
            && forall j :: 0 <= j < i ==> !(frames[j].deviceId == t.deviceId && frames[j].mark.event == Start))
      && (m.sessionConfig.Some? ==>
            var offered := configs[t.deviceId];
            && m.sessionConfig.value.preferredOutputSampleRate == offered.preferredOutputSampleRate
            && (PcmS16le in m.sessionConfig.value.supportedOutputCodecs <==> "pcm_s16le" in offered.supportedOutputCodecs)
            && (OpusCodec in m.sessionConfig.value.supportedOutputCodecs <==> "opus" in offered.supportedOutputCodecs))
  {
    hide KnownCodecs;
    var before := frames[..|frames| - 1];
    if i < |before| {
      WireAt(before, configs, i);
    } else if frames[i].deviceId in configs {
      CodecsAreKnown(configs[frames[i].deviceId].supportedOutputCodecs);
    }
  }

  lemma {:induction false} CodecsAreKnown(names: seq<string>)
    ensures PcmS16le in KnownCodecs(names) <==> "pcm_s16le" in names
    ensures OpusCodec in KnownCodecs(names) <==> "opus" in names
    ensures |KnownCodecs(names)| <= |names|
  {
    if names != [] {
      CodecsAreKnown(names[..|names| - 1]);
      assert forall n :: n in names <==> n in names[..|names| - 1] || n == names[|names| - 1];
    }
  }

  lemma NothingOnWire(configs: map<string, DeviceAudioConfig>)
    ensures Wire([], configs) == []
  {
  }

  lemma WireSnoc(frames: seq<TaggedFrame>, i: nat, configs: map<string, DeviceAudioConfig>)
    requires i < |frames|
    ensures Wire(frames[..i + 1], configs) == Wire(frames[..i], configs) + [Input(frames[..i], frames[i], configs)]
  {
    assert frames[..i + 1][..i] == frames[..i];
  }

  lemma StartedNothing()
    ensures forall d :: !HasStarted([], d)
  {
  }

  lemma StartedSnoc(frames: seq<TaggedFrame>, i: nat)
    requires i < |frames|
    ensures forall d :: HasStarted(frames[..i + 1], d) <==>
              HasStarted(frames[..i], d) || (frames[i].deviceId == d && frames[i].mark.event == Start)
  {
    forall d
      ensures HasStarted(frames[..i + 1], d) <==>
              HasStarted(frames[..i], d) || (frames[i].deviceId == d && frames[i].mark.event == Start)
    {
      if HasStarted(frames[..i], d) {
        var k :| 0 <= k < i && frames[..i][k].deviceId == d && frames[..i][k].mark.event == Start;
        assert frames[..i + 1][k] == frames[..i][k];
      }
      if frames[i].deviceId == d && frames[i].mark.event == Start {
        assert frames[..i + 1][i] == frames[i];
      }
      if HasStarted(frames[..i + 1], d) {
        var k :| 0 <= k < i + 1 && frames[..i + 1][k].deviceId == d && frames[..i + 1][k].mark.event == Start;
        if k < i {
          assert frames[..i][k] == frames[..i + 1][k];
        }
      }
    }
  }
}
