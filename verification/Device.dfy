/** The hub's per-device relay task (hub/src/device.rs): the select loop around the
    voice-activity gate, and the tagging of forwarded frames.

    A session is driven by a script of wake-ups, one for each arm of the select that fired.
    Where the script ends, the transport's stream has ended. */
module Device {
  import opened Audio
  import opened Vad

  datatype SendOutcome = Sent | Failed | TimedOut

  datatype Wake =
    | Mic(heard: Heard)
    | StreamEnded
    | Tts(frame: TtsFrame, outcome: SendOutcome)
    | TtsClosed
    | Cancelled

  predicate EndsSession(w: Wake) {
    w.StreamEnded? || w.TtsClosed? || w.Cancelled? || (w.Tts? && w.outcome != Sent)
  }

  /** The wake-ups before the one that ends the session. */
  function Live(script: seq<Wake>): (r: seq<Wake>)
    ensures r <= script
    ensures forall w :: w in r ==> !EndsSession(w)
  {
    if script == [] || EndsSession(script[0]) then [] else [script[0]] + Live(script[1..])
  }

  function Mics(script: seq<Wake>): seq<Heard> {
    if script == [] then []
    else Mics(script[..|script| - 1]) + (match script[|script| - 1] case Mic(x) => [x] case _ => [])
  }

  function Voiced(script: seq<Wake>): seq<TtsFrame> {
    if script == [] then []
    else Voiced(script[..|script| - 1]) + (match script[|script| - 1] case Tts(f, _) => [f] case _ => [])
  }

  function Tag(deviceId: string, conversationId: string, marks: seq<Mark>): (r: seq<TaggedFrame>)
    ensures |r| == |marks|
    ensures forall i :: 0 <= i < |marks| ==> r[i] == TaggedFrame(deviceId, conversationId, marks[i])
  {
    if marks == [] then []
    else Tag(deviceId, conversationId, marks[..|marks| - 1]) + [TaggedFrame(deviceId, conversationId, marks[|marks| - 1])]
  }

  /** The empty frame that tells the server a session is over. */
  const CLOSING := Mark(AudioFrame([], 0, 0), End)

  /** All that a session puts on an open bus: its utterances, then one closing end. */
  ghost function Session(h: seq<Heard>, cfg: VadConfig): seq<Mark> {
    Forwarded(h, cfg) + [CLOSING]
  }

  /** The part of `s` that a bus accepts which closes after `limit` frames. */
  function Accepted<T>(limit: Option<nat>, s: seq<T>): seq<T> {
    if limit.None? || |s| <= limit.value then s else s[..limit.value]
  }

  class AudioBus {
    const limit: Option<nat>
    var sent: seq<TaggedFrame>

    ghost predicate Valid()
      reads this
    {
      limit.Some? ==> |sent| <= limit.value
    }

    constructor (limit: Option<nat>)
      ensures Valid() && this.limit == limit && sent == []
    {
      this.limit := limit;
      sent := [];
    }

    method Send(t: TaggedFrame) returns (ok: bool)
      requires Valid()
      modifies this
      ensures Valid()
      ensures sent == Accepted(limit, old(sent) + [t])
      ensures ok <==> sent == old(sent) + [t]
    {
      ok := limit.None? || |sent| < limit.value;
      if ok {
        sent := sent + [t];
      }
    }
  }

  datatype RelayState = Idle | Streaming

  class DeviceTask {
    const deviceId: string
    const conversationId: string
    const bus: AudioBus
    const vad: VadFilter
    var state: RelayState
    /** TTS frames that reached the device. */
    var played: seq<TtsFrame>
    var vadOnsets: nat
    var vadEnds: nat
    var framesForwarded: nat

    /** The relay streams exactly while the gate has an utterance open. */
    ghost predicate Valid()
      reads this, vad, bus
    {
      && vad.Valid() && bus.Valid()
      && (state == Streaming <==> vad.Open())
      && (state == Streaming <==> !Settled(Segments(vad.heard, vad.cfg)))
      && vadOnsets == |Segments(vad.heard, vad.cfg)|
      && vadEnds + (if state == Streaming then 1 else 0) == vadOnsets
    }

    constructor (deviceId: string, conversationId: string, cfg: VadConfig, bus: AudioBus)
      requires bus.Valid()
      ensures Valid() && fresh(vad) && this.bus == bus
      ensures this.deviceId == deviceId && this.conversationId == conversationId
      ensures vad.cfg == cfg && vad.heard == [] && played == [] && framesForwarded == 0
    {
      this.deviceId, this.conversationId, this.bus := deviceId, conversationId, bus;
      vad := new VadFilter(cfg);
      state, played := Idle, [];
      vadOnsets, vadEnds, framesForwarded := 0, 0, 0;
    }

    /** Pushes the frames in order, the first under `firstEvent` and the rest as Continue,
        up to where the bus closes. */
    method SendFrames(frames: seq<AudioFrame>, firstEvent: SpeechEvent) returns (ok: bool)
      requires bus.Valid()
      modifies bus
      ensures bus.Valid()
      ensures
        var wanted := old(bus.sent) + Tag(deviceId, conversationId, MarkFrames(frames, firstEvent));
        bus.sent == Accepted(bus.limit, wanted) && (ok <==> bus.sent == wanted)
    {
      ghost var tags := Tag(deviceId, conversationId, MarkFrames(frames, firstEvent));
      for i := 0 to |frames|
        invariant bus.Valid()
        invariant bus.sent == old(bus.sent) + tags[..i]
      {
        var event := if i == 0 then firstEvent else Continue;
        assert old(bus.sent) + tags[..i + 1] == old(bus.sent) + tags[..i] + [tags[i]];
        var sent := bus.Send(TaggedFrame(deviceId, conversationId, Mark(frames[i], event)));
        if !sent {
          return false;
        }
      }
      return true;
    }

    /** A microphone frame: whatever the gate decides to forward is forwarded, in either
        relay state; the Idle branch never swallows an emission. */
    method OnMic(x: Heard) returns (ok: bool)
      requires Valid()
      modifies this, vad, bus
      ensures Valid() && played == old(played)
      ensures vad.heard == old(vad.heard) + [x]
      ensures
        var wanted := old(bus.sent) + Tag(deviceId, conversationId, Marks(Decision(vad.heard, vad.cfg)));
        bus.sent == Accepted(bus.limit, wanted) && (ok <==> bus.sent == wanted)
      ensures ok ==> framesForwarded == old(framesForwarded) + |Marks(Decision(vad.heard, vad.cfg))|
    {
      hide Segments, Decision, VadFilter.Valid, VadFilter.Tracks;
      ghost var h := vad.heard;
      DecisionTells(h, h + [x], x, vad.cfg);
      var result := vad.Process(x);
      ok := true;
      match state {
        case Idle =>
          if result.Emit? && result.event == Start {
            state := Streaming;
            vadOnsets := vadOnsets + 1;
            ok := SendFrames(result.frames, Start);
            if ok {
              framesForwarded := framesForwarded + |result.frames|;
            }
          }
        case Streaming =>
          if result.Emit? {
            if result.event == End {
              state := Idle;
              vadEnds := vadEnds + 1;
            }
            ok := SendFrames(result.frames, result.event);
            if ok {
              framesForwarded := framesForwarded + |result.frames|;
            }
          }
      }
    }

    /** After the first `i` wake-ups nothing has been refused. */
    ghost predicate InSession(before: seq<TaggedFrame>, live: seq<Wake>, i: nat)
      requires i <= |live|
      reads this, vad, bus
    {
      && Valid()
      && vad.heard == Mics(live[..i]) && played == Voiced(live[..i])
      && bus.sent == Relayed(before, deviceId, conversationId, vad.heard, vad.cfg)
      && framesForwarded == |Forwarded(vad.heard, vad.cfg)|
    }

    /** The bus has closed, and holds what it would hold of the whole session. */
    ghost predicate ClosedUnder(before: seq<TaggedFrame>, live: seq<Wake>)
      reads this, vad, bus
    {
      var wanted := before + Tag(deviceId, conversationId, Session(Mics(live), vad.cfg));
      var closing := [TaggedFrame(deviceId, conversationId, CLOSING)];
      && Valid() && played <= Voiced(live)
      && Accepted(bus.limit, bus.sent + closing) == Accepted(bus.limit, wanted) != wanted
    }

    /** One wake-up that does not end the session by itself. */
    method OnWake(ghost before: seq<TaggedFrame>, ghost live: seq<Wake>, ghost i: nat, w: Wake) returns (open: bool)
      requires i < |live| && w == live[i] && !EndsSession(w)
      requires InSession(before, live, i)
      modifies this, vad, bus
      ensures if open then InSession(before, live, i + 1) else ClosedUnder(before, live)
    {
      hide Segments, Forwarded, Decision, Tag, Marks, Session, Relayed, VadFilter.Valid, VadFilter.Tracks, Mics, Voiced;
      HeardSnoc(live, i);
      open := true;
      match w {
        case Mic(x) =>
          RelayedSnoc(before, deviceId, conversationId, vad.heard, x, vad.cfg);
          open := OnMic(x);
          if !open {
            CutShort(bus.limit, before, deviceId, conversationId, vad.heard, live, i + 1, vad.cfg);
          }
        case Tts(frame, _) =>
          played := played + [frame];
        case _ =>
      }
    }

    /** A whole session. The bus receives the session's tagged frames as far as it stays
        open; with an open bus, every TTS frame before the end reaches the device. */
    method RunDevice(script: seq<Wake>)
      requires Valid() && vad.heard == [] && played == [] && framesForwarded == 0
      modifies this, vad, bus
      ensures Valid()
      ensures
        var wanted := old(bus.sent) + Tag(deviceId, conversationId, Session(Mics(Live(script)), vad.cfg));
        && bus.sent == Accepted(bus.limit, wanted)
        && played <= Voiced(Live(script))
        && (bus.sent == wanted ==>
              && played == Voiced(Live(script))
              && vad.heard == Mics(Live(script))
              && framesForwarded == |Forwarded(vad.heard, vad.cfg)|)
    {
      hide Segments, Forwarded, Decision, Tag, Session, Relayed, VadFilter.Valid, VadFilter.Tracks, Mics, Voiced, Live;
      ghost var before := bus.sent;
      ghost var live := Live(script);
      var i, open := 0, true;
      LiveEnds(script);
      NothingHeard();
      RelayedNothing(before, deviceId, conversationId, vad.cfg);
      while i < |script| && open
        invariant i <= |live| && if open then InSession(before, live, i) else ClosedUnder(before, live)
        decreases |script| - i, open
      {
        if EndsSession(script[i]) {
          break;
        }
        open := OnWake(before, live, i, script[i]);
        if open {
          i := i + 1;
        }
      }
      if open {
        assert live[..i] == live;
        SessionTags(before, deviceId, conversationId, Mics(live), vad.cfg);
      }
      var _ := bus.Send(TaggedFrame(deviceId, conversationId, CLOSING));
    }
  }

  /** The bus after relaying `h` with nothing refused. */
  ghost function Relayed(before: seq<TaggedFrame>, deviceId: string, conversationId: string,
                         h: seq<Heard>, cfg: VadConfig): seq<TaggedFrame> {
    before + Tag(deviceId, conversationId, Forwarded(h, cfg))
  }

  lemma RelayedNothing(before: seq<TaggedFrame>, deviceId: string, conversationId: string, cfg: VadConfig)
    ensures Relayed(before, deviceId, conversationId, [], cfg) == before && Forwarded([], cfg) == []
  {
    NoRoom([], cfg, 0);
  }

  lemma RelayedSnoc(before: seq<TaggedFrame>, deviceId: string, conversationId: string,
                    h: seq<Heard>, x: Heard, cfg: VadConfig)
    ensures
      var marks := Marks(Decision(h + [x], cfg));
      && Relayed(before, deviceId, conversationId, h + [x], cfg) ==
         Relayed(before, deviceId, conversationId, h, cfg) + Tag(deviceId, conversationId, marks)
      && |Forwarded(h + [x], cfg)| == |Forwarded(h, cfg)| + |marks|
  {
    hide Segments, Forwarded, Decision, Marks;
    ForwardedSnoc(h, x, cfg);
  }

  lemma SessionTags(before: seq<TaggedFrame>, deviceId: string, conversationId: string, h: seq<Heard>, cfg: VadConfig)
    ensures before + Tag(deviceId, conversationId, Session(h, cfg)) ==
            Relayed(before, deviceId, conversationId, h, cfg) + [TaggedFrame(deviceId, conversationId, CLOSING)]
  {
    hide Segments, Forwarded;
  }

  /** A session whose bus closes while `h` is being forwarded has sent what a full session
      would have sent on that bus. */
  lemma CutShort(limit: Option<nat>, before: seq<TaggedFrame>, deviceId: string, conversationId: string,
                 h: seq<Heard>, live: seq<Wake>, i: nat, cfg: VadConfig)
    requires i <= |live| && h == Mics(live[..i])
    requires
      var reached := Relayed(before, deviceId, conversationId, h, cfg);
      Accepted(limit, reached) != reached
    ensures
      var wanted := before + Tag(deviceId, conversationId, Session(Mics(live), cfg));
      var sent := Accepted(limit, Relayed(before, deviceId, conversationId, h, cfg));
      Accepted(limit, sent + [TaggedFrame(deviceId, conversationId, CLOSING)]) == Accepted(limit, wanted) != wanted
    ensures Voiced(live[..i]) <= Voiced(live)
  {
    hide Segments, Forwarded;
    MicsPrefix(live[..i], live);
    VoicedPrefix(live[..i], live);
    ForwardedPrefix(h, Mics(live), cfg);
    var some, all := Forwarded(h, cfg), Session(Mics(live), cfg);
    assert Tag(deviceId, conversationId, some) == Tag(deviceId, conversationId, all)[..|some|];
    hide Tag, Session;
    AcceptedPrefix(limit, before + Tag(deviceId, conversationId, some), before + Tag(deviceId, conversationId, all),
                   [TaggedFrame(deviceId, conversationId, CLOSING)]);
  }

  lemma AcceptedPrefix<T>(limit: Option<nat>, a: seq<T>, b: seq<T>, more: seq<T>)
    requires a <= b && Accepted(limit, a) != a
    ensures Accepted(limit, Accepted(limit, a) + more) == Accepted(limit, b) != b
  {
  }

  // ---- Scripts ----

  lemma {:induction false} LiveEnds(script: seq<Wake>)
    ensures |Live(script)| < |script| ==> EndsSession(script[|Live(script)|])
  {
    if script != [] && !EndsSession(script[0]) {
      LiveEnds(script[1..]);
    }
  }

  /** A session lasts as long as the device speaks and is spoken to: up to the first wake-up that
      is neither a microphone frame nor a reply that was sent. */
  lemma {:induction false} LivesAsLong(script: seq<Wake>)
    ensures
      var n := |Live(script)|;
      && n <= |script|
      && (forall i :: 0 <= i < n ==> script[i].Mic? || (script[i].Tts? && script[i].outcome == Sent))
      && (n < |script| ==> !script[n].Mic? && !(script[n].Tts? && script[n].outcome == Sent))
  {
    if script != [] && !EndsSession(script[0]) {
      LivesAsLong(script[1..]);
      assert forall i :: 0 < i < |script| ==> script[i] == script[1..][i - 1];
    }
  }

  lemma NothingHeard()
    ensures Mics([]) == [] && Voiced([]) == []
  {
  }

  lemma HeardSnoc(script: seq<Wake>, i: nat)
    requires i < |script|
    ensures Mics(script[..i + 1]) == Mics(script[..i]) + (match script[i] case Mic(x) => [x] case _ => [])
    ensures Voiced(script[..i + 1]) == Voiced(script[..i]) + (match script[i] case Tts(f, _) => [f] case _ => [])
  {
    assert script[..i + 1][..i] == script[..i];
  }

  lemma {:induction false} MicsPrefix(a: seq<Wake>, b: seq<Wake>)
    requires a <= b
    ensures Mics(a) <= Mics(b)
  {
    if a != b {
      assert a <= b[..|b| - 1];
      MicsPrefix(a, b[..|b| - 1]);
    }
  }

  lemma {:induction false} VoicedPrefix(a: seq<Wake>, b: seq<Wake>)
    requires a <= b
    ensures Voiced(a) <= Voiced(b)
  {
    if a != b {
      assert a <= b[..|b| - 1];
      VoicedPrefix(a, b[..|b| - 1]);
    }
  }

  // ---- What a session sends ----

  /** Hearing more never revises what was already forwarded. */
  lemma {:induction false} ForwardedPrefix(h: seq<Heard>, H: seq<Heard>, cfg: VadConfig)
    requires h <= H
    ensures Forwarded(h, cfg) <= Forwarded(H, cfg)
  {
    if h != H {
      var init, last := H[..|H| - 1], H[|H| - 1];
      assert init + [last] == H;
      ForwardedPrefix(h, init, cfg);
      ForwardedSnoc(init, last, cfg);
    }
  }

  /** Start, then one or more Continue. */
  ghost predicate Opening(ms: seq<Mark>) {
    |ms| >= 2 && ms[0].event == Start && forall i :: 1 <= i < |ms| ==> ms[i].event == Continue
  }

  /** An Opening, then End. */
  ghost predicate Turn(ms: seq<Mark>) {
    ms != [] && ms[|ms| - 1].event == End && Opening(ms[..|ms| - 1])
  }

  /** Any number of turns. */
  ghost predicate Turns(ms: seq<Mark>) {
    ms == [] || exists k :: 0 <= k < |ms| && Turns(ms[..k]) && Turn(ms[k..])
  }

  /** Complete turns, then perhaps an utterance cut short, then one closing End. */
  ghost predicate SessionParts(whole: seq<Mark>, cut: seq<Mark>, end: Mark) {
    Turns(whole) && (cut == [] || Opening(cut)) && end.event == End
  }

  ghost predicate SessionTrace(ms: seq<Mark>) {
    exists whole, cut, end :: SessionParts(whole, cut, end) && ms == whole + cut + [end]
  }

  lemma CutIsOpening(h: seq<Heard>, g: Segment)
    requires g.start + 2 <= g.stop <= |h| && !g.closed
    ensures Opening(MarkSegment(h, g))
  {
  }

  lemma SessionIsWellFormed(h: seq<Heard>, cfg: VadConfig)
    ensures SessionTrace(Session(h, cfg))
  {
    hide Segments, MarkSegment, Turns, Opening;
    SegmentsShape(h, cfg, 0);
    var segs := Segments(h, cfg);
    var whole := if Settled(segs) then segs else segs[..|segs| - 1];
    TurnsOf(h, whole);
    var cut := if Settled(segs) then [] else MarkSegment(h, segs[|segs| - 1]);
    if !Settled(segs) {
      CutIsOpening(h, segs[|segs| - 1]);
    }
    assert SessionParts(MarkSegments(h, whole), cut, CLOSING);
    assert MarkSegments(h, segs) == MarkSegments(h, whole) + cut;
    assert Session(h, cfg) == MarkSegments(h, whole) + cut + [CLOSING];
  }

  lemma {:induction false} TurnsOf(h: seq<Heard>, segs: seq<Segment>)
    requires forall g :: g in segs ==> g.start + 3 <= g.stop <= |h| && g.closed
    ensures Turns(MarkSegments(h, segs))
  {
    if segs != [] {
      var init, g := segs[..|segs| - 1], segs[|segs| - 1];
      TurnsOf(h, init);
      assert Turn(MarkSegment(h, g));
      TurnsSnoc(MarkSegments(h, init), MarkSegment(h, g));
    }
  }

  lemma TurnsSnoc(ms: seq<Mark>, turn: seq<Mark>)
    requires Turns(ms) && Turn(turn)
    ensures Turns(ms + turn)
  {
    assert (ms + turn)[..|ms|] == ms && (ms + turn)[|ms|..] == turn;
  }
}
