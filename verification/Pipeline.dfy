/** The utterance path end to end: microphone, gate, relay, send loop, server reader. */
module Pipeline {
  import opened Audio
  import opened Vad
  import opened Device
  import opened Grpc
  import opened Service
  import StreamProtocol

  type Configs = map<string, DeviceAudioConfig>

  /** One device session: who it belongs to and what its gate heard. */
  datatype DeviceSession = DeviceSession(deviceId: string, conversationId: string, heard: seq<Heard>)

  /** An unbroken stretch of a session's frames: an utterance, with the closing END if the session
      ends in it, or the closing END by itself. */
  datatype Part = Speech(g: Segment) | Closing

  /** Part of the session with number `k`. */
  datatype Block = Block(k: nat, part: Part)

  ghost predicate Fits(sessions: seq<DeviceSession>, b: Block) {
    b.k < |sessions| && (b.part.Speech? ==> b.part.g.start + 2 <= b.part.g.stop <= |sessions[b.k].heard|)
  }

  ghost predicate AllFit(sessions: seq<DeviceSession>, blocks: seq<Block>) {
    forall i :: 0 <= i < |blocks| ==> Fits(sessions, blocks[i])
  }

  ghost function PartMarks(s: DeviceSession, part: Part): seq<Mark>
    requires part.Speech? ==> part.g.start + 2 <= part.g.stop <= |s.heard|
  {
    match part
    case Closing => [CLOSING]
    case Speech(g) => MarkSegment(s.heard, g) + (if g.closed then [] else [CLOSING])
  }

  /** The bus after sessions whose frames alternate block by block. */
  ghost function Traffic(sessions: seq<DeviceSession>, blocks: seq<Block>): seq<TaggedFrame>
    requires AllFit(sessions, blocks)
  {
    if blocks == [] then []
    else
      var b := blocks[|blocks| - 1];
      var s := sessions[b.k];
      Traffic(sessions, blocks[..|blocks| - 1]) + Tag(s.deviceId, s.conversationId, PartMarks(s, b.part))
  }

  /** The segments one by one, and the closing END by itself unless it completes the last. */
  ghost function Speeches(segs: seq<Segment>): seq<Part> {
    if segs == [] then [] else Speeches(segs[..|segs| - 1]) + [Speech(segs[|segs| - 1])]
  }

  ghost function PartsOf(s: DeviceSession, cfg: VadConfig): seq<Part> {
    var segs := Segments(s.heard, cfg);
    Speeches(segs) + (if Settled(segs) then [Closing] else [])
  }

  /** The parts of session `k` among the blocks. */
  function Own(blocks: seq<Block>, k: nat): seq<Part> {
    if blocks == [] then []
    else
      var b := blocks[|blocks| - 1];
      Own(blocks[..|blocks| - 1], k) + (if b.k == k then [b.part] else [])
  }

  /** The blocks are those of the sessions, each session's in its order, however the sessions
      overlap: only no frame of another session comes between the frames of an utterance. */
  ghost predicate Carries(sessions: seq<DeviceSession>, cfg: VadConfig, blocks: seq<Block>) {
    && (forall b :: b in blocks ==> b.k < |sessions|)
    && (forall k :: 0 <= k < |sessions| ==> Own(blocks, k) == PartsOf(sessions[k], cfg))
  }

  /** The concatenated PCM of a stretch of frames. */
  function PcmOf(h: seq<Heard>): seq<byte> {
    if h == [] then [] else PcmOf(h[..|h| - 1]) + h[|h| - 1].frame.data
  }

  /** A segment as the utterance it should become. One cut short by the end of its session
      is completed by the closing frame, which has no sample rate of its own. */
  function AsUtterance(s: DeviceSession, g: Segment): Utterance
    requires g.start < g.stop <= |s.heard|
  {
    var rate := s.heard[g.stop - 1].frame.sampleRate;
    Utterance(PcmOf(s.heard[g.start..g.stop]),
              if g.closed && rate != 0 then rate else DEFAULT_SAMPLE_RATE,
              s.deviceId, s.conversationId)
  }

  predicate InBounds(s: DeviceSession, segs: seq<Segment>) {
    forall g :: g in segs ==> g.start + 2 <= g.stop <= |s.heard|
  }

  /** The utterances a session should produce: its segments, in order, without those
      shorter than the minimum duration. */
  ghost function Spoken(s: DeviceSession, segs: seq<Segment>): seq<Utterance>
    requires InBounds(s, segs)
  {
    if segs == [] then []
    else
      var u := AsUtterance(s, segs[|segs| - 1]);
      Spoken(s, segs[..|segs| - 1]) + (if LongEnough(u) then [u] else [])
  }

  ghost function SpokenBy(s: DeviceSession, cfg: VadConfig): seq<Utterance> {
    SegmentsShape(s.heard, cfg, 0);
    Spoken(s, Segments(s.heard, cfg))
  }

  function IfLong(u: Utterance): seq<Utterance> {
    if LongEnough(u) then [u] else []
  }

  function OwedFor(s: DeviceSession, part: Part): seq<Utterance>
    requires part.Speech? ==> part.g.start + 2 <= part.g.stop <= |s.heard|
  {
    if part.Closing? then [] else IfLong(AsUtterance(s, part.g))
  }

  /** What all the blocks owe, in the order in which they come. */
  ghost function Owed(sessions: seq<DeviceSession>, blocks: seq<Block>): seq<Utterance>
    requires AllFit(sessions, blocks)
  {
    if blocks == [] then []
    else
      var b := blocks[|blocks| - 1];
      Owed(sessions, blocks[..|blocks| - 1]) + OwedFor(sessions[b.k], b.part)
  }

  /** The part of it that is owed to session `k`. */
  ghost function OwedTo(sessions: seq<DeviceSession>, blocks: seq<Block>, k: nat): seq<Utterance>
    requires AllFit(sessions, blocks)
  {
    if blocks == [] then []
    else
      var b := blocks[|blocks| - 1];
      OwedTo(sessions, blocks[..|blocks| - 1], k) + (if b.k == k then OwedFor(sessions[b.k], b.part) else [])
  }

  /** Frame `i` would take the audio of its segment over the server's buffer. */
  predicate TooMuch(h: seq<Heard>, g: Segment, i: nat)
    requires g.start <= i < |h|
  {
    h[i].frame.data != [] && |PcmOf(h[g.start..i + 1])| > MAX_AUDIO_BUFFER_BYTES
  }

  /** One of the first `n` frames, other than the one that starts the segment, does. */
  ghost predicate Overrun(h: seq<Heard>, g: Segment, n: nat)
    requires g.start + n <= |h|
  {
    exists i :: g.start < i < g.start + n && TooMuch(h, g, i)
  }

  /** The frames before the one that ends a segment; the closing frame ends an open one. */
  function Gathering(g: Segment): nat
    requires g.start < g.stop
  {
    g.stop - g.start - (if g.closed then 1 else 0)
  }

  /** No frame forwarded as Continue finds the buffer too full, or the segment is too short
      to be processed whatever happens to it. */
  ghost predicate Survives(s: DeviceSession, g: Segment)
    requires g.start < g.stop <= |s.heard|
  {
    LongEnough(AsUtterance(s, g)) ==> !Overrun(s.heard, g, Gathering(g))
  }

  ghost predicate PartSurvives(s: DeviceSession, part: Part)
    requires part.Speech? ==> part.g.start + 2 <= part.g.stop <= |s.heard|
  {
    part.Speech? ==> Survives(s, part.g)
  }

  /** No segment that is to be processed overruns the server's buffer. */
  ghost predicate NoOverflow(sessions: seq<DeviceSession>, blocks: seq<Block>)
    requires AllFit(sessions, blocks)
  {
    blocks == [] ||
    var b := blocks[|blocks| - 1];
    (NoOverflow(sessions, blocks[..|blocks| - 1]) && PartSurvives(sessions[b.k], b.part))
  }

  /** What the server has made of the stream so far. */
  datatype Reading = Reading(pending: seq<byte>, utterances: seq<Utterance>)

  function ReadingOf(frames: seq<TaggedFrame>, configs: Configs): Reading {
    Reading(Pending(Wire(frames, configs)), Utterances(Wire(frames, configs)))
  }

  /** The server's reading after one more frame of session `s`. */
  function Hear(r: Reading, s: DeviceSession, m: Mark): Reading {
    match m.event
    case Start => r.(pending := m.frame.data)
    case Continue =>
      r.(pending := if m.frame.data != [] && |r.pending| + |m.frame.data| > MAX_AUDIO_BUFFER_BYTES then []
                    else r.pending + m.frame.data)
    case End =>
      var u := Utterance(r.pending + m.frame.data, SampleRate(m.frame.sampleRate), s.deviceId, s.conversationId);
      Reading([], r.utterances + (if LongEnough(u) then [u] else []))
  }

  function HearAll(r: Reading, s: DeviceSession, ms: seq<Mark>): Reading {
    if ms == [] then r else Hear(HearAll(r, s, ms[..|ms| - 1]), s, ms[|ms| - 1])
  }

  function Size(us: seq<Utterance>): nat {
    if us == [] then 0 else Size(us[..|us| - 1]) + |us[|us| - 1].audio|
  }

  /** Either processing got exactly what it should, or bytes are missing. */
  predicate Outcome(got: seq<Utterance>, owed: seq<Utterance>, ok: bool) {
    if ok then got == owed else Size(got) < Size(owed)
  }

  lemma {:induction false} SizeAppend(a: seq<Utterance>, b: seq<Utterance>)
    ensures Size(a + b) == Size(a) + Size(b)
  {
    if b == [] {
      assert a + b == a;
    } else {
      assert (a + b)[..|a + b| - 1] == a + b[..|b| - 1];
      SizeAppend(a, b[..|b| - 1]);
    }
  }

  lemma OutcomesAppend(got: seq<Utterance>, owed: seq<Utterance>, ok: bool,
                       got': seq<Utterance>, owed': seq<Utterance>, ok': bool)
    requires Outcome(got, owed, ok) && Outcome(got', owed', ok')
    ensures Outcome(got + got', owed + owed', ok && ok')
  {
    SizeAppend(got, got');
    SizeAppend(owed, owed');
  }

  /** The bytes frozen for the processing tasks of a stream are, one for one and in order,
      those of the gate's segments that last long enough, exactly if none of these overflows
      the server's buffer; no audio is left pending. (Blocks of sessions fit: EachSessionsOwn.) */
  lemma UtteranceIntegrity(sessions: seq<DeviceSession>, cfg: VadConfig, blocks: seq<Block>, configs: Configs)
    requires Carries(sessions, cfg, blocks) && AllFit(sessions, blocks)
    ensures
      var r := ReadingOf(Traffic(sessions, blocks), configs);
      r.pending == [] && (r.utterances == Owed(sessions, blocks) <==> NoOverflow(sessions, blocks))
  {
    hide Carries, Traffic, Owed, NoOverflow, ReadingOf;
    var got := TrafficHeard(sessions, blocks, configs);
  }

  /** What is owed is each session's own segments, in their order. */
  lemma EachSessionsOwn(sessions: seq<DeviceSession>, cfg: VadConfig, blocks: seq<Block>, k: nat)
    requires Carries(sessions, cfg, blocks) && k < |sessions|
    ensures AllFit(sessions, blocks) && OwedTo(sessions, blocks, k) == SpokenBy(sessions[k], cfg)
  {
    CarriedFits(sessions, cfg, blocks);
    hide SpokenBy, OwedTo, PartsOf;
    SegmentsFit(sessions[k], cfg);
    OwedToOwn(sessions, blocks, k);
    PartsOwe(sessions[k], cfg);
  }

  lemma {:induction false} TrafficHeard(sessions: seq<DeviceSession>, blocks: seq<Block>, configs: Configs)
    returns (got: seq<Utterance>)
    requires AllFit(sessions, blocks)
    ensures ReadingOf(Traffic(sessions, blocks), configs) == Reading([], got)
    ensures Outcome(got, Owed(sessions, blocks), NoOverflow(sessions, blocks))
  {
    got := [];
    if blocks != [] {
      var before, b := blocks[..|blocks| - 1], blocks[|blocks| - 1];
      var s := sessions[b.k];
      got := TrafficHeard(sessions, before, configs);
      hide HearAll, PartMarks, OwedFor, PartSurvives, Wire, Tag, Outcome, ReadingOf;
      HearTagged(Traffic(sessions, before), s, PartMarks(s, b.part), configs);
      var more := PartIsHeard(got, s, b.part);
      OutcomesAppend(got, Owed(sessions, before), NoOverflow(sessions, before), more, OwedFor(s, b.part), PartSurvives(s, b.part));
      got := got + more;
    }
  }

  lemma PartIsHeard(us: seq<Utterance>, s: DeviceSession, part: Part) returns (got: seq<Utterance>)
    requires part.Speech? ==> part.g.start + 2 <= part.g.stop <= |s.heard|
    ensures HearAll(Reading([], us), s, PartMarks(s, part)) == Reading([], us + got)
    ensures Outcome(got, OwedFor(s, part), PartSurvives(s, part))
  {
    hide HearAll, MarkSegment, LongEnough, Survives, AsUtterance, Hear;
    match part {
      case Closing =>
        got := [];
        NothingHeard(us, s);
        HearSnoc(Reading([], us), s, [], CLOSING);
        assert [] + [CLOSING] == [CLOSING] && us + [] == us;
        NothingToClose(us, s);
      case Speech(g) =>
        hide Outcome;
        if g.closed {
          got := SegmentHeard(us, s, g);
          assert MarkSegment(s.heard, g) + [] == MarkSegment(s.heard, g);
        } else {
          got := OpenClosing(us, s, g);
        }
    }
  }

  // ---- Sessions and their blocks ----

  lemma SegmentsFit(s: DeviceSession, cfg: VadConfig)
    ensures InBounds(s, Segments(s.heard, cfg)) && PartsFit(s, PartsOf(s, cfg))
  {
    var segs := Segments(s.heard, cfg);
    SegmentsShape(s.heard, cfg, 0);
    SpeechesFit(s, segs);
  }

  ghost predicate PartsFit(s: DeviceSession, parts: seq<Part>) {
    forall p: Part :: p in parts && p.Speech? ==> p.g.start + 2 <= p.g.stop <= |s.heard|
  }

  lemma {:induction false} SpeechesFit(s: DeviceSession, segs: seq<Segment>)
    requires InBounds(s, segs)
    ensures PartsFit(s, Speeches(segs))
  {
    if segs != [] {
      SpeechesFit(s, segs[..|segs| - 1]);
    }
  }

  lemma {:induction false} OwnHas(blocks: seq<Block>, b: Block)
    requires b in blocks
    ensures b.part in Own(blocks, b.k)
  {
    if b != blocks[|blocks| - 1] {
      assert b in blocks[..|blocks| - 1];
      OwnHas(blocks[..|blocks| - 1], b);
    }
  }

  lemma CarriedFits(sessions: seq<DeviceSession>, cfg: VadConfig, blocks: seq<Block>)
    requires Carries(sessions, cfg, blocks)
    ensures AllFit(sessions, blocks)
  {
    hide PartsOf, Own;
    forall i | 0 <= i < |blocks| ensures Fits(sessions, blocks[i]) {
      var b := blocks[i];
      OwnHas(blocks, b);
      SegmentsFit(sessions[b.k], cfg);
    }
  }

  ghost function OwedForAll(s: DeviceSession, parts: seq<Part>): seq<Utterance>
    requires PartsFit(s, parts)
  {
    if parts == [] then [] else OwedForAll(s, parts[..|parts| - 1]) + OwedFor(s, parts[|parts| - 1])
  }

  lemma OwedSnoc(s: DeviceSession, parts: seq<Part>, p: Part)
    requires PartsFit(s, parts + [p])
    ensures PartsFit(s, parts)
    ensures OwedForAll(s, parts + [p]) == OwedForAll(s, parts) + OwedFor(s, p)
  {
    assert forall q :: q in parts ==> q in parts + [p];
    assert (parts + [p])[..|parts|] == parts;
  }

  lemma {:induction false} OwedToOwn(sessions: seq<DeviceSession>, blocks: seq<Block>, k: nat)
    requires AllFit(sessions, blocks) && k < |sessions| && PartsFit(sessions[k], Own(blocks, k))
    ensures OwedTo(sessions, blocks, k) == OwedForAll(sessions[k], Own(blocks, k))
  {
    hide OwedFor, OwedForAll;
    if blocks == [] {
      NothingOwed(sessions[k]);
    } else {
      var before, b := blocks[..|blocks| - 1], blocks[|blocks| - 1];
      if b.k == k {
        OwedSnoc(sessions[k], Own(before, k), b.part);
      } else {
        assert Own(blocks, k) == Own(before, k);
        assert OwedTo(sessions, blocks, k) == OwedTo(sessions, before, k);
      }
      OwedToOwn(sessions, before, k);
    }
  }

  lemma NothingOwed(s: DeviceSession)
    ensures OwedForAll(s, []) == []
  {
  }

  lemma PartsOwe(s: DeviceSession, cfg: VadConfig)
    requires PartsFit(s, PartsOf(s, cfg))
    ensures OwedForAll(s, PartsOf(s, cfg)) == SpokenBy(s, cfg)
  {
    var segs := Segments(s.heard, cfg);
    SegmentsFit(s, cfg);
    SpeechesFit(s, segs);
    SpeechesOwe(s, segs);
    hide OwedForAll, Spoken, Segments;
    if Settled(segs) {
      OwedSnoc(s, Speeches(segs), Closing);
    } else {
      assert Speeches(segs) + [] == Speeches(segs);
    }
  }

  lemma {:induction false} SpeechesOwe(s: DeviceSession, segs: seq<Segment>)
    requires InBounds(s, segs) && PartsFit(s, Speeches(segs))
    ensures OwedForAll(s, Speeches(segs)) == Spoken(s, segs)
  {
    hide LongEnough, AsUtterance, OwedForAll;
    if segs == [] {
      NothingOwed(s);
    } else {
      var init, g := segs[..|segs| - 1], segs[|segs| - 1];
      OwedSnoc(s, Speeches(init), Speech(g));
      SpeechesOwe(s, init);
    }
  }

  ghost function MarksOf(s: DeviceSession, parts: seq<Part>): seq<Mark>
    requires PartsFit(s, parts)
  {
    if parts == [] then [] else MarksOf(s, parts[..|parts| - 1]) + PartMarks(s, parts[|parts| - 1])
  }

  lemma MarksSnoc(s: DeviceSession, parts: seq<Part>, p: Part)
    requires PartsFit(s, parts + [p])
    ensures PartsFit(s, parts)
    ensures MarksOf(s, parts + [p]) == MarksOf(s, parts) + PartMarks(s, p)
  {
    assert forall q :: q in parts ==> q in parts + [p];
    assert (parts + [p])[..|parts|] == parts;
  }

  lemma SettledMarks(s: DeviceSession, segs: seq<Segment>)
    requires InBounds(s, segs) && (forall g :: g in segs ==> g.closed) && PartsFit(s, Speeches(segs) + [Closing])
    ensures MarksOf(s, Speeches(segs) + [Closing]) == MarkSegments(s.heard, segs) + [CLOSING]
  {
    hide MarksOf, MarkSegment, MarkSegments, Speeches;
    MarksSnoc(s, Speeches(segs), Closing);
    SpeechesMark(s, segs);
  }

  lemma OpenMarks(s: DeviceSession, whole: seq<Segment>, g: Segment)
    requires InBounds(s, whole) && (forall x :: x in whole ==> x.closed) && !g.closed
    requires PartsFit(s, Speeches(whole) + [Speech(g)])
    ensures MarksOf(s, Speeches(whole) + [Speech(g)]) == MarkSegments(s.heard, whole) + (MarkSegment(s.heard, g) + [CLOSING])
  {
    hide MarksOf, MarkSegment, MarkSegments, Speeches;
    MarksSnoc(s, Speeches(whole), Speech(g));
    SpeechesMark(s, whole);
  }

  lemma OnlyLastOpen(s: DeviceSession, cfg: VadConfig)
    ensures
      var segs := Segments(s.heard, cfg);
      && InBounds(s, segs)
      && (segs != [] ==> forall g :: g in segs[..|segs| - 1] ==> g.closed)
  {
    SegmentsShape(s.heard, cfg, 0);
  }

  lemma SegmentsMark(s: DeviceSession, segs: seq<Segment>)
    requires InBounds(s, segs) && (segs != [] ==> forall g :: g in segs[..|segs| - 1] ==> g.closed)
    requires PartsFit(s, Speeches(segs) + (if Settled(segs) then [Closing] else []))
    ensures MarksOf(s, Speeches(segs) + (if Settled(segs) then [Closing] else [])) == MarkSegments(s.heard, segs) + [CLOSING]
  {
    hide MarksOf, MarkSegment;
    if Settled(segs) {
      SettledMarks(s, segs);
    } else {
      var whole, g := segs[..|segs| - 1], segs[|segs| - 1];
      assert Speeches(segs) + [] == Speeches(whole) + [Speech(g)];
      OpenMarks(s, whole, g);
      var a, b := MarkSegments(s.heard, whole), MarkSegment(s.heard, g);
      assert MarkSegments(s.heard, segs) == a + b;
      hide MarkSegments, Speeches;
      assert a + (b + [CLOSING]) == (a + b) + [CLOSING];
    }
  }

  /** The parts of a session, put together, are what its device task puts on an open bus. */
  lemma SessionIsItsParts(s: DeviceSession, cfg: VadConfig)
    ensures PartsFit(s, PartsOf(s, cfg))
    ensures MarksOf(s, PartsOf(s, cfg)) == Session(s.heard, cfg)
  {
    hide Segments, MarksOf, MarkSegments, MarkSegment, Speeches;
    SegmentsFit(s, cfg);
    OnlyLastOpen(s, cfg);
    SegmentsMark(s, Segments(s.heard, cfg));
  }

  lemma {:induction false} SpeechesMark(s: DeviceSession, segs: seq<Segment>)
    requires InBounds(s, segs) && PartsFit(s, Speeches(segs)) && forall g :: g in segs ==> g.closed
    ensures MarksOf(s, Speeches(segs)) == MarkSegments(s.heard, segs)
  {
    hide MarkSegment, MarksOf;
    if segs == [] {
      NoMarks(s);
    } else {
      var init, g := segs[..|segs| - 1], segs[|segs| - 1];
      MarksSnoc(s, Speeches(init), Speech(g));
      SpeechesMark(s, init);
      assert MarkSegment(s.heard, g) + [] == MarkSegment(s.heard, g);
    }
  }

  lemma NoMarks(s: DeviceSession)
    ensures MarksOf(s, []) == []
  {
  }

  /** The first `n` sessions one after the other: the simplest way in which blocks can come. */
  ghost function InTurn(sessions: seq<DeviceSession>, cfg: VadConfig, n: nat): seq<Block>
    requires n <= |sessions|
  {
    if n == 0 then [] else InTurn(sessions, cfg, n - 1) + BlocksOf(n - 1, PartsOf(sessions[n - 1], cfg))
  }

  function BlocksOf(k: nat, parts: seq<Part>): seq<Block> {
    if parts == [] then [] else BlocksOf(k, parts[..|parts| - 1]) + [Block(k, parts[|parts| - 1])]
  }

  lemma OwnSnoc(blocks: seq<Block>, b: Block, k: nat)
    ensures Own(blocks + [b], k) == Own(blocks, k) + (if b.k == k then [b.part] else [])
  {
    assert (blocks + [b])[..|blocks|] == blocks;
  }

  lemma {:induction false} BlocksAre(k: nat, parts: seq<Part>)
    ensures forall b :: b in BlocksOf(k, parts) ==> b.k == k
  {
    if parts != [] {
      BlocksAre(k, parts[..|parts| - 1]);
    }
  }

  lemma {:induction false} OwnAppend(a: seq<Block>, k: nat, n: nat, parts: seq<Part>)
    ensures Own(a + BlocksOf(n, parts), k) == Own(a, k) + (if n == k then parts else [])
  {
    hide Own;
    if parts == [] {
      assert a + BlocksOf(n, parts) == a;
    } else {
      var init, p := parts[..|parts| - 1], parts[|parts| - 1];
      var blocks := BlocksOf(n, init);
      assert a + BlocksOf(n, parts) == (a + blocks) + [Block(n, p)];
      assert parts == init + [p];
      hide BlocksOf;
      OwnAppend(a, k, n, init);
      OwnSnoc(a + blocks, Block(n, p), k);
    }
  }

  lemma {:induction false} InTurnOwn(sessions: seq<DeviceSession>, cfg: VadConfig, n: nat, k: nat)
    requires n <= |sessions| && k < |sessions|
    ensures Own(InTurn(sessions, cfg, n), k) == if k < n then PartsOf(sessions[k], cfg) else []
    ensures forall b :: b in InTurn(sessions, cfg, n) ==> b.k < n
  {
    hide PartsOf, BlocksOf, Own;
    if n == 0 {
      NothingOwn(k);
    } else {
      InTurnOwn(sessions, cfg, n - 1, k);
      OwnAppend(InTurn(sessions, cfg, n - 1), k, n - 1, PartsOf(sessions[n - 1], cfg));
      BlocksAre(n - 1, PartsOf(sessions[n - 1], cfg));
    }
  }

  lemma NothingOwn(k: nat)
    ensures Own([], k) == []
  {
  }

  lemma InTurnCarries(sessions: seq<DeviceSession>, cfg: VadConfig)
    ensures Carries(sessions, cfg, InTurn(sessions, cfg, |sessions|))
  {
    hide PartsOf, InTurn, Own;
    if sessions == [] {
      assert InTurn(sessions, cfg, 0) == [] by {
        NoTurn(sessions, cfg);
      }
    } else {
      forall k | 0 <= k < |sessions|
        ensures Own(InTurn(sessions, cfg, |sessions|), k) == PartsOf(sessions[k], cfg)
        ensures forall b :: b in InTurn(sessions, cfg, |sessions|) ==> b.k < |sessions|
      {
        InTurnOwn(sessions, cfg, |sessions|, k);
      }
      InTurnOwn(sessions, cfg, |sessions|, 0);
    }
  }

  lemma NoTurn(sessions: seq<DeviceSession>, cfg: VadConfig)
    ensures InTurn(sessions, cfg, 0) == []
  {
  }

  // ---- A part as the server hears it ----

  /** An utterance cut short, and the frame that closes it. */
  lemma {:induction false} OpenClosing(us: seq<Utterance>, s: DeviceSession, g: Segment) returns (got: seq<Utterance>)
    requires g.start + 2 <= g.stop <= |s.heard| && !g.closed
    ensures HearAll(Reading([], us), s, MarkSegment(s.heard, g) + [CLOSING]) == Reading([], us + got)
    ensures Outcome(got, IfLong(AsUtterance(s, g)), Survives(s, g))
  {
    hide LongEnough, PcmOf, Overrun, Outcome;
    var pending := PartHeard(us, s, g, g.stop - g.start);
    PartIsWhole(s.heard, g);
    hide MarkSegment;
    HearSnoc(Reading([], us), s, MarkSegment(s.heard, g), CLOSING);
    got := EndHeard(us, s, pending, CLOSING, AsUtterance(s, g), Overrun(s.heard, g, Gathering(g)));
  }

  lemma NothingHeard(us: seq<Utterance>, s: DeviceSession)
    ensures HearAll(Reading([], us), s, []) == Reading([], us)
  {
  }

  lemma NothingToClose(us: seq<Utterance>, s: DeviceSession)
    ensures Hear(Reading([], us), s, CLOSING) == Reading([], us)
  {
  }

  /** A closed segment becomes its utterance, if that is long enough and nothing was lost. */
  lemma {:induction false} SegmentHeard(us: seq<Utterance>, s: DeviceSession, g: Segment) returns (got: seq<Utterance>)
    requires g.start + 2 <= g.stop <= |s.heard| && g.closed
    ensures HearAll(Reading([], us), s, MarkSegment(s.heard, g)) == Reading([], us + got)
    ensures Outcome(got, IfLong(AsUtterance(s, g)), Survives(s, g))
  {
    hide LongEnough, PcmOf, Overrun, Outcome, AsUtterance, Survives;
    var n, last := g.stop - g.start - 1, Mark(s.heard[g.stop - 1].frame, End);
    var part := MarkSegment(s.heard, g)[..n];
    PartSnoc(s.heard, g, n, last);
    PartIsWhole(s.heard, g);
    hide MarkSegment, HearAll, Hear;
    var pending := PartHeard(us, s, g, n);
    HearSnoc(Reading([], us), s, part, last);
    got := LastFrameHeard(us, s, g, pending);
  }

  lemma LastFrameHeard(us: seq<Utterance>, s: DeviceSession, g: Segment, pending: seq<byte>) returns (got: seq<Utterance>)
    requires g.start + 2 <= g.stop <= |s.heard| && g.closed
    requires
      var pcm := PcmOf(s.heard[g.start..g.stop - 1]);
      if Overrun(s.heard, g, Gathering(g)) then |pending| < |pcm| else pending == pcm
    ensures Hear(Reading(pending, us), s, Mark(s.heard[g.stop - 1].frame, End)) == Reading([], us + got)
    ensures Outcome(got, IfLong(AsUtterance(s, g)), Survives(s, g))
  {
    hide LongEnough, PcmOf, Overrun, Outcome, Hear;
    PcmSnoc(s.heard, g.start, g.stop - 1);
    got := EndHeard(us, s, pending, Mark(s.heard[g.stop - 1].frame, End), AsUtterance(s, g), Overrun(s.heard, g, Gathering(g)));
  }

  /** The end of an utterance of which `pending` was gathered: lost bytes can only make it
      shorter, so what was too short anyway is dropped all the same. */
  lemma EndHeard(us: seq<Utterance>, s: DeviceSession, pending: seq<byte>, m: Mark, owed: Utterance, lost: bool)
    returns (got: seq<Utterance>)
    requires m.event == End
    requires
      var u := Utterance(pending + m.frame.data, SampleRate(m.frame.sampleRate), s.deviceId, s.conversationId);
      if lost then |u.audio| < |owed.audio| && u.sampleRate == owed.sampleRate else u == owed
    ensures Hear(Reading(pending, us), s, m) == Reading([], us + got)
    ensures Outcome(got, IfLong(owed), LongEnough(owed) ==> !lost)
  {
    hide LongEnough;
    var u := Utterance(pending + m.frame.data, SampleRate(m.frame.sampleRate), s.deviceId, s.conversationId);
    got := IfLong(u);
    if lost {
      if LongEnough(u) {
        LongerIsLonger(u, owed);
      }
      assert [u][..0] == [] && [owed][..0] == [];
    }
  }

  lemma LongerIsLonger(u: Utterance, v: Utterance)
    requires u.sampleRate == v.sampleRate && |u.audio| <= |v.audio| && LongEnough(u)
    ensures LongEnough(v)
  {
    hide LongEnough;
    LongEnoughExactly(u);
    LongEnoughExactly(v);
  }

  /** After the first `n` frames of a segment, short of its end, the buffer holds their PCM,
      or less of it if they overran the buffer. */
  lemma {:induction false} PartHeard(us: seq<Utterance>, s: DeviceSession, g: Segment, n: nat) returns (pending: seq<byte>)
    requires g.start + 2 <= g.stop <= |s.heard|
    requires 1 <= n <= Gathering(g)
    ensures HearAll(Reading([], us), s, MarkSegment(s.heard, g)[..n]) == Reading(pending, us)
    ensures
      var pcm := PcmOf(s.heard[g.start..g.start + n]);
      if Overrun(s.heard, g, n) then |pending| < |pcm| else pending == pcm
  {
    hide LongEnough, Overrun, PcmOf, HearAll;
    var i := g.start + n - 1;
    var mark := Mark(s.heard[i].frame, if n == 1 then Start else Continue);
    PartSnoc(s.heard, g, n - 1, mark);
    var before := MarkSegment(s.heard, g)[..n - 1];
    hide MarkSegment;
    HearSnoc(Reading([], us), s, before, mark);
    PcmSnoc(s.heard, g.start, i);
    OverrunSnoc(s.heard, g, n);
    if n == 1 {
      FirstHeard(us, s, g);
      pending := mark.frame.data;
    } else {
      pending := PartHeard(us, s, g, n - 1);
      hide Gathering;
      pending := ContinueHeard(us, s, pending, mark, PcmOf(s.heard[g.start..i]), Overrun(s.heard, g, n - 1));
    }
  }

  lemma FirstHeard(us: seq<Utterance>, s: DeviceSession, g: Segment)
    requires g.start < g.stop <= |s.heard|
    ensures HearAll(Reading([], us), s, MarkSegment(s.heard, g)[..0]) == Reading([], us)
    ensures var data := s.heard[g.start].frame.data; PcmOf(s.heard[g.start..g.start]) + data == data
  {
    assert s.heard[g.start..g.start] == [];
  }

  lemma ContinueHeard(us: seq<Utterance>, s: DeviceSession, pending: seq<byte>, m: Mark, pcm: seq<byte>, lost: bool)
    returns (more: seq<byte>)
    requires m.event == Continue && if lost then |pending| < |pcm| else pending == pcm
    ensures Hear(Reading(pending, us), s, m) == Reading(more, us)
    ensures
      var all := pcm + m.frame.data;
      if lost || (m.frame.data != [] && |all| > MAX_AUDIO_BUFFER_BYTES) then |more| < |all| else more == all
  {
    more := Hear(Reading(pending, us), s, m).pending;
  }

  lemma OverrunSnoc(h: seq<Heard>, g: Segment, n: nat)
    requires 1 <= n && g.start + n <= |h|
    ensures Overrun(h, g, n) <==> n > 1 && (Overrun(h, g, n - 1) || TooMuch(h, g, g.start + n - 1))
  {
    hide TooMuch;
    if n > 1 && TooMuch(h, g, g.start + n - 1) {
      assert Overrun(h, g, n);
    }
  }

  lemma PartSnoc(h: seq<Heard>, g: Segment, i: nat, mark: Mark)
    requires g.start <= g.start + i < g.stop <= |h|
    requires mark == Mark(h[g.start + i].frame, if i == 0 then Start else if g.closed && i == g.stop - g.start - 1 then End else Continue)
    ensures MarkSegment(h, g)[..i + 1] == MarkSegment(h, g)[..i] + [mark]
  {
  }

  lemma PartIsWhole(h: seq<Heard>, g: Segment)
    requires g.start <= g.stop <= |h|
    ensures MarkSegment(h, g)[..g.stop - g.start] == MarkSegment(h, g)
  {
  }

  lemma PcmSnoc(h: seq<Heard>, from: nat, i: nat)
    requires from <= i < |h|
    ensures PcmOf(h[from..i + 1]) == PcmOf(h[from..i]) + h[i].frame.data
  {
    assert h[from..i + 1][..i - from] == h[from..i];
  }

  lemma HearSnoc(r: Reading, s: DeviceSession, ms: seq<Mark>, m: Mark)
    ensures HearAll(r, s, ms + [m]) == Hear(HearAll(r, s, ms), s, m)
  {
    assert (ms + [m])[..|ms|] == ms;
  }

  /** Reading what a session puts on the bus is hearing its marks one by one. */
  lemma {:induction false} HearTagged(frames: seq<TaggedFrame>, s: DeviceSession, ms: seq<Mark>, configs: Configs)
    ensures ReadingOf(frames + Tag(s.deviceId, s.conversationId, ms), configs) == HearAll(ReadingOf(frames, configs), s, ms)
  {
    if ms == [] {
      assert frames + Tag(s.deviceId, s.conversationId, ms) == frames;
    } else {
      var init, t := ms[..|ms| - 1], TaggedFrame(s.deviceId, s.conversationId, ms[|ms| - 1]);
      HearTagged(frames, s, init, configs);
      var before := frames + Tag(s.deviceId, s.conversationId, init);
      assert frames + Tag(s.deviceId, s.conversationId, ms) == before + [t];
      ReadSnoc(before, t, configs, s);
    }
  }

  lemma UtterancesSnoc(ms: seq<AudioInput>, m: AudioInput)
    ensures
      var d := Judged(Pending(ms), m);
      Utterances(ms + [m]) == Utterances(ms) + (if d.Process? then [d.utterance] else [])
  {
    assert (ms + [m])[..|ms|] == ms;
  }

  /** One message, as the reader takes it, is the frame it was made of. */
  lemma MessageHeard(r: Reading, s: DeviceSession, before: seq<TaggedFrame>, t: TaggedFrame, configs: Configs)
    requires t.deviceId == s.deviceId && t.conversationId == s.conversationId
    ensures
      var m := Input(before, t, configs);
      var d := Judged(r.pending, m);
      Hear(r, s, t.mark) == Reading(Gathered(r.pending, m), r.utterances + (if d.Process? then [d.utterance] else []))
  {
    hide LongEnough;
    assert r.pending + [] == r.pending && r.utterances + [] == r.utterances;
  }

  lemma ReadSnoc(frames: seq<TaggedFrame>, t: TaggedFrame, configs: Configs, s: DeviceSession)
    requires t.deviceId == s.deviceId && t.conversationId == s.conversationId
    ensures ReadingOf(frames + [t], configs) == Hear(ReadingOf(frames, configs), s, t.mark)
  {
    var ms, m := Wire(frames, configs), Input(frames, t, configs);
    assert (frames + [t])[..|frames|] == frames;
    assert Wire(frames + [t], configs) == ms + [m];
    hide Wire, Input, Pending, Utterances, Gathered, Judged, Hear;
    PendingStep(ms, m);
    UtterancesSnoc(ms, m);
    MessageHeard(ReadingOf(frames, configs), s, frames, t, configs);
  }

  // ---- A foreign END inside an utterance ----

  lemma {:induction false} PcmAppend(a: seq<Heard>, b: seq<Heard>)
    ensures PcmOf(a + b) == PcmOf(a) + PcmOf(b)
  {
    if b == [] {
      assert a + b == a;
    } else {
      assert (a + b)[..|a + b| - 1] == a + b[..|b| - 1];
      PcmAppend(a, b[..|b| - 1]);
    }
  }

  /** What follows a cut fits the buffer if the whole does. */
  lemma RestFits(h: seq<Heard>, g: Segment, from: nat, i: nat)
    requires g.start <= from <= i < |h| && !TooMuch(h, g, i)
    ensures h[i].frame.data == [] || |PcmOf(h[from..i + 1])| <= MAX_AUDIO_BUFFER_BYTES
  {
    assert h[g.start..i + 1] == h[g.start..from] + h[from..i + 1];
    PcmAppend(h[g.start..from], h[from..i + 1]);
  }

  /** From a cut after `n` frames on, the buffer gathers what follows, up to frame `m`. */
  lemma {:induction false} RestHeard(us: seq<Utterance>, s: DeviceSession, g: Segment, n: nat, m: nat)
    requires g.start + 2 <= g.stop <= |s.heard| && g.closed
    requires 1 <= n <= m <= Gathering(g) && !Overrun(s.heard, g, Gathering(g))
    ensures HearAll(Reading([], us), s, MarkSegment(s.heard, g)[n..m]) ==
            Reading(PcmOf(s.heard[g.start + n..g.start + m]), us)
    decreases m
  {
    hide LongEnough, PcmOf, HearAll;
    var i := g.start + m - 1;
    if n == m {
      NothingHeard(us, s);
      NoPcm();
      assert MarkSegment(s.heard, g)[n..m] == [] && s.heard[g.start + n..g.start + m] == [];
    } else {
      var mark := Mark(s.heard[i].frame, Continue);
      RestHeard(us, s, g, n, m - 1);
      assert MarkSegment(s.heard, g)[n..m] == MarkSegment(s.heard, g)[n..m - 1] + [mark];
      HearSnoc(Reading([], us), s, MarkSegment(s.heard, g)[n..m - 1], mark);
      PcmSnoc(s.heard, g.start + n, i);
      assert !TooMuch(s.heard, g, i);
      RestFits(s.heard, g, g.start + n, i);
    }
  }

  lemma NoPcm()
    ensures PcmOf([]) == []
  {
  }

  /** The closing END of a displaced session, put on the bus after the first `n` frames of another
      session's utterance, cuts that in two: the first piece is handed out under the displaced
      session's name and the default rate, the rest as the utterance, each if long enough. */
  lemma ForeignEndCuts(frames: seq<TaggedFrame>, us: seq<Utterance>, s: DeviceSession, other: DeviceSession,
                       g: Segment, n: nat, configs: Configs)
    requires ReadingOf(frames, configs) == Reading([], us)
    requires g.start + 2 <= g.stop <= |s.heard| && g.closed
    requires 1 <= n <= Gathering(g) && !Overrun(s.heard, g, Gathering(g))
    ensures
      var ms := MarkSegment(s.heard, g);
      var bus := frames + Tag(s.deviceId, s.conversationId, ms[..n]) + Tag(other.deviceId, other.conversationId, [CLOSING])
                 + Tag(s.deviceId, s.conversationId, ms[n..]);
      var first := Utterance(PcmOf(s.heard[g.start..g.start + n]), DEFAULT_SAMPLE_RATE, other.deviceId, other.conversationId);
      var rest := Utterance(PcmOf(s.heard[g.start + n..g.stop]), SampleRate(s.heard[g.stop - 1].frame.sampleRate),
                            s.deviceId, s.conversationId);
      ReadingOf(bus, configs) == Reading([], us + IfLong(first) + IfLong(rest))
  {
    var ms := MarkSegment(s.heard, g);
    var first := Utterance(PcmOf(s.heard[g.start..g.start + n]), DEFAULT_SAMPLE_RATE, other.deviceId, other.conversationId);
    hide MarkSegment, ReadingOf, Tag, HearAll, LongEnough, PcmOf, Hear, Overrun;
    HeadHeard(us, s, g, n);
    HearTagged(frames, s, ms[..n], configs);
    var busHead := frames + Tag(s.deviceId, s.conversationId, ms[..n]);
    HearTagged(busHead, other, [CLOSING], configs);
    ForeignEndHeard(us, other, PcmOf(s.heard[g.start..g.start + n]));
    var busCut := busHead + Tag(other.deviceId, other.conversationId, [CLOSING]);
    HearTagged(busCut, s, ms[n..], configs);
    RestEnds(us + IfLong(first), s, g, n);
  }

  lemma HeadHeard(us: seq<Utterance>, s: DeviceSession, g: Segment, n: nat)
    requires g.start + 2 <= g.stop <= |s.heard|
    requires 1 <= n <= Gathering(g) && !Overrun(s.heard, g, Gathering(g))
    ensures HearAll(Reading([], us), s, MarkSegment(s.heard, g)[..n]) == Reading(PcmOf(s.heard[g.start..g.start + n]), us)
  {
    FewerRun(s.heard, g, n);
    hide MarkSegment, HearAll, PcmOf, Overrun;
    var pending := PartHeard(us, s, g, n);
  }

  lemma ForeignEndHeard(us: seq<Utterance>, other: DeviceSession, pending: seq<byte>)
    ensures HearAll(Reading(pending, us), other, [CLOSING]) ==
            Reading([], us + IfLong(Utterance(pending, DEFAULT_SAMPLE_RATE, other.deviceId, other.conversationId)))
  {
    hide LongEnough;
    OneHeard(Reading(pending, us), other, CLOSING);
    assert pending + [] == pending;
  }

  lemma RestEnds(us: seq<Utterance>, s: DeviceSession, g: Segment, n: nat)
    requires g.start + 2 <= g.stop <= |s.heard| && g.closed
    requires 1 <= n <= Gathering(g) && !Overrun(s.heard, g, Gathering(g))
    ensures
      var rest := Utterance(PcmOf(s.heard[g.start + n..g.stop]), SampleRate(s.heard[g.stop - 1].frame.sampleRate),
                            s.deviceId, s.conversationId);
      HearAll(Reading([], us), s, MarkSegment(s.heard, g)[n..]) == Reading([], us + IfLong(rest))
  {
    hide PcmOf, HearAll, IfLong, Overrun, SampleRate;
    var len, frame := g.stop - g.start, s.heard[g.stop - 1].frame;
    RestGathered(us, s, g, n);
    MarkRest(s.heard, g, n);
    PcmEnds(s.heard, g.start + n, g.stop);
    var all, tail := MarkSegment(s.heard, g)[n..], MarkSegment(s.heard, g)[n..len - 1];
    var whole, pcm := PcmOf(s.heard[g.start + n..g.stop]), PcmOf(s.heard[g.start + n..g.stop - 1]);
    EndOfRest(us, s, all, tail, frame, whole, pcm);
  }

  lemma PcmEnds(h: seq<Heard>, from: nat, stop: nat)
    requires from < stop <= |h|
    ensures PcmOf(h[from..stop]) == PcmOf(h[from..stop - 1]) + h[stop - 1].frame.data
  {
    PcmSnoc(h, from, stop - 1);
  }

  lemma RestGathered(us: seq<Utterance>, s: DeviceSession, g: Segment, n: nat)
    requires g.start + 2 <= g.stop <= |s.heard| && g.closed
    requires 1 <= n <= Gathering(g) && !Overrun(s.heard, g, Gathering(g))
    ensures HearAll(Reading([], us), s, MarkSegment(s.heard, g)[n..g.stop - g.start - 1]) ==
            Reading(PcmOf(s.heard[g.start + n..g.stop - 1]), us)
  {
    hide HearAll, PcmOf, Overrun;
    RestHeard(us, s, g, n, g.stop - g.start - 1);
  }

  lemma EndOfRest(us: seq<Utterance>, s: DeviceSession, all: seq<Mark>, tail: seq<Mark>, frame: AudioFrame,
                  whole: seq<byte>, pcm: seq<byte>)
    requires all == tail + [Mark(frame, End)] && whole == pcm + frame.data
    requires HearAll(Reading([], us), s, tail) == Reading(pcm, us)
    ensures HearAll(Reading([], us), s, all) ==
            Reading([], us + IfLong(Utterance(whole, SampleRate(frame.sampleRate), s.deviceId, s.conversationId)))
  {
    hide HearAll, Hear, IfLong;
    HearSnoc(Reading([], us), s, tail, Mark(frame, End));
    HearEnd(us, s, pcm, frame);
  }

  lemma MarkRest(h: seq<Heard>, g: Segment, n: nat)
    requires g.start + 2 <= g.stop <= |h| && g.closed && n <= Gathering(g)
    ensures |MarkSegment(h, g)| == g.stop - g.start
    ensures MarkSegment(h, g)[n..] == MarkSegment(h, g)[n..g.stop - g.start - 1] + [Mark(h[g.stop - 1].frame, End)]
  {
  }

  lemma HearEnd(us: seq<Utterance>, s: DeviceSession, pending: seq<byte>, frame: AudioFrame)
    ensures Hear(Reading(pending, us), s, Mark(frame, End)) ==
            Reading([], us + IfLong(Utterance(pending + frame.data, SampleRate(frame.sampleRate), s.deviceId, s.conversationId)))
  {
  }

  lemma OneHeard(r: Reading, s: DeviceSession, m: Mark)
    ensures HearAll(r, s, [m]) == Hear(r, s, m)
  {
    assert [m][..0] == [];
  }

  lemma FewerRun(h: seq<Heard>, g: Segment, n: nat)
    requires g.start < g.stop <= |h| && n <= Gathering(g) && !Overrun(h, g, Gathering(g))
    ensures !Overrun(h, g, n)
  {
  }

  // ---- Down to the processing tasks ----

  lemma {:induction false} AskedIsUtterances(ms: seq<AudioInput>)
    ensures StreamProtocol.Asked(Dispatches(ms)) == Utterances(ms)
  {
    hide DispatchOf;
    if ms != [] {
      var before := ms[..|ms| - 1];
      AskedIsUtterances(before);
      StreamProtocol.AskedSnoc(Dispatches(before), DispatchOf(before, ms[|ms| - 1]));
    }
  }

  /** A stream that carried these sessions and was answered to its end ran one job per spoken
      utterance, in order, each on that utterance's own audio, exactly if nothing overflowed. */
  lemma EveryUtteranceProcessed(steps: seq<StreamProtocol.Step>, sessions: seq<DeviceSession>, cfg: VadConfig,
                                blocks: seq<Block>, configs: Configs)
    requires Carries(sessions, cfg, blocks) && AllFit(sessions, blocks)
    requires StreamProtocol.Run(steps).Some? && StreamProtocol.Run(steps).value.answered
    requires StreamProtocol.Run(steps).value.read == Dispatches(Wire(Traffic(sessions, blocks), configs))
    ensures StreamProtocol.Given(StreamProtocol.Run(steps).value.tasks) == Owed(sessions, blocks) <==> NoOverflow(sessions, blocks)
  {
    hide Carries, Wire, Traffic, Owed, NoOverflow;
    UtteranceIntegrity(sessions, cfg, blocks, configs);
    AskedIsUtterances(Wire(Traffic(sessions, blocks), configs));
    StreamProtocol.AnsweredInFull(steps);
  }
}
