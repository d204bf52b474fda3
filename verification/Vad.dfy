/** The hub's voice-activity gate (hub/src/vad.rs).

    The classifier behind it is foreign code, so each frame arrives here with the
    verdict it was given; the verdicts may be any sequence of booleans. */
module Vad {
  import opened Audio

  datatype VadConfig = VadConfig(onsetThreshold: u32, hangoverThreshold: u32)

  /** A frame and the classifier's verdict on it (an error counts as silence). */
  datatype Heard = Heard(frame: AudioFrame, speech: bool)

  datatype VadState = Silence | MaybeSpeech | Speaking | MaybeSilence

  datatype VadResult = Emit(event: SpeechEvent, frames: seq<AudioFrame>) | Suppress

  // ---- The segmentation, declared ----

  /** The length of the speech run that opens a segment. The first frame of a run never
      tests its threshold, so thresholds 0 and 1 behave as 2. */
  function OnsetRun(cfg: VadConfig): nat {
    if cfg.onsetThreshold < 2 then 2 else cfg.onsetThreshold as nat
  }

  /** The length of the silence that closes a segment. */
  function HangoverRun(cfg: VadConfig): nat {
    if cfg.hangoverThreshold < 2 then 2 else cfg.hangoverThreshold as nat
  }

  ghost predicate RunAt(h: seq<Heard>, i: nat, n: nat, speech: bool) {
    i + n <= |h| && forall k :: i <= k < i + n ==> h[k].speech == speech
  }

  /** Where the first run of `n` equal verdicts at or after `from` begins. */
  ghost function FirstRun(h: seq<Heard>, from: nat, n: nat, speech: bool): (r: Option<nat>)
    ensures r.Some? ==> from <= r.value <= r.value + n <= |h|
    decreases |h| - from
  {
    if RunAt(h, from, n, speech) then Some(from)
    else if from >= |h| then None
    else FirstRun(h, from + 1, n, speech)
  }

  lemma {:induction false} FirstRunIsFirst(h: seq<Heard>, from: nat, n: nat, speech: bool)
    ensures match FirstRun(h, from, n, speech)
            case None => forall j: nat :: from <= j ==> !RunAt(h, j, n, speech)
            case Some(i) => RunAt(h, i, n, speech) && forall j: nat :: from <= j < i ==> !RunAt(h, j, n, speech)
    decreases |h| - from
  {
    if !RunAt(h, from, n, speech) && from < |h| {
      FirstRunIsFirst(h, from + 1, n, speech);
    }
  }

  /** Frames `start` up to `stop`; a segment still open at the end of input is not `closed`. */
  datatype Segment = Segment(start: nat, stop: nat, closed: bool)

  /** The utterances in `h` from position `from` on: each begins with the next onset run
      and lasts through the frame that completes the next hangover run after it. */
  ghost function Segments(h: seq<Heard>, cfg: VadConfig, from: nat := 0): seq<Segment>
    decreases |h| - from
  {
    match FirstRun(h, from, OnsetRun(cfg), true)
    case None => []
    case Some(a) =>
      match FirstRun(h, a + OnsetRun(cfg), HangoverRun(cfg), false)
      case None => [Segment(a, |h|, false)]
      case Some(b) =>
        var stop := b + HangoverRun(cfg);
        [Segment(a, stop, true)] + Segments(h, cfg, stop)
  }

  /** No utterance is in progress. */
  predicate Settled(segs: seq<Segment>) {
    segs == [] || segs[|segs| - 1].closed
  }

  function StopOfLast(segs: seq<Segment>, from: nat): nat {
    if segs == [] then from else segs[|segs| - 1].stop
  }

  function Frames(h: seq<Heard>): (r: seq<AudioFrame>) {
    seq(|h|, i requires 0 <= i < |h| => h[i].frame)
  }

  /** The verdict owed for the last frame of `h`, when that frame turned `before` into `after`:
      a segment it opens is emitted whole, one it lengthens or closes gains that frame. */
  function Verdict(before: seq<Segment>, after: seq<Segment>, h: seq<Heard>): VadResult
    requires h != []
    requires |before| < |after| ==> after[|after| - 1].start <= |h|
  {
    if |before| < |after| then Emit(Start, Frames(h[after[|after| - 1].start..]))
    else if Settled(before) then Suppress
    else Emit(if Settled(after) then End else Continue, [h[|h| - 1].frame])
  }

  /** What the gate owes for the last frame of a non-empty history. */
  ghost function Decision(h: seq<Heard>, cfg: VadConfig): VadResult
    requires h != []
  {
    SegmentsShape(h, cfg, 0);
    Verdict(Segments(h[..|h| - 1], cfg), Segments(h, cfg), h)
  }

  /** An emission as marked frames: the event belongs to the first frame only. */
  function Marks(r: VadResult): seq<Mark> {
    match r
    case Suppress => []
    case Emit(event, frames) => MarkFrames(frames, event)
  }

  function MarkFrames(frames: seq<AudioFrame>, event: SpeechEvent): seq<Mark> {
    seq(|frames|, i requires 0 <= i < |frames| => Mark(frames[i], if i == 0 then event else Continue))
  }

  /** A whole segment as marked frames. */
  function MarkSegment(h: seq<Heard>, g: Segment): (r: seq<Mark>)
    requires g.start <= g.stop <= |h|
  {
    seq(g.stop - g.start, i requires 0 <= i < g.stop - g.start =>
      Mark(h[g.start + i].frame,
           if i == 0 then Start else if g.closed && i == g.stop - g.start - 1 then End else Continue))
  }

  ghost function MarkSegments(h: seq<Heard>, segs: seq<Segment>): seq<Mark>
    requires forall g :: g in segs ==> g.start <= g.stop <= |h|
  {
    if segs == [] then []
    else MarkSegments(h, segs[..|segs| - 1]) + MarkSegment(h, segs[|segs| - 1])
  }

  /** Everything the gate forwards for a history, from the segmentation alone. */
  ghost function Forwarded(h: seq<Heard>, cfg: VadConfig): seq<Mark> {
    SegmentsShape(h, cfg, 0);
    MarkSegments(h, Segments(h, cfg))
  }

  // ---- Facts about the segmentation ----

  /** Segments are ordered, disjoint, long enough, and only the last can be open. */
  lemma {:induction false} SegmentsShape(h: seq<Heard>, cfg: VadConfig, from: nat)
    ensures forall i :: 0 <= i < |Segments(h, cfg, from)| ==>
              var g := Segments(h, cfg, from)[i];
              && StopOfLast(Segments(h, cfg, from)[..i], from) <= g.start
              && g.start + OnsetRun(cfg) + (if g.closed then HangoverRun(cfg) else 0) <= g.stop <= |h|
              && (g.closed || (g.stop == |h| && i == |Segments(h, cfg, from)| - 1))
    decreases |h| - from
  {
    var segs := Segments(h, cfg, from);
    if segs != [] && segs[0].closed {
      var rest := Segments(h, cfg, segs[0].stop);
      SegmentsShape(h, cfg, segs[0].stop);
      forall i | 1 <= i < |segs|
        ensures segs[i] == rest[i - 1]
        ensures StopOfLast(segs[..i], from) == StopOfLast(rest[..i - 1], segs[0].stop)
      {
      }
    }
  }

  /** `g` begins with a whole run of speech, the first at or after `since`; if closed it ends
      with a whole run of silence, the first after that, and otherwise there is none. */
  ghost predicate IsSegment(h: seq<Heard>, cfg: VadConfig, since: nat, g: Segment) {
    var spoken, hush := g.start + OnsetRun(cfg), g.stop - HangoverRun(cfg);
    && since <= g.start && RunAt(h, g.start, OnsetRun(cfg), true)
    && (forall j: nat :: since <= j < g.start ==> !RunAt(h, j, OnsetRun(cfg), true))
    && (if g.closed then
          && spoken <= hush && RunAt(h, hush, HangoverRun(cfg), false)
          && forall j: nat :: spoken <= j < hush ==> !RunAt(h, j, HangoverRun(cfg), false)
        else
          g.stop == |h| && forall j: nat :: spoken <= j ==> !RunAt(h, j, HangoverRun(cfg), false))
  }

  lemma FirstIsSegment(h: seq<Heard>, cfg: VadConfig, from: nat)
    requires Segments(h, cfg, from) != []
    ensures IsSegment(h, cfg, from, Segments(h, cfg, from)[0])
  {
    hide RunAt;
    var g := Segments(h, cfg, from)[0];
    FirstRunIsFirst(h, from, OnsetRun(cfg), true);
    FirstRunIsFirst(h, g.start + OnsetRun(cfg), HangoverRun(cfg), false);
  }

  /** Every segment is one, counted from where the one before it stops. */
  lemma {:induction false} SegmentsAreRuns(h: seq<Heard>, cfg: VadConfig, from: nat, i: nat)
    requires i < |Segments(h, cfg, from)|
    ensures
      var segs := Segments(h, cfg, from);
      IsSegment(h, cfg, StopOfLast(segs[..i], from), segs[i])
    decreases |h| - from
  {
    hide RunAt, FirstRun, IsSegment;
    var segs := Segments(h, cfg, from);
    if i == 0 {
      FirstIsSegment(h, cfg, from);
    } else {
      var rest := Segments(h, cfg, segs[0].stop);
      SegmentsAreRuns(h, cfg, segs[0].stop, i - 1);
      assert segs == [segs[0]] + rest;
      hide Segments;
      assert StopOfLast(segs[..i], from) == StopOfLast(rest[..i - 1], segs[0].stop);
    }
  }

  lemma {:induction false} FirstRunSnoc(h: seq<Heard>, x: Heard, from: nat, n: nat, speech: bool)
    requires n > 0
    ensures FirstRun(h, from, n, speech).Some? ==>
              FirstRun(h + [x], from, n, speech) == FirstRun(h, from, n, speech)
    ensures FirstRun(h, from, n, speech).None? ==>
              FirstRun(h + [x], from, n, speech) ==
              if from + n <= |h| + 1 && RunAt(h + [x], |h| + 1 - n, n, speech) then Some(|h| + 1 - n) else None
  {
    var before, after := FirstRun(h, from, n, speech), FirstRun(h + [x], from, n, speech);
    FirstRunIsFirst(h, from, n, speech);
    FirstRunIsFirst(h + [x], from, n, speech);
    forall j: nat
      ensures RunAt(h, j, n, speech) ==> RunAt(h + [x], j, n, speech)
      ensures RunAt(h + [x], j, n, speech) && j + n <= |h| ==> RunAt(h, j, n, speech)
    {
      if RunAt(h + [x], j, n, speech) && j + n <= |h| {
        forall k | j <= k < j + n ensures h[k].speech == speech {
          assert (h + [x])[k] == h[k];
        }
      }
    }
    if before.Some? {
      assert after.Some?;
      if after.value < before.value {
        assert false;
      }
    } else if after.Some? {
      assert after.value == |h| + 1 - n;
    }
  }

  /** The segmentation after one more frame, from the one before: the frame opens a segment,
      closes or lengthens the open one, or changes nothing. `h` includes the new frame. */
  ghost function Grown(segs: seq<Segment>, h: seq<Heard>, cfg: VadConfig, from: nat): seq<Segment> {
    if Settled(segs) then
      if StopOfLast(segs, from) + OnsetRun(cfg) <= |h| && RunAt(h, |h| - OnsetRun(cfg), OnsetRun(cfg), true)
      then segs + [Segment(|h| - OnsetRun(cfg), |h|, false)]
      else segs
    else
      var a := segs[|segs| - 1].start;
      var over := a + OnsetRun(cfg) + HangoverRun(cfg) <= |h| && RunAt(h, |h| - HangoverRun(cfg), HangoverRun(cfg), false);
      segs[..|segs| - 1] + [Segment(a, |h|, over)]
  }

  lemma GrownBehind(g: Segment, rest: seq<Segment>, rest': seq<Segment>, segs: seq<Segment>, segs': seq<Segment>,
                    h: seq<Heard>, cfg: VadConfig, from: nat)
    requires g.closed && segs == [g] + rest && segs' == [g] + rest'
    requires rest' == Grown(rest, h, cfg, g.stop)
    ensures segs' == Grown(segs, h, cfg, from)
  {
    if rest == [] {
      assert segs == [g];
    } else {
      assert segs[|segs| - 1] == rest[|rest| - 1];
      assert segs[..|segs| - 1] == [g] + rest[..|rest| - 1];
    }
  }

  lemma NoRoom(h: seq<Heard>, cfg: VadConfig, from: nat)
    requires from >= |h|
    ensures Segments(h, cfg, from) == []
  {
    assert FirstRun(h, from, OnsetRun(cfg), true).None?;
  }

  lemma {:induction false} SnocIdle(h: seq<Heard>, x: Heard, cfg: VadConfig, from: nat)
    requires FirstRun(h, from, OnsetRun(cfg), true).None?
    ensures Segments(h + [x], cfg, from) == Grown(Segments(h, cfg, from), h + [x], cfg, from)
  {
    FirstRunSnoc(h, x, from, OnsetRun(cfg), true);
    assert FirstRun(h + [x], |h| + 1, HangoverRun(cfg), false).None?;
  }

  lemma {:induction false} UnfoldOpen(h: seq<Heard>, cfg: VadConfig, from: nat, a: nat)
    requires FirstRun(h, from, OnsetRun(cfg), true) == Some(a)
    requires FirstRun(h, a + OnsetRun(cfg), HangoverRun(cfg), false).None?
    ensures Segments(h, cfg, from) == [Segment(a, |h|, false)]
  {
  }

  lemma {:induction false} UnfoldClosed(h: seq<Heard>, cfg: VadConfig, from: nat, a: nat, b: nat)
    requires FirstRun(h, from, OnsetRun(cfg), true) == Some(a)
    requires FirstRun(h, a + OnsetRun(cfg), HangoverRun(cfg), false) == Some(b)
    ensures Segments(h, cfg, from) == [Segment(a, b + HangoverRun(cfg), true)] + Segments(h, cfg, b + HangoverRun(cfg))
  {
  }

  lemma FirstRunIs(h: seq<Heard>, from: nat, n: nat, speech: bool, i: nat)
    requires from <= i && RunAt(h, i, n, speech) && forall j: nat :: from <= j < i ==> !RunAt(h, j, n, speech)
    ensures FirstRun(h, from, n, speech) == Some(i)
  {
    hide RunAt;
    FirstRunIsFirst(h, from, n, speech);
  }

  /** Where a run begins, so does its verdict. */
  lemma RunBegins(h: seq<Heard>, j: nat, n: nat, speech: bool)
    requires RunAt(h, j, n, speech) && n > 0
    ensures j < |h| && h[j].speech == speech
  {
  }

  /** Speech alone opens a segment with the frame that reaches the threshold, or the second one. */
  lemma OpensAtThreshold(h: seq<Heard>, cfg: VadConfig)
    requires forall i :: 0 <= i < |h| ==> h[i].speech
    ensures Segments(h, cfg) == if |h| >= 2 && |h| >= cfg.onsetThreshold as nat then [Segment(0, |h|, false)] else []
  {
    var onset, hangover := OnsetRun(cfg), HangoverRun(cfg);
    assert |h| >= onset ==> RunAt(h, 0, onset, true);
    hide RunAt;
    FirstRunIsFirst(h, 0, onset, true);
    FirstRunIsFirst(h, onset, hangover, false);
    forall j: nat ensures !RunAt(h, j, hangover, false) {
      if RunAt(h, j, hangover, false) {
        RunBegins(h, j, hangover, false);
      }
    }
    forall j: nat | |h| < onset ensures !RunAt(h, j, onset, true) {
      if RunAt(h, j, onset, true) {
        RunFits(h, j, onset, true);
      }
    }
  }

  lemma RunFits(h: seq<Heard>, j: nat, n: nat, speech: bool)
    requires RunAt(h, j, n, speech)
    ensures j + n <= |h|
  {
  }

  lemma SpeechThenSilence(h: seq<Heard>, n: nat, onset: nat, hangover: nat)
    requires 1 <= onset <= n <= |h| && hangover > 0
    requires forall i :: 0 <= i < |h| ==> (h[i].speech <==> i < n)
    ensures RunAt(h, 0, onset, true)
    ensures |h| - n >= hangover ==> RunAt(h, n, hangover, false)
    ensures forall j: nat :: RunAt(h, j, hangover, false) ==> n <= j && j + hangover <= |h|
  {
    assert RunAt(h, 0, onset, true);
    assert |h| - n >= hangover ==> RunAt(h, n, hangover, false);
    hide RunAt;
    forall j: nat | RunAt(h, j, hangover, false) ensures n <= j && j + hangover <= |h| {
      RunBegins(h, j, hangover, false);
      RunFits(h, j, hangover, false);
    }
  }

  /** Silence then closes it with the frame that reaches the other threshold, or the second one. */
  lemma ClosesAtThreshold(h: seq<Heard>, n: nat, cfg: VadConfig)
    requires 2 <= n <= |h| && n >= cfg.onsetThreshold as nat
    requires forall i :: 0 <= i < |h| ==> (h[i].speech <==> i < n)
    ensures
      var silent := |h| - n;
      var last := if cfg.hangoverThreshold < 2 then 2 else cfg.hangoverThreshold as nat;
      Segments(h, cfg) == [if silent < last then Segment(0, |h|, false) else Segment(0, n + last, true)]
  {
    var onset, hangover := OnsetRun(cfg), HangoverRun(cfg);
    hide RunAt, Segments;
    SpeechThenSilence(h, n, onset, hangover);
    FirstRunIs(h, 0, onset, true, 0);
    if |h| - n < hangover {
      FirstRunIsFirst(h, onset, hangover, false);
      UnfoldOpen(h, cfg, 0, 0);
    } else {
      FirstRunIs(h, onset, hangover, false, n);
      UnfoldClosed(h, cfg, 0, 0, n);
      OnlySilence(h, cfg, n + hangover);
    }
  }

  lemma OnlySilence(h: seq<Heard>, cfg: VadConfig, from: nat)
    requires forall i :: from <= i < |h| ==> !h[i].speech
    ensures Segments(h, cfg, from) == []
  {
    var onset := OnsetRun(cfg);
    hide RunAt;
    FirstRunIsFirst(h, from, onset, true);
    if FirstRun(h, from, onset, true).Some? {
      RunBegins(h, FirstRun(h, from, onset, true).value, onset, true);
    }
  }

  lemma {:induction false} SnocOpen(h: seq<Heard>, x: Heard, cfg: VadConfig, from: nat, a: nat)
    requires FirstRun(h, from, OnsetRun(cfg), true) == Some(a)
    requires FirstRun(h, a + OnsetRun(cfg), HangoverRun(cfg), false).None?
    ensures Segments(h + [x], cfg, from) == Grown([Segment(a, |h|, false)], h + [x], cfg, from)
  {
    var h' := h + [x];
    FirstRunSnoc(h, x, from, OnsetRun(cfg), true);
    FirstRunSnoc(h, x, a + OnsetRun(cfg), HangoverRun(cfg), false);
    if FirstRun(h', a + OnsetRun(cfg), HangoverRun(cfg), false).None? {
      UnfoldOpen(h', cfg, from, a);
    } else {
      UnfoldClosed(h', cfg, from, a, |h'| - HangoverRun(cfg));
      NoRoom(h', cfg, |h'|);
    }
  }

  lemma {:induction false} ClosedIsKept(h: seq<Heard>, h': seq<Heard>, x: Heard, cfg: VadConfig, from: nat, a: nat, b: nat)
    requires h' == h + [x]
    requires FirstRun(h, from, OnsetRun(cfg), true) == Some(a)
    requires FirstRun(h, a + OnsetRun(cfg), HangoverRun(cfg), false) == Some(b)
    ensures Segments(h', cfg, from) == [Segment(a, b + HangoverRun(cfg), true)] + Segments(h', cfg, b + HangoverRun(cfg))
  {
    assert FirstRun(h', from, OnsetRun(cfg), true) == Some(a) by {
      FirstRunSnoc(h, x, from, OnsetRun(cfg), true);
    }
    assert FirstRun(h', a + OnsetRun(cfg), HangoverRun(cfg), false) == Some(b) by {
      FirstRunSnoc(h, x, a + OnsetRun(cfg), HangoverRun(cfg), false);
    }
    UnfoldClosed(h', cfg, from, a, b);
  }

  lemma {:induction false} SegmentsSnoc(h: seq<Heard>, h': seq<Heard>, x: Heard, cfg: VadConfig, from: nat)
    returns (segs: seq<Segment>, segs': seq<Segment>)
    requires h' == h + [x]
    ensures segs == Segments(h, cfg, from) && segs' == Segments(h', cfg, from)
    ensures segs' == Grown(segs, h', cfg, from)
    decreases |h| - from
  {
    hide FirstRun, RunAt;
    segs, segs' := Segments(h, cfg, from), Segments(h', cfg, from);
    var first := FirstRun(h, from, OnsetRun(cfg), true);
    if first.None? {
      SnocIdle(h, x, cfg, from);
      return;
    }
    var hush := FirstRun(h, first.value + OnsetRun(cfg), HangoverRun(cfg), false);
    if hush.None? {
      SnocOpen(h, x, cfg, from, first.value);
      UnfoldOpen(h, cfg, from, first.value);
      return;
    }
    var g := Segment(first.value, hush.value + HangoverRun(cfg), true);
    UnfoldClosed(h, cfg, from, first.value, hush.value);
    ClosedIsKept(h, h', x, cfg, from, first.value, hush.value);
    var rest, rest' := SegmentsSnoc(h, h', x, cfg, g.stop);
    GrownBehind(g, rest, rest', segs, segs', h', cfg, from);
  }

  /** One more frame adds to the forwarded audio exactly the frames decided for it. */
  lemma {:induction false} ForwardedSnoc(h: seq<Heard>, x: Heard, cfg: VadConfig)
    ensures Forwarded(h + [x], cfg) == Forwarded(h, cfg) + Marks(Decision(h + [x], cfg))
  {
    var h' := h + [x];
    assert h'[..|h'| - 1] == h;
    var segs, segs' := SegmentsSnoc(h, h', x, cfg, 0);
    SegmentsShape(h, cfg, 0);
    SegmentsShape(h', cfg, 0);
    GrownMarks(segs, segs', h, x, cfg);
  }

  lemma {:induction false} GrownMarks(segs: seq<Segment>, segs': seq<Segment>, h: seq<Heard>, x: Heard, cfg: VadConfig)
    requires segs' == Grown(segs, h + [x], cfg, 0)
    requires forall g :: g in segs ==> g.start < g.stop <= |h|
    requires forall g :: g in segs' ==> g.start < g.stop <= |h| + 1
    requires !Settled(segs) ==> segs[|segs| - 1].stop == |h|
    ensures MarkSegments(h + [x], segs') == MarkSegments(h, segs) + Marks(Verdict(segs, segs', h + [x]))
  {
    hide MarkSegments, MarkSegment, MarkFrames, Frames, RunAt;
    var h' := h + [x];
    if Settled(segs) {
      MarksKept(segs, h, x);
      if |segs'| > |segs| {
        SegmentOpened(h', segs'[|segs'| - 1]);
        MarksSnoc(h', segs, segs'[|segs'| - 1]);
      }
    } else {
      var g, g', before := segs[|segs| - 1], segs'[|segs'| - 1], segs[..|segs| - 1];
      assert segs == before + [g] && segs' == before + [g'];
      hide Grown;
      MarksKept(before, h, x);
      MarksSnoc(h, before, g);
      MarksSnoc(h', before, g');
      SegmentGrown(h, x, g, g');
    }
  }

  lemma MarksSnoc(h: seq<Heard>, segs: seq<Segment>, g: Segment)
    requires g.start <= g.stop <= |h| && forall f :: f in segs ==> f.start <= f.stop <= |h|
    ensures MarkSegments(h, segs + [g]) == MarkSegments(h, segs) + MarkSegment(h, g)
  {
    hide MarkSegment;
    assert (segs + [g])[..|segs|] == segs;
  }

  lemma SegmentOpened(h: seq<Heard>, g: Segment)
    requires g.start < g.stop == |h| && !g.closed
    ensures MarkSegment(h, g) == MarkFrames(Frames(h[g.start..]), Start)
  {
  }

  lemma SegmentGrown(h: seq<Heard>, x: Heard, g: Segment, g': Segment)
    requires g.start < g.stop == |h| && !g.closed
    requires g'.start == g.start && g'.stop == |h| + 1
    ensures MarkSegment(h + [x], g') ==
            MarkSegment(h, g) + MarkFrames([x.frame], if g'.closed then End else Continue)
  {
  }

  lemma {:induction false} MarksKept(segs: seq<Segment>, h: seq<Heard>, x: Heard)
    requires forall g :: g in segs ==> g.start <= g.stop <= |h|
    ensures MarkSegments(h + [x], segs) == MarkSegments(h, segs)
  {
    if segs != [] {
      MarksKept(segs[..|segs| - 1], h, x);
      var g := segs[|segs| - 1];
      assert MarkSegment(h + [x], g) == MarkSegment(h, g);
    }
  }

  /** What each decision says about the segmentation: Start opens a segment and End closes
      the open one; anything forwarded otherwise leaves one open, and nothing is withheld
      while one is open. */
  lemma {:induction false} DecisionTells(h: seq<Heard>, h': seq<Heard>, x: Heard, cfg: VadConfig)
    requires h' == h + [x]
    ensures
      var segs, segs', d := Segments(h, cfg), Segments(h', cfg), Decision(h', cfg);
      && |segs'| == |segs| + (if d.Emit? && d.event == Start then 1 else 0)
      && (Settled(segs) <==> d.Suppress? || d.event == Start)
      && (Settled(segs') <==> d.Suppress? || d.event == End)
  {
    var segs, segs' := SegmentsSnoc(h, h', x, cfg, 0);
    hide Segments, FirstRun, RunAt;
    assert h'[..|h'| - 1] == h;
  }

  // ---- The filter ----

  /** `n` verdicts ending the history, and not one more since `from`, are `speech`. */
  ghost predicate TrailingRun(h: seq<Heard>, from: nat, n: nat, speech: bool) {
    && from + n <= |h|
    && RunAt(h, |h| - n, n, speech)
    && (|h| - n == from || h[|h| - n - 1].speech != speech)
  }

  /** One more verdict lengthens the trailing run or ends it; a run of `m` since `from`
      is then complete exactly when the trailing run has reached that length. */
  lemma RunsGrow(h: seq<Heard>, x: Heard, from: nat, n: nat, m: nat, speech: bool)
    requires TrailingRun(h, from, n, speech) && m >= 1
    ensures from + n <= |h|
    ensures TrailingRun(h + [x], from, if x.speech == speech then n + 1 else 0, speech)
    ensures from + m <= |h| + 1 ==> (RunAt(h + [x], |h| + 1 - m, m, speech) <==> x.speech == speech && m <= n + 1)
    ensures x.speech == speech && m <= n + 1 ==> from + m <= |h| + 1
  {
    var h' := h + [x];
    assert h'[|h|] == x;
    if x.speech == speech {
      forall k | |h| - n <= k < |h'| ensures h'[k].speech == speech {
        if k < |h| { assert h'[k] == h[k]; }
      }
      if n + 1 < m && from + m <= |h| + 1 {
        assert h'[|h| - n - 1] == h[|h| - n - 1];
      }
    }
  }

  lemma NoRunYet(h: seq<Heard>, speech: bool)
    ensures TrailingRun(h, |h|, 0, speech)
  {
  }

  class VadFilter {
    const cfg: VadConfig
    var state: VadState
    var onsetCount: u32
    var hangoverCount: u32
    /** Frames held back while speech is only suspected. */
    var onsetBuf: seq<AudioFrame>
    /** Every frame processed so far, with its verdict. */
    ghost var heard: seq<Heard>

    ghost predicate Valid()
      reads this
    {
      Tracks(Segments(heard, cfg))
    }

    /** How the fields follow the segmentation of what was heard. */
    ghost predicate Tracks(segs: seq<Segment>)
      reads this
    {
      match state
      case Silence =>
        Settled(segs) && TrailingRun(heard, StopOfLast(segs, 0), 0, true)
      case MaybeSpeech =>
        && Settled(segs)
        && 1 <= onsetCount as int < OnsetRun(cfg)
        && TrailingRun(heard, StopOfLast(segs, 0), onsetCount as int, true)
        && onsetBuf == Frames(heard[|heard| - onsetCount as int..])
      case Speaking =>
        && !Settled(segs)
        && TrailingRun(heard, segs[|segs| - 1].start + OnsetRun(cfg), 0, false)
      case MaybeSilence =>
        && !Settled(segs)
        && 1 <= hangoverCount as int < HangoverRun(cfg)
        && TrailingRun(heard, segs[|segs| - 1].start + OnsetRun(cfg), hangoverCount as int, false)
    }

    /** A segment is open exactly in the states that forward frames. */
    ghost predicate Open()
      reads this
    {
      state == Speaking || state == MaybeSilence
    }

    constructor (cfg: VadConfig)
      ensures Valid() && this.cfg == cfg && heard == [] && state == Silence
    {
      this.cfg := cfg;
      state, onsetCount, hangoverCount, onsetBuf := Silence, 0, 0, [];
      heard := [];
    }

    /** The verdict for each frame is the one the declared segmentation of everything
        heard so far calls for. */
    method Process(x: Heard) returns (r: VadResult)
      requires Valid()
      modifies this
      ensures Valid()
      ensures heard == old(heard) + [x]
      ensures r == Decision(heard, cfg)
      ensures Open() <==> !Settled(Segments(heard, cfg))
    {
      ghost var segs, segs' := SegmentsSnoc(heard, heard + [x], x, cfg, 0);
      SegmentsShape(heard, cfg, 0);
      SegmentsShape(heard + [x], cfg, 0);
      assert (heard + [x])[..|heard + [x]| - 1] == heard;
      match state
      case Silence => r := InSilence(x, segs, segs');
      case MaybeSpeech => r := InMaybeSpeech(x, segs, segs');
      case Speaking => r := InSpeaking(x, segs, segs');
      case MaybeSilence => r := InMaybeSilence(x, segs, segs');
    }

    /** What each state's handler does to the fields and the verdict, the segmentation of the
        past being `segs` and growing to `segs'`. */
    twostate predicate Handled(x: Heard, r: VadResult, segs: seq<Segment>, segs': seq<Segment>)
      reads this
    {
      && heard == old(heard) + [x]
      && Tracks(segs')
      && (|segs| < |segs'| ==> segs'[|segs'| - 1].start <= |heard|)
      && r == Verdict(segs, segs', heard)
      && (Open() <==> !Settled(segs'))
    }

    method InSilence(x: Heard, ghost segs: seq<Segment>, ghost segs': seq<Segment>) returns (r: VadResult)
      requires state == Silence
      requires Tracks(segs) && segs' == Grown(segs, heard + [x], cfg, 0)
      modifies this
      ensures Handled(x, r, segs, segs')
    {
      RunsGrow(heard, x, StopOfLast(segs, 0), 0, OnsetRun(cfg), true);
      heard := heard + [x];
      if x.speech {
        state := MaybeSpeech;
        onsetCount := 1;
        onsetBuf := [x.frame];
      }
      r := Suppress;
    }

    method InMaybeSpeech(x: Heard, ghost segs: seq<Segment>, ghost segs': seq<Segment>) returns (r: VadResult)
      requires state == MaybeSpeech
      requires Tracks(segs) && segs' == Grown(segs, heard + [x], cfg, 0)
      modifies this
      ensures Handled(x, r, segs, segs')
    {
      hide RunAt, TrailingRun;
      RunsGrow(heard, x, StopOfLast(segs, 0), onsetCount as int, OnsetRun(cfg), true);
      heard := heard + [x];
      NoRunYet(heard, false);
      if x.speech {
        onsetCount := onsetCount + 1;
        onsetBuf := onsetBuf + [x.frame];
        assert onsetBuf == Frames(heard[|heard| - onsetCount as int..]);
        if onsetCount >= cfg.onsetThreshold {
          // The run is complete: its frames open the segment.
          state := Speaking;
          r := Emit(Start, onsetBuf);
          assert segs' == segs + [Segment(|heard| - OnsetRun(cfg), |heard|, false)];
          onsetBuf := [];
        } else {
          assert segs' == segs;
          r := Suppress;
        }
      } else {
        assert segs' == segs;
        // The run broke off before it was long enough.
        state := Silence;
        onsetCount := 0;
        onsetBuf := [];
        r := Suppress;
      }
    }

    method InSpeaking(x: Heard, ghost segs: seq<Segment>, ghost segs': seq<Segment>) returns (r: VadResult)
      requires state == Speaking
      requires Tracks(segs) && segs' == Grown(segs, heard + [x], cfg, 0)
      modifies this
      ensures Handled(x, r, segs, segs')
    {
      RunsGrow(heard, x, segs[|segs| - 1].start + OnsetRun(cfg), 0, HangoverRun(cfg), false);
      heard := heard + [x];
      if !x.speech {
        state := MaybeSilence;
        hangoverCount := 1;
      }
      r := Emit(Continue, [x.frame]);
    }

    method InMaybeSilence(x: Heard, ghost segs: seq<Segment>, ghost segs': seq<Segment>) returns (r: VadResult)
      requires state == MaybeSilence
      requires Tracks(segs) && segs' == Grown(segs, heard + [x], cfg, 0)
      modifies this
      ensures Handled(x, r, segs, segs')
    {
      RunsGrow(heard, x, segs[|segs| - 1].start + OnsetRun(cfg), hangoverCount as int, HangoverRun(cfg), false);
      heard := heard + [x];
      if x.speech {
        state := Speaking;
        hangoverCount := 0;
        r := Emit(Continue, [x.frame]);
      } else {
        hangoverCount := hangoverCount + 1;
        if hangoverCount >= cfg.hangoverThreshold {
          state := Silence;
          hangoverCount := 0;
          r := Emit(End, [x.frame]);
        } else {
          r := Emit(Continue, [x.frame]);
        }
      }
    }
  }
}
