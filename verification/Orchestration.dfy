/** What runs inside one utterance's processing on the server (ai-server/rpc/service.py): the
    orchestration, the bounded inner queue it fills, and the generator that drains it into the
    stream's queue.

    A cancellation that lands while the generator waits for the inner queue makes it tell the
    orchestration to cancel, without waiting for it: what is left of it then is its unwinding,
    however long, and the closing item it puts at the end. One that lands while an output waits
    for the stream's queue tells the orchestration nothing, because the generator is then closed,
    not cancelled. */
module Orchestration {
  import opened Audio

  const INNER_QUEUE_MAX := 32

  /** Where the processing of an utterance stands. */
  datatype Stage =
    | Transcribing
    | Awaiting  // for an item of the inner queue
    | Putting   // the item on the stream's queue
    | Over

  /** `left` counts the items, the closing one included, that the orchestration has yet to put;
      it ends with the last. `waiting` says that it waits to put the closing one, `told` that it
      was told to cancel. */
  datatype Job = Job(stage: Stage, orchestrated: bool, waiting: bool, told: bool, inner: nat, left: nat)

  predicate Unfinished(j: Job) {
    j.orchestrated && j.left > 0
  }

  /** At work as if nothing had happened. */
  predicate Working(j: Job) {
    Unfinished(j) && !j.told
  }

  /** Told to cancel, and not done with it. */
  predicate Unwinding(j: Job) {
    Unfinished(j) && j.told
  }

  datatype Step =
    | Begin(items: nat)  // the reader starts the next utterance, once the last one is over
    | Transcribed
    | NothingSaid
    | Produce(job: nat)
    | Block(job: nat)    // the closing item finds the inner queue full
    | Take
    | PutDone
    | Cancel

  type State = seq<Job>

  predicate InFlight(s: State) {
    s != [] && s[|s| - 1].stage != Over
  }

  predicate Enabled(s: State, step: Step) {
    match step
    case Begin(_) => !InFlight(s)
    case Transcribed => InFlight(s) && s[|s| - 1].stage == Transcribing
    case NothingSaid => InFlight(s) && s[|s| - 1].stage == Transcribing
    case Produce(i) => i < |s| && Unfinished(s[i]) && s[i].inner < INNER_QUEUE_MAX
    case Block(i) => i < |s| && s[i].orchestrated && s[i].left == 1 && s[i].inner == INNER_QUEUE_MAX && !s[i].waiting
    case Take => InFlight(s) && s[|s| - 1].stage == Awaiting && s[|s| - 1].inner > 0
    case PutDone => InFlight(s) && s[|s| - 1].stage == Putting
    case Cancel => InFlight(s)
  }

  /** The closing item ends the processing, any other is put on the stream's queue. */
  function Taking(j: Job): Job
    requires j.inner > 0
  {
    j.(inner := j.inner - 1, stage := if j.left == 0 && j.inner == 1 then Over else Putting)
  }

  /** Only a generator that waits for an item passes the cancellation on. An orchestration that
      is told gives up what it does, and then has its closing item to put; if that is what it
      was waiting to do, it ends without. */
  function Cancelling(j: Job): Job {
    if j.stage == Awaiting then
      j.(stage := Over, told := true, waiting := false, left := if j.left == 0 || j.waiting then 0 else 1)
    else j.(stage := Over)
  }

  function After(s: State, step: Step): State
    requires Enabled(s, step)
  {
    var n := |s| - 1;
    match step
    case Begin(items) => s + [Job(Transcribing, false, false, false, 0, items + 1)]
    case Transcribed => s[n := s[n].(stage := Awaiting, orchestrated := true)]
    case NothingSaid => s[n := s[n].(stage := Over)]
    case Produce(i) => s[i := s[i].(inner := s[i].inner + 1, left := s[i].left - 1, waiting := false)]
    case Block(i) => s[i := s[i].(waiting := true)]
    case Take => s[n := Taking(s[n])]
    case PutDone => s[n := s[n].(stage := Awaiting)]
    case Cancel => s[n := Cancelling(s[n])]
  }

  function Run(steps: seq<Step>): Option<State> {
    if steps == [] then Some([])
    else
      var s := Run(steps[..|steps| - 1]);
      if s.Some? && Enabled(s.value, steps[|steps| - 1]) then Some(After(s.value, steps[|steps| - 1])) else None
  }

  /** A cancellation landed on job `i` at the given stage. */
  predicate CancelledAt(steps: seq<Step>, i: nat, stage: Stage) {
    steps != [] &&
    var before, step := steps[..|steps| - 1], steps[|steps| - 1];
    var s := Run(before);
    || CancelledAt(before, i, stage)
    || (step == Cancel && s.Some? && i == |s.value| - 1 && s.value[i].stage == stage)
  }

  ghost predicate Inv(s: State) {
    && (forall i :: 0 <= i < |s| - 1 ==> s[i].stage == Over)
    && (forall i :: 0 <= i < |s| ==>
          && s[i].inner <= INNER_QUEUE_MAX && (s[i].waiting ==> s[i].left == 1)
          && (s[i].stage == Transcribing ==> !s[i].orchestrated)
          && (s[i].stage == Awaiting || s[i].stage == Putting ==>
                s[i].orchestrated && !s[i].told && s[i].left + s[i].inner > 0)
          && (s[i].stage == Transcribing ==> s[i].left > 0 && s[i].inner == 0)
          && (s[i].told ==> s[i].orchestrated && s[i].left <= 1))
  }

  lemma InvStep(s: State, step: Step)
    requires Inv(s) && Enabled(s, step)
    ensures Inv(After(s, step))
  {
  }

  lemma LastStep(before: seq<Step>, step: Step)
    requires Run(before + [step]).Some?
    ensures Run(before).Some? && Enabled(Run(before).value, step)
    ensures Run(before + [step]).value == After(Run(before).value, step)
  {
    assert (before + [step])[..|before|] == before;
  }

  lemma {:induction false} RunInv(steps: seq<Step>)
    requires Run(steps).Some?
    ensures Inv(Run(steps).value)
  {
    if steps != [] {
      var before, step := steps[..|steps| - 1], steps[|steps| - 1];
      assert steps == before + [step];
      LastStep(before, step);
      RunInv(before);
      InvStep(Run(before).value, step);
    }
  }

  // ---- What outlives its processing ----

  /** A step leaves a job whose processing is over as it is, but for what it produces; and how
      the processing got to be over tells what is left of it. */
  lemma OverStep(s: State, step: Step, i: nat)
    requires Inv(s) && Enabled(s, step) && i < |After(s, step)| && After(s, step)[i].stage == Over
    ensures
      var j := After(s, step)[i];
      if i < |s| && s[i].stage == Over then
        && (step == Cancel ==> i < |s| - 1)
        && j.orchestrated == s[i].orchestrated && j.told == s[i].told
      else
        && i == |s| - 1
        && (j.told <==> step == Cancel && s[i].stage == Awaiting)
        && (Working(j) ==> step == Cancel && s[i].stage == Putting)
        && (step == Cancel && s[i].stage == Putting ==> j.orchestrated)
  {
  }

  lemma CancelledSnoc(before: seq<Step>, step: Step, i: nat, stage: Stage)
    requires Run(before).Some?
    ensures
      var s := Run(before).value;
      CancelledAt(before + [step], i, stage) <==>
      CancelledAt(before, i, stage) || (step == Cancel && i == |s| - 1 && s[i].stage == stage)
  {
    assert (before + [step])[..|before|] == before;
  }

  lemma CancelEnds(s: State, step: Step, i: nat)
    requires Enabled(s, step) && i < |s| && Inv(s)
    requires s[i].stage == Over || (step == Cancel && i == |s| - 1)
    ensures i < |After(s, step)| && After(s, step)[i].stage == Over
  {
  }

  lemma {:induction false} CancelledIsOver(steps: seq<Step>, i: nat, stage: Stage)
    requires Run(steps).Some? && CancelledAt(steps, i, stage)
    ensures i < |Run(steps).value| && Run(steps).value[i].stage == Over
  {
    var before, step := steps[..|steps| - 1], steps[|steps| - 1];
    assert steps == before + [step];
    LastStep(before, step);
    CancelledSnoc(before, step, i, stage);
    var s := Run(before).value;
    RunInv(before);
    hide After, Enabled, Inv, Run, CancelledAt;
    if CancelledAt(before, i, stage) {
      CancelledIsOver(before, i, stage);
    }
    CancelEnds(s, step, i);
  }

  lemma {:induction false} HowItEnded(steps: seq<Step>, i: nat)
    requires Run(steps).Some? && i < |Run(steps).value| && Run(steps).value[i].stage == Over
    ensures
      var j := Run(steps).value[i];
      && (j.told <==> CancelledAt(steps, i, Awaiting))
      && (CancelledAt(steps, i, Putting) ==> j.orchestrated && !j.told)
      && (Working(j) ==> CancelledAt(steps, i, Putting))
  {
    assert steps != [] by {
      assert Run([]) == Some([]);
    }
    var before, step := steps[..|steps| - 1], steps[|steps| - 1];
    assert steps == before + [step];
    LastStep(before, step);
    var s := Run(before).value;
    RunInv(before);
    OverStep(s, step, i);
    CancelledSnoc(before, step, i, Awaiting);
    CancelledSnoc(before, step, i, Putting);
    hide After, Enabled, Inv, Run, CancelledAt;
    if i < |s| && s[i].stage == Over {
      HowItEnded(before, i);
    } else {
      if CancelledAt(before, i, Awaiting) {
        CancelledIsOver(before, i, Awaiting);
      }
      if CancelledAt(before, i, Putting) {
        CancelledIsOver(before, i, Putting);
      }
    }
  }

  /** With nobody to drain its queue, what an orchestration has put and has left to put is
      settled. */
  lemma LeftShrinks(s: State, step: Step, i: nat)
    requires Enabled(s, step) && i < |s| && s[i].stage == Over
    ensures
      var j := After(s, step)[i];
      && j.stage == Over && j.orchestrated == s[i].orchestrated
      && j.left <= s[i].left && j.left + j.inner == s[i].left + s[i].inner
  {
  }

  /** What a cancellation leaves behind is told by the stage it lands on: while an output waits
      for the stream's queue the orchestration works on as if nothing had happened; while the
      generator waits for an item it is told, and unwinds. An orchestration is unfinished after
      its processing is over in no other case. */
  lemma OutlivesExactly(steps: seq<Step>, i: nat)
    requires Run(steps).Some? && i < |Run(steps).value| && Run(steps).value[i].stage == Over
    ensures
      var j := Run(steps).value[i];
      && (Working(j) <==> CancelledAt(steps, i, Putting) && j.left > 0)
      && (Unwinding(j) <==> CancelledAt(steps, i, Awaiting) && j.left > 0)
      && (Unwinding(j) ==> j.left == 1)
  {
    HowItEnded(steps, i);
    RunInv(steps);
  }

  /** Two orchestrations are unfinished at once only if the older one's processing was cancelled
      after its transcription. */
  lemma OverlapOnlyIfCancelled(steps: seq<Step>, i: nat, k: nat)
    requires Run(steps).Some? && i < k < |Run(steps).value|
    requires Unfinished(Run(steps).value[i]) && Unfinished(Run(steps).value[k])
    ensures if Run(steps).value[i].told then CancelledAt(steps, i, Awaiting) else CancelledAt(steps, i, Putting)
  {
    RunInv(steps);
    OutlivesExactly(steps, i);
  }

  // ---- What is not cancelled ----

  predicate NotCancelled(steps: seq<Step>, i: nat) {
    !CancelledAt(steps, i, Transcribing) && !CancelledAt(steps, i, Awaiting) && !CancelledAt(steps, i, Putting)
  }

  predicate Drained(j: Job) {
    j.left == 0 && j.inner == 0
  }

  lemma DrainStep(s: State, step: Step, i: nat)
    requires Inv(s) && Enabled(s, step) && i < |After(s, step)| && After(s, step)[i].stage == Over
    requires !(step == Cancel && i == |s| - 1) && After(s, step)[i].orchestrated
    requires i < |s| && s[i].stage == Over ==> s[i].orchestrated ==> Drained(s[i])
    ensures Drained(After(s, step)[i])
  {
  }

  /** An utterance whose processing is over, got past its transcription and was not cancelled has
      had all its items taken, the closing one included: nothing of it is left behind. */
  lemma {:induction false} UncancelledIsDrained(steps: seq<Step>, i: nat)
    requires Run(steps).Some? && i < |Run(steps).value| && NotCancelled(steps, i)
    requires Run(steps).value[i].stage == Over && Run(steps).value[i].orchestrated
    ensures Drained(Run(steps).value[i])
  {
    assert steps != [] by {
      assert Run([]) == Some([]);
    }
    var before, step := steps[..|steps| - 1], steps[|steps| - 1];
    assert steps == before + [step];
    LastStep(before, step);
    var s := Run(before).value;
    RunInv(before);
    CancelledSnoc(before, step, i, Transcribing);
    CancelledSnoc(before, step, i, Awaiting);
    CancelledSnoc(before, step, i, Putting);
    hide Run, CancelledAt, After, Enabled, Drained, Inv;
    if step == Cancel {
      LastInFlight(s);
    }
    if i < |s| && s[i].stage == Over && s[i].orchestrated {
      UncancelledIsDrained(before, i);
    }
    DrainStep(s, step, i);
  }

  lemma LastInFlight(s: State)
    requires Enabled(s, Cancel)
    ensures InFlight(s)
  {
  }

  /** While an utterance is being processed something other than a cancellation can always
      happen to it. */
  lemma ProcessingGoesOn(steps: seq<Step>)
    requires Run(steps).Some? && InFlight(Run(steps).value)
    ensures
      var s := Run(steps).value;
      var n := |s| - 1;
      Enabled(s, if s[n].stage == Transcribing then Transcribed
                 else if s[n].stage == Putting then PutDone
                 else if s[n].inner > 0 then Take
                 else Produce(n))
  {
    RunInv(steps);
  }

  /** Each item in turn, produced, taken and put on the stream's queue. */
  function Rounds(n: nat): seq<Step> {
    if n == 0 then [] else Rounds(n - 1) + [Produce(0), Take, PutDone]
  }

  lemma {:induction false} RoundsRun(items: nat, n: nat)
    requires n <= items
    ensures Run([Begin(items), Transcribed] + Rounds(n)) == Some([Job(Awaiting, true, false, false, 0, items + 1 - n)])
  {
    assert Run([]) == Some([]);
    hide Run;
    var start := [Begin(items), Transcribed];
    if n == 0 {
      var s := Extend([], [], Begin(items));
      s := Extend([] + [Begin(items)], s, Transcribed);
      assert [] + [Begin(items)] + [Transcribed] == start + Rounds(0);
      assert s == [Job(Awaiting, true, false, false, 0, items + 1)];
    } else {
      RoundsRun(items, n - 1);
      var r := start + Rounds(n - 1);
      var s := Extend(r, [Job(Awaiting, true, false, false, 0, items + 2 - n)], Produce(0));
      s := Extend(r + [Produce(0)], s, Take);
      s := Extend(r + [Produce(0)] + [Take], s, PutDone);
      assert r + [Produce(0)] + [Take] + [PutDone] == start + Rounds(n);
      assert s == [Job(Awaiting, true, false, false, 0, items + 1 - n)];
    }
  }

  /** For every number of items the run in which nothing goes wrong ends with all of them put on
      the stream's queue. */
  lemma RunsThrough(items: nat)
    ensures Run([Begin(items), Transcribed] + Rounds(items) + [Produce(0), Take]) == Some([Job(Over, true, false, false, 0, 0)])
  {
    RoundsRun(items, items);
    hide Run;
    var r := [Begin(items), Transcribed] + Rounds(items);
    var s := Extend(r, [Job(Awaiting, true, false, false, 0, 1)], Produce(0));
    s := Extend(r + [Produce(0)], s, Take);
    assert r + [Produce(0)] + [Take] == r + [Produce(0), Take];
    assert s == [Job(Over, true, false, false, 0, 0)];
  }

  // ---- What becomes of it ----

  /** From an utterance whose processing is over on, in every continuation: what was put and
      what is left to put stay the same in sum. */
  lemma {:induction false} LeftIsSettled(steps: seq<Step>, more: seq<Step>, i: nat)
    requires Run(steps).Some? && i < |Run(steps).value| && Run(steps).value[i].stage == Over
    requires Run(steps + more).Some?
    ensures i < |Run(steps + more).value|
    ensures
      var j, j' := Run(steps).value[i], Run(steps + more).value[i];
      && j'.stage == Over && j'.orchestrated == j.orchestrated
      && j'.left <= j.left && j'.left + j'.inner == j.left + j.inner
    decreases |more|
  {
    hide After, Enabled;
    if more == [] {
      assert steps + more == steps;
    } else {
      var before, step := more[..|more| - 1], more[|more| - 1];
      assert steps + more == (steps + before) + [step];
      LastStep(steps + before, step);
      hide Run;
      LeftIsSettled(steps, before, i);
      var s := Run(steps + before).value;
      Lengthens(s, step);
      LeftShrinks(s, step, i);
    }
  }

  lemma Lengthens(s: State, step: Step)
    requires Enabled(s, step)
    ensures |After(s, step)| >= |s|
  {
  }

  /** An orchestration that was told to cancel puts at most one more item. */
  lemma ToldPutsOneMore(steps: seq<Step>, more: seq<Step>, i: nat)
    requires Run(steps).Some? && i < |Run(steps).value| && Run(steps).value[i].told
    requires Run(steps + more).Some?
    ensures i < |Run(steps + more).value| && Run(steps + more).value[i].inner <= Run(steps).value[i].inner + 1
  {
    RunInv(steps);
    hide Run;
    LeftIsSettled(steps, more, i);
  }

  lemma Extend(steps: seq<Step>, s: State, step: Step) returns (s': State)
    requires Run(steps) == Some(s) && Enabled(s, step)
    ensures s' == After(s, step) && Run(steps + [step]) == Some(s')
  {
    s' := After(s, step);
    assert (steps + [step])[..|steps|] == steps;
  }

  /** Some continuation lets the orchestration of job `i` end. */
  ghost predicate CanFinish(steps: seq<Step>, i: nat) {
    exists more :: var s := Run(steps + more); s.Some? && i < |s.value| && !Unfinished(s.value[i])
  }

  /** Putting `n` items, one after the other. */
  function Puts(i: nat, n: nat): seq<Step> {
    if n == 0 then [] else Puts(i, n - 1) + [Produce(i)]
  }

  lemma {:induction false} PutsRun(steps: seq<Step>, s: State, i: nat, n: nat) returns (s': State)
    requires Run(steps) == Some(s) && i < |s| && s[i].orchestrated
    requires n <= s[i].left && s[i].inner + n <= INNER_QUEUE_MAX
    ensures Run(steps + Puts(i, n)) == Some(s')
    ensures |s'| == |s| && forall k :: 0 <= k < |s| && k != i ==> s'[k] == s[k]
    ensures
      s'[i] == s[i].(inner := s[i].inner + n, left := s[i].left - n, waiting := if n == 0 then s[i].waiting else false)
    decreases n
  {
    hide Run;
    if n == 0 {
      assert steps + Puts(i, n) == steps;
      s' := s;
    } else {
      var t := PutsRun(steps, s, i, n - 1);
      s' := Extend(steps + Puts(i, n - 1), t, Produce(i));
      assert steps + Puts(i, n - 1) + [Produce(i)] == steps + Puts(i, n);
    }
  }

  /** An orchestration left behind can finish exactly if its queue has room for all it has left
      to put; otherwise nothing that ever happens in this protocol lets it end. */
  lemma FinishesExactly(steps: seq<Step>, i: nat)
    requires Run(steps).Some? && i < |Run(steps).value|
    requires Run(steps).value[i].stage == Over && Run(steps).value[i].orchestrated
    ensures
      var j := Run(steps).value[i];
      CanFinish(steps, i) <==> j.inner + j.left <= INNER_QUEUE_MAX
  {
    var s := Run(steps).value;
    var j := s[i];
    if j.inner + j.left <= INNER_QUEUE_MAX {
      hide Run;
      var s' := PutsRun(steps, s, i, j.left);
      assert !Unfinished(s'[i]);
    } else if CanFinish(steps, i) {
      var more :| var s' := Run(steps + more); s'.Some? && i < |s'.value| && !Unfinished(s'.value[i]);
      RunInv(steps + more);
      hide Run;
      LeftIsSettled(steps, more, i);
    }
  }

  /** The fate of an orchestration at the moment its processing is cancelled. One that is told
      can end unless its queue is full and it was not yet waiting to put its closing item, in
      which case that item waits for ever; one that is not told can end if what it has left to
      put fits. */
  lemma FateAtCancellation(steps: seq<Step>)
    requires Run(steps).Some? && InFlight(Run(steps).value)
    requires Run(steps).value[|Run(steps).value| - 1].orchestrated
    ensures
      var n := |Run(steps).value| - 1;
      var j := Run(steps).value[n];
      CanFinish(steps + [Cancel], n) <==>
        if j.stage == Awaiting then j.left == 0 || j.inner < INNER_QUEUE_MAX || j.waiting
        else j.inner + j.left <= INNER_QUEUE_MAX
  {
    RunInv(steps);
    var s := Run(steps).value;
    hide Run, CanFinish;
    var s' := Extend(steps, s, Cancel);
    FinishesExactly(steps + [Cancel], |s| - 1);
  }

  // ---- Runs with two orchestrations unfinished ----

  /** An ordinary interrupt: the generator waits for the first item while the orchestration waits
      for the model, and the next utterance is transcribed before that has unwound. */
  lemma InterruptOverlap(items: nat)
    ensures
      var s := Run([Begin(items), Transcribed, Cancel, Begin(items), Transcribed]);
      s.Some? && |s.value| == 2 && Unwinding(s.value[0]) && Working(s.value[1])
  {
    assert Run([]) == Some([]);
    hide Run;
    var s := Extend([], [], Begin(items));
    s := Extend([] + [Begin(items)], s, Transcribed);
    s := Extend([] + [Begin(items)] + [Transcribed], s, Cancel);
    s := Extend([] + [Begin(items)] + [Transcribed] + [Cancel], s, Begin(items));
    s := Extend([] + [Begin(items)] + [Transcribed] + [Cancel] + [Begin(items)], s, Transcribed);
    assert [] + [Begin(items)] + [Transcribed] + [Cancel] + [Begin(items)] + [Transcribed]
        == [Begin(items), Transcribed, Cancel, Begin(items), Transcribed];
  }

  /** Caught while one output waits for the stream's queue: the first orchestration works on
      beside the second. */
  lemma CaughtOverlap(items: nat)
    requires items >= 1
    ensures
      var s := Run([Begin(items), Transcribed, Produce(0), Take, Cancel, Begin(items), Transcribed]);
      s.Some? && |s.value| == 2 && Working(s.value[0]) && Working(s.value[1])
  {
    assert Run([]) == Some([]);
    hide Run;
    var s := Extend([], [], Begin(items));
    var r := [] + [Begin(items)];
    s := Extend(r, s, Transcribed);
    s := Extend(r + [Transcribed], s, Produce(0));
    r := r + [Transcribed] + [Produce(0)];
    s := Extend(r, s, Take);
    s := Extend(r + [Take], s, Cancel);
    r := r + [Take] + [Cancel];
    s := Extend(r, s, Begin(items));
    s := Extend(r + [Begin(items)], s, Transcribed);
    assert r + [Begin(items)] + [Transcribed]
        == [Begin(items), Transcribed, Produce(0), Take, Cancel, Begin(items), Transcribed];
  }

  /** With the closing item alone left over and waiting, being told is no harm: it gives up the wait. */
  lemma WaitingWhenTold()
    ensures
      var s := Run([Begin(INNER_QUEUE_MAX), Transcribed] + Puts(0, INNER_QUEUE_MAX) + [Block(0), Cancel]);
      s == Some([Job(Over, true, false, true, INNER_QUEUE_MAX, 0)])
  {
    assert Run([]) == Some([]);
    hide Run, Puts;
    var s := Extend([], [], Begin(INNER_QUEUE_MAX));
    s := Extend([] + [Begin(INNER_QUEUE_MAX)], s, Transcribed);
    var r := [Begin(INNER_QUEUE_MAX), Transcribed];
    assert [] + [Begin(INNER_QUEUE_MAX)] + [Transcribed] == r;
    s := PutsRun(r, s, 0, INNER_QUEUE_MAX);
    r := r + Puts(0, INNER_QUEUE_MAX);
    s := Extend(r, s, Block(0));
    s := Extend(r + [Block(0)], s, Cancel);
    assert r + [Block(0)] + [Cancel] == r + [Block(0), Cancel];
    assert s == [Job(Over, true, false, true, INNER_QUEUE_MAX, 0)];
  }

  /** A burst that fills the queue before the generator resumes, and then an interrupt: what was
      told to cancel can never put its closing item. */
  lemma FullWhenTold(items: nat)
    requires items >= INNER_QUEUE_MAX
    ensures
      var steps := [Begin(items), Transcribed] + Puts(0, INNER_QUEUE_MAX) + [Cancel];
      var s := Run(steps);
      s.Some? && |s.value| == 1 && Unwinding(s.value[0]) && !CanFinish(steps, 0)
  {
    assert Run([]) == Some([]);
    hide Run, Puts, CanFinish;
    var s := Extend([], [], Begin(items));
    s := Extend([] + [Begin(items)], s, Transcribed);
    var r := [Begin(items), Transcribed];
    assert [] + [Begin(items)] + [Transcribed] == r;
    s := PutsRun(r, s, 0, INNER_QUEUE_MAX);
    r := r + Puts(0, INNER_QUEUE_MAX);
    FateAtCancellation(r);
    s := Extend(r, s, Cancel);
  }
}
