/** The concurrent half of the server's voice stream (ai-server/rpc/service.py): the reader
    task, the one processing task it keeps in flight, the bounded output queue between them
    and the generator that answers the client.

    One step is what runs between two awaits. A task asked to cancel may still queue any
    number of outputs before it ends, which is more than the real one does. Cancellation of
    the whole stream from outside is not part of these runs. */
module StreamProtocol {
  import opened Audio
  import opened Service

  const OUTPUT_QUEUE_MAX: nat := 100

  datatype Task = Task(utterance: Utterance, produced: nat, cancelRequested: bool, ended: bool)

  datatype Item = Output(task: nat, index: nat) | OverflowError | Sentinel

  datatype Reader =
    | Reading
    | QueueingError
    | AwaitingCancel(next: Option<Utterance>)  // then start this utterance, or after an interrupt nothing
    | Draining                                 // input over; awaiting what is in flight
    | QueueingSentinel
    | Finished

  datatype State = State(
    read: seq<Dispatch>,
    reader: Reader,
    tasks: seq<Task>,
    current: Option<nat>,
    queue: seq<Item>,
    delivered: seq<Item>,
    answered: bool,
    /** Everything ever queued, in order. */
    log: seq<Item>)

  const INIT := State([], Reading, [], None, [], [], false, [])

  datatype Step =
    | Read(dispatch: Dispatch)
    | InputEnds
    | QueueError
    | CancelDone
    | DrainDone
    | QueueSentinel
    | TaskOutput(task: nat)
    | TaskEnds(task: nat)
    | Deliver

  predicate InFlight(s: State) {
    s.current.Some? && s.current.value < |s.tasks| && !s.tasks[s.current.value].ended
  }

  predicate Alive(s: State, i: nat) {
    i < |s.tasks| && !s.tasks[i].ended
  }

  predicate HasRoom(s: State) {
    |s.queue| < OUTPUT_QUEUE_MAX
  }

  predicate Enabled(s: State, step: Step) {
    match step
    case Read(_) => s.reader == Reading
    case InputEnds => s.reader == Reading
    case QueueError => s.reader == QueueingError && HasRoom(s)
    case CancelDone => s.reader.AwaitingCancel? && !InFlight(s)
    case DrainDone => s.reader == Draining && !InFlight(s)
    case QueueSentinel => s.reader == QueueingSentinel && HasRoom(s)
    case TaskOutput(i) => Alive(s, i) && HasRoom(s)
    case TaskEnds(i) => Alive(s, i)
    case Deliver => s.queue != [] && !s.answered
  }

  function Enqueue(s: State, item: Item): State {
    s.(queue := s.queue + [item], log := s.log + [item])
  }

  function StartTask(s: State, u: Utterance): State {
    s.(tasks := s.tasks + [Task(u, 0, false, false)], current := Some(|s.tasks|))
  }

  /** Asks what is in flight to cancel and waits for its end before going on. */
  function CancelFirst(s: State, next: Option<Utterance>): State
    requires InFlight(s)
  {
    var i := s.current.value;
    s.(tasks := s.tasks[i := s.tasks[i].(cancelRequested := true)], reader := AwaitingCancel(next))
  }

  function OnRead(s: State, d: Dispatch): State {
    match d
    case Quiet => s
    case TooShort => s
    case Overflow => s.(reader := QueueingError)
    case Process(u) => if InFlight(s) then CancelFirst(s, Some(u)) else StartTask(s, u)
    case Interrupt => if InFlight(s) then CancelFirst(s, None) else s
  }

  function After(s: State, step: Step): State
    requires Enabled(s, step)
  {
    match step
    case Read(d) => OnRead(s.(read := s.read + [d]), d)
    case InputEnds => s.(reader := if InFlight(s) then Draining else QueueingSentinel)
    case QueueError => Enqueue(s, OverflowError).(reader := Reading)
    case CancelDone =>
      if s.reader.next.Some? then StartTask(s, s.reader.next.value).(reader := Reading)
      else s.(current := None, reader := Reading)
    case DrainDone => s.(reader := QueueingSentinel)
    case QueueSentinel => Enqueue(s, Sentinel).(reader := Finished)
    case TaskOutput(i) =>
      Enqueue(s, Output(i, s.tasks[i].produced)).(tasks := s.tasks[i := s.tasks[i].(produced := s.tasks[i].produced + 1)])
    case TaskEnds(i) => s.(tasks := s.tasks[i := s.tasks[i].(ended := true)])
    case Deliver =>
      if s.queue[0] == Sentinel then s.(queue := s.queue[1..], answered := true)
      else s.(queue := s.queue[1..], delivered := s.delivered + [s.queue[0]])
  }

  function Run(steps: seq<Step>): Option<State> {
    if steps == [] then Some(INIT)
    else
      var s := Run(steps[..|steps| - 1]);
      if s.Some? && Enabled(s.value, steps[|steps| - 1]) then Some(After(s.value, steps[|steps| - 1])) else None
  }

  // ---- The invariant ----

  /** At most one task is live: the newest, and only while it is the reader's current one. */
  ghost predicate OneInFlight(s: State) {
    && (forall i :: 0 <= i < |s.tasks| && !s.tasks[i].ended ==> s.current == Some(i) && i == |s.tasks| - 1)
    && (s.current.Some? ==> s.current.value < |s.tasks|)
    && (s.reader.AwaitingCancel? || s.reader == Draining ==> s.current.Some?)
    && (s.reader == QueueingSentinel || s.reader == Finished ==> !InFlight(s))
  }

  /** The utterances that the messages read so far have asked for. */
  function Asked(ds: seq<Dispatch>): seq<Utterance> {
    if ds == [] then []
    else Asked(ds[..|ds| - 1]) + (if ds[|ds| - 1].Process? then [ds[|ds| - 1].utterance] else [])
  }

  function Given(tasks: seq<Task>): seq<Utterance> {
    if tasks == [] then [] else Given(tasks[..|tasks| - 1]) + [tasks[|tasks| - 1].utterance]
  }

  /** Each utterance asked for has its task, or is next in line. */
  ghost predicate TasksAsAsked(s: State) {
    Asked(s.read) == Given(s.tasks) +
      (if s.reader.AwaitingCancel? && s.reader.next.Some? then [s.reader.next.value] else [])
  }

  predicate Displaces(d: Dispatch) {
    d.Process? || d.Interrupt?
  }

  /** A task that was asked to cancel is waited for. */
  ghost predicate CancellationsAwaited(s: State) {
    forall i :: 0 <= i < |s.tasks| && s.tasks[i].cancelRequested && !s.tasks[i].ended ==> s.reader.AwaitingCancel?
  }

  function OverflowsIn(ds: seq<Dispatch>): nat {
    if ds == [] then 0 else OverflowsIn(ds[..|ds| - 1]) + (if ds[|ds| - 1].Overflow? then 1 else 0)
  }

  function ErrorsIn(items: seq<Item>): nat {
    if items == [] then 0 else ErrorsIn(items[..|items| - 1]) + (if items[|items| - 1].OverflowError? then 1 else 0)
  }

  /** Each overflow has its error message, or that is next in line. */
  ghost predicate ErrorsAsRead(s: State) {
    OverflowsIn(s.read) == ErrorsIn(s.log) + (if s.reader == QueueingError then 1 else 0)
  }

  /** Outputs appear task by task, each task's in the order it made them. */
  ghost predicate Orderly(log: seq<Item>) {
    forall i, j :: 0 <= i < j < |log| && log[i].Output? && log[j].Output? ==>
      log[i].task < log[j].task || (log[i].task == log[j].task && log[i].index < log[j].index)
  }

  ghost predicate LogOfTasks(s: State) {
    && Orderly(s.log)
    && (forall i, k :: 0 <= i < |s.tasks| && 0 <= k < s.tasks[i].produced ==> Output(i, k) in s.log)
    && (forall i :: 0 <= i < |s.log| && s.log[i].Output? ==>
          s.log[i].task < |s.tasks| && s.log[i].index < s.tasks[s.log[i].task].produced)
  }

  /** The sentinel is queued once, last of all. */
  ghost predicate SentinelLast(s: State) {
    forall i :: 0 <= i < |s.log| ==> (s.log[i] == Sentinel <==> s.reader == Finished && i == |s.log| - 1)
  }

  ghost predicate QueueIsFifo(s: State) {
    && s.log == s.delivered + (if s.answered then [Sentinel] else []) + s.queue
    && |s.queue| <= OUTPUT_QUEUE_MAX
    && Sentinel !in s.delivered
    && (s.reader == Finished ==> s.log != [])
  }

  ghost predicate Inv(s: State) {
    && OneInFlight(s) && TasksAsAsked(s) && CancellationsAwaited(s) && ErrorsAsRead(s)
    && LogOfTasks(s) && SentinelLast(s) && QueueIsFifo(s)
  }

  lemma TasksStep(s: State, step: Step)
    requires OneInFlight(s) && Enabled(s, step)
    ensures OneInFlight(After(s, step))
  {
  }

  lemma AskedStep(s: State, step: Step)
    requires OneInFlight(s) && TasksAsAsked(s) && Enabled(s, step)
    ensures TasksAsAsked(After(s, step))
  {
    hide Asked, Given;
    var s' := After(s, step);
    if step.Read? {
      AskedSnoc(s.read, step.dispatch);
    }
    if |s'.tasks| > |s.tasks| {
      GivenSnoc(s.tasks, s'.tasks[|s.tasks|]);
    } else {
      GivenKept(s.tasks, s'.tasks);
    }
  }

  lemma AskedSnoc(ds: seq<Dispatch>, d: Dispatch)
    ensures Asked(ds + [d]) == Asked(ds) + (if d.Process? then [d.utterance] else [])
  {
    assert (ds + [d])[..|ds|] == ds;
  }

  lemma GivenSnoc(tasks: seq<Task>, t: Task)
    ensures Given(tasks + [t]) == Given(tasks) + [t.utterance]
  {
    assert (tasks + [t])[..|tasks|] == tasks;
  }

  lemma {:induction false} GivenKept(a: seq<Task>, b: seq<Task>)
    requires |a| == |b| && forall i :: 0 <= i < |a| ==> a[i].utterance == b[i].utterance
    ensures Given(a) == Given(b)
  {
    if a != [] {
      GivenKept(a[..|a| - 1], b[..|b| - 1]);
    }
  }

  lemma AwaitedStep(s: State, step: Step)
    requires OneInFlight(s) && CancellationsAwaited(s) && Enabled(s, step)
    ensures CancellationsAwaited(After(s, step))
  {
  }

  lemma ErrorsStep(s: State, step: Step)
    requires ErrorsAsRead(s) && Enabled(s, step)
    ensures ErrorsAsRead(After(s, step))
  {
    hide OverflowsIn, ErrorsIn;
    var s' := After(s, step);
    if step.Read? {
      OverflowsSnoc(s.read, step.dispatch);
    } else if s'.log != s.log {
      ErrorsSnoc(s.log, s'.log[|s.log|]);
    }
  }

  lemma OverflowsSnoc(ds: seq<Dispatch>, d: Dispatch)
    ensures OverflowsIn(ds + [d]) == OverflowsIn(ds) + (if d.Overflow? then 1 else 0)
  {
    assert (ds + [d])[..|ds|] == ds;
  }

  lemma ErrorsSnoc(items: seq<Item>, item: Item)
    ensures ErrorsIn(items + [item]) == ErrorsIn(items) + (if item.OverflowError? then 1 else 0)
  {
    assert (items + [item])[..|items|] == items;
  }

  lemma OutputLogged(s: State, i: nat)
    requires OneInFlight(s) && LogOfTasks(s) && Enabled(s, TaskOutput(i))
    ensures LogOfTasks(After(s, TaskOutput(i)))
  {
  }

  /** Nothing but an output changes what the log and the tasks have in common. */
  predicate SameOutputs(s: State, s': State) {
    && (s'.log == s.log || (|s'.log| == |s.log| + 1 && s'.log[..|s.log|] == s.log && !s'.log[|s.log|].Output?))
    && |s'.tasks| >= |s.tasks|
    && (forall i :: 0 <= i < |s.tasks| ==> s'.tasks[i].produced == s.tasks[i].produced)
    && (forall i :: |s.tasks| <= i < |s'.tasks| ==> s'.tasks[i].produced == 0)
  }

  lemma OthersKeepOutputs(s: State, step: Step)
    requires OneInFlight(s) && Enabled(s, step) && !step.TaskOutput?
    ensures SameOutputs(s, After(s, step))
  {
  }

  lemma SameOutputsKeep(s: State, s': State)
    requires LogOfTasks(s) && SameOutputs(s, s')
    ensures LogOfTasks(s')
  {
    assert forall i :: 0 <= i < |s.log| ==> s'.log[i] == s.log[i];
  }

  lemma LogStep(s: State, step: Step)
    requires OneInFlight(s) && LogOfTasks(s) && Enabled(s, step)
    ensures LogOfTasks(After(s, step))
  {
    hide OneInFlight, LogOfTasks, After, SameOutputs;
    if step.TaskOutput? {
      OutputLogged(s, step.task);
    } else {
      OthersKeepOutputs(s, step);
      SameOutputsKeep(s, After(s, step));
    }
  }

  lemma SentinelStep(s: State, step: Step)
    requires OneInFlight(s) && SentinelLast(s) && Enabled(s, step)
    ensures SentinelLast(After(s, step))
  {
  }

  lemma DeliverStep(s: State)
    requires SentinelLast(s) && QueueIsFifo(s) && Enabled(s, Deliver)
    ensures QueueIsFifo(After(s, Deliver))
  {
    var item, rest := s.queue[0], s.queue[1..];
    assert s.log[|s.delivered|] == item;
    assert s.queue == [item] + rest;
    assert s.delivered + [] + ([item] + rest) == s.delivered + [item] + rest;
  }

  lemma QueueStep(s: State, step: Step)
    requires SentinelLast(s) && QueueIsFifo(s) && Enabled(s, step)
    ensures QueueIsFifo(After(s, step))
  {
    hide After, Enabled;
    if step == Deliver {
      DeliverStep(s);
    } else {
      var s' := After(s, step);
      QueuesOne(s, step);
      hide SentinelLast;
      if s'.log != s.log {
        EnqueueStep(s, s', s'.log[|s.log|]);
      }
    }
  }

  /** Only a delivery takes from the queue; other steps queue one item at most. */
  lemma QueuesOne(s: State, step: Step)
    requires Enabled(s, step) && step != Deliver
    ensures
      var s' := After(s, step);
      && s'.delivered == s.delivered && s'.answered == s.answered
      && (if s'.log == s.log then s'.queue == s.queue && (s'.reader == Finished ==> s.reader == Finished)
          else HasRoom(s) && exists item :: s'.log == s.log + [item] && s'.queue == s.queue + [item])
  {
    var s' := After(s, step);
    if s'.log != s.log {
      var item := s'.log[|s.log|];
      assert s'.log == s.log + [item] && s'.queue == s.queue + [item];
    }
  }

  lemma EnqueueStep(s: State, s': State, item: Item)
    requires QueueIsFifo(s) && HasRoom(s)
    requires s'.log == s.log + [item] && s'.queue == s.queue + [item]
    requires s'.delivered == s.delivered && s'.answered == s.answered
    ensures QueueIsFifo(s')
  {
    var head := s.delivered + (if s.answered then [Sentinel] else []);
    assert head + s.queue + [item] == head + (s.queue + [item]);
  }

  lemma {:induction false} RunInv(steps: seq<Step>)
    requires Run(steps).Some?
    ensures Inv(Run(steps).value)
  {
    if steps != [] {
      var before, step := steps[..|steps| - 1], steps[|steps| - 1];
      RunInv(before);
      var s := Run(before).value;
      TasksStep(s, step);
      AskedStep(s, step);
      AwaitedStep(s, step);
      ErrorsStep(s, step);
      LogStep(s, step);
      SentinelStep(s, step);
      QueueStep(s, step);
    }
  }

  // ---- What every run keeps ----

  /** In every reachable state at most one task is live, and the outputs queued so far are in
      blocks, one task after another: nothing of another task stands between two outputs of
      one. */
  lemma OneTaskAtATime(steps: seq<Step>, i: nat, j: nat)
    requires Run(steps).Some?
    requires var s := Run(steps).value; Alive(s, i) && Alive(s, j)
    ensures i == j
  {
    RunInv(steps);
  }

  lemma OutputsNeverInterleave(steps: seq<Step>, i: nat, j: nat, k: nat)
    requires Run(steps).Some?
    requires
      var log := Run(steps).value.log;
      i < j < k < |log| && log[i].Output? && log[j].Output? && log[k].Output? && log[i].task == log[k].task
    ensures
      var log := Run(steps).value.log;
      log[j].task == log[i].task && log[i].index < log[j].index < log[k].index
  {
    RunInv(steps);
  }

  /** With a response in flight, a message asks it to cancel exactly if it completes an utterance
      or interrupts. The reader then waits for its end, and afterwards starts that utterance, if
      there is one. */
  lemma ReadCancels(s: State, d: Dispatch)
    requires OneInFlight(s) && CancellationsAwaited(s) && Enabled(s, Read(d)) && InFlight(s)
    ensures
      var i, s' := s.current.value, After(s, Read(d));
      && Alive(s', i) && !s.tasks[i].cancelRequested
      && (s'.tasks[i].cancelRequested <==> Displaces(d))
      && (Displaces(d) <==> s'.reader.AwaitingCancel?)
      && (Displaces(d) ==> s'.reader == AwaitingCancel(if d.Process? then Some(d.utterance) else None))
  {
  }

  /** Step `k` reads a message that completes an utterance or interrupts, while response `i`
      is in flight. */
  predicate DisplacedBy(steps: seq<Step>, i: nat, k: nat) {
    && k < |steps| && steps[k].Read? && Displaces(steps[k].dispatch)
    && var s := Run(steps[..k]); s.Some? && Alive(s.value, i)
  }

  predicate ToldToCancel(s: State, i: nat) {
    i < |s.tasks| && s.tasks[i].cancelRequested
  }

  lemma CancelStep(s: State, step: Step, i: nat)
    requires OneInFlight(s) && Enabled(s, step)
    ensures ToldToCancel(After(s, step), i) <==>
              ToldToCancel(s, i) || (Alive(s, i) && step.Read? && Displaces(step.dispatch))
  {
  }

  /** Over every run a response is told to stop exactly if a message read while it was in flight
      completes an utterance long enough to process, or interrupts: a clip that is too short
      never is the cause, and an interrupt always is. */
  lemma {:induction false} OnlyUtterancesCancel(steps: seq<Step>, i: nat)
    requires Run(steps).Some?
    ensures ToldToCancel(Run(steps).value, i) <==> exists k :: DisplacedBy(steps, i, k)
  {
    hide ToldToCancel, DisplacedBy, Alive, Displaces;
    if steps == [] {
      NoneTold(i);
    } else {
      var before, step := steps[..|steps| - 1], steps[|steps| - 1];
      var s := LastStep(steps);
      hide Run, After, Enabled, OneInFlight;
      OneIsInFlight(before);
      CancelStep(s, step, i);
      OnlyUtterancesCancel(before, i);
      OneMoreStep(before, step, steps, i);
    }
  }

  lemma OneIsInFlight(steps: seq<Step>)
    requires Run(steps).Some?
    ensures OneInFlight(Run(steps).value)
  {
    RunInv(steps);
  }

  lemma LastStep(steps: seq<Step>) returns (s: State)
    requires steps != [] && Run(steps).Some?
    ensures
      var before, step := steps[..|steps| - 1], steps[|steps| - 1];
      Run(before) == Some(s) && Enabled(s, step) && Run(steps) == Some(After(s, step))
  {
    s := Run(steps[..|steps| - 1]).value;
  }

  lemma NoneTold(i: nat)
    ensures !ToldToCancel(INIT, i) && forall k :: !DisplacedBy([], i, k)
  {
  }

  lemma OneMoreStep(before: seq<Step>, step: Step, steps: seq<Step>, i: nat)
    requires Run(before).Some? && steps == before + [step]
    ensures (exists k :: DisplacedBy(steps, i, k)) <==>
              (exists k :: DisplacedBy(before, i, k)) || (Alive(Run(before).value, i) && step.Read? && Displaces(step.dispatch))
  {
    hide Run, Alive, Displaces;
    forall k: nat | k < |before| ensures DisplacedBy(steps, i, k) <==> DisplacedBy(before, i, k) {
      assert before[..k] == steps[..k];
    }
    assert steps[..|before|] == before;
    assert DisplacedBy(steps, i, |before|) <==> Alive(Run(before).value, i) && step.Read? && Displaces(step.dispatch);
  }

  /** When the stream has been answered to its end, everything ever queued but the one
      sentinel was delivered, in order; no task is live, and every utterance that the input
      asked for, and no other, got its task, every output a task made was delivered, and every
      overflow was answered with its error. */
  lemma AnsweredInFull(steps: seq<Step>)
    requires Run(steps).Some? && Run(steps).value.answered
    ensures
      var s := Run(steps).value;
      && s.log == s.delivered + [Sentinel] && Sentinel !in s.delivered
      && s.reader == Finished && s.queue == []
      && (forall i :: !Alive(s, i))
      && Given(s.tasks) == Asked(s.read)
      && (forall i, k :: 0 <= i < |s.tasks| && 0 <= k < s.tasks[i].produced ==> Output(i, k) in s.delivered)
      && ErrorsIn(s.delivered) == OverflowsIn(s.read)
  {
    RunInv(steps);
    var s := Run(steps).value;
    var n := |s.delivered|;
    assert s.log[n] == Sentinel;
    ErrorsSnoc(s.delivered, Sentinel);
  }

  lemma SentinelIsStillQueued(s: State)
    requires SentinelLast(s) && QueueIsFifo(s) && s.reader == Finished && !s.answered
    ensures s.queue != []
  {
    assert s.log[|s.log| - 1] == Sentinel;
    assert s.queue == [] ==> s.log == s.delivered;
  }

  /** Nothing ever waits for itself: until the stream is answered some step other than
      reading another message is enabled. */
  lemma NeverStuck(steps: seq<Step>)
    requires Run(steps).Some? && !Run(steps).value.answered
    ensures exists step :: Enabled(Run(steps).value, step) && !step.Read?
  {
    RunInv(steps);
    var s := Run(steps).value;
    hide Run;
    if s.reader == Finished {
      SentinelIsStillQueued(s);
    }
    var step := if s.queue != [] then Deliver
                else if InFlight(s) then TaskEnds(s.current.value)
                else match s.reader
                     case Reading => InputEnds
                     case QueueingError => QueueError
                     case AwaitingCancel(_) => CancelDone
                     case Draining => DrainDone
                     case _ => QueueSentinel;
    assert Enabled(s, step);
  }

  // ---- Every stream comes to its end ----

  /** How many steps the reader, what is in flight and the queue can take without another
      message or output. */
  function Remaining(s: State): nat {
    (match s.reader
     case AwaitingCancel(_) => 6
     case QueueingError => 6
     case Reading => 4
     case Draining => 3
     case QueueingSentinel => 2
     case Finished => 0) +
    (if InFlight(s) then 1 else 0) + |s.queue|
  }

  lemma RemainingStep(s: State, step: Step)
    requires OneInFlight(s) && Enabled(s, step) && !step.Read?
    ensures
      if step.TaskOutput? then Remaining(After(s, step)) == Remaining(s) + 1
      else Remaining(After(s, step)) < Remaining(s)
  {
  }

  function OutputsIn(steps: seq<Step>): nat {
    if steps == [] then 0
    else OutputsIn(steps[..|steps| - 1]) + (if steps[|steps| - 1].TaskOutput? then 1 else 0)
  }

  predicate NothingRead(steps: seq<Step>) {
    forall i :: 0 <= i < |steps| ==> !steps[i].Read?
  }

  lemma {:induction false} RemainingShrinks(steps: seq<Step>, more: seq<Step>)
    requires Run(steps + more).Some? && NothingRead(more)
    ensures
      && Run(steps).Some?
      && |more| + Remaining(Run(steps + more).value) <= Remaining(Run(steps).value) + 2 * OutputsIn(more)
    decreases |more|
  {
    hide Remaining, After, Enabled;
    if more == [] {
      assert steps + more == steps;
    } else {
      var before, step := more[..|more| - 1], more[|more| - 1];
      assert (steps + more)[..|steps + more| - 1] == steps + before;
      assert (steps + more)[|steps + more| - 1] == step;
      RemainingShrinks(steps, before);
      RunInv(steps + before);
      RemainingStep(Run(steps + before).value, step);
    }
  }

  /** From any reachable state, a continuation that reads nothing more is bounded by the outputs
      it contains, and one that cannot be continued has answered the stream in full: with
      finite outputs every stream whose input has ended is answered. */
  lemma EveryStreamIsAnswered(steps: seq<Step>, more: seq<Step>)
    requires Run(steps + more).Some? && NothingRead(more)
    ensures Run(steps).Some? && |more| <= Remaining(Run(steps).value) + 2 * OutputsIn(more)
    ensures
      var s := Run(steps + more).value;
      (forall step :: Enabled(s, step) ==> step.Read?) ==> s.answered && s.log == s.delivered + [Sentinel]
  {
    hide Remaining, Run;
    RemainingShrinks(steps, more);
    if Run(steps + more).value.answered {
      AnsweredInFull(steps + more);
    } else {
      NeverStuck(steps + more);
    }
  }
}
