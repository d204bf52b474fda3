/** The hub's session registry: the negotiations (hub/src/http.rs) and the device tasks
    (hub/src/device.rs) that share the maps `device_tasks` and `tts_sub` and a cancellation
    token per session.

    Every access to a map or token is one step, and steps of different sessions may
    interleave in any order. A session's number stands for its token and for its channel. */
module Registry {
  import opened Audio

  type Sid = nat

  /** Where a session stands, from its negotiation to the end of its device task. */
  datatype Pc =
    | Displacing(prior: Option<Sid>)  // took the previous token out of device_tasks
    | Preparing                     // cancelled it; set-up that may fail is under way
    | Aborted                       // set-up failed
    | Registered                    // own token in device_tasks, task not spawned yet
    | Spawned
    | Running                       // subscribed in tts_sub; the relay loop
    | Exited                        // left the loop
    | Retired                       // cancelled its own token
    | Checked(drop: bool)           // looked device_tasks up; `drop` says to unsubscribe
    | Unsubscribed
    | Done

  datatype Session = Session(device: string, pc: Pc)

  datatype State = State(
    sessions: map<Sid, Session>,
    cancelled: set<Sid>,
    deviceTasks: map<string, Sid>,
    ttsSub: map<string, Sid>)

  const INIT := State(map[], {}, map[], map[])

  datatype Step =
    | Negotiate(sid: Sid, device: string)
    | CancelOld(sid: Sid)
    | Abort(sid: Sid)
    | Register(sid: Sid)
    | Spawn(sid: Sid)
    | Subscribe(sid: Sid)
    | Exit(sid: Sid)
    | CancelOwn(sid: Sid)
    | Check(sid: Sid)
    | Unsubscribe(sid: Sid)
    | CheckAndUnsubscribe(sid: Sid)  // what the two steps above would be if they were one
    | Forget(sid: Sid)
    | PeerFailed(sid: Sid)           // the peer-connection callback cancels the token

  predicate At(s: State, sid: Sid, pc: Pc) {
    sid in s.sessions && s.sessions[sid].pc == pc
  }

  /** The cleanup's question: is the device free of any session but cancelled ones? */
  predicate Vacant(s: State, device: string) {
    device !in s.deviceTasks || s.deviceTasks[device] in s.cancelled
  }

  predicate Enabled(s: State, step: Step) {
    match step
    case Negotiate(sid, _) => sid !in s.sessions
    case CancelOld(sid) => sid in s.sessions && s.sessions[sid].pc.Displacing?
    case Abort(sid) => At(s, sid, Preparing)
    case Register(sid) => At(s, sid, Preparing)
    case Spawn(sid) => At(s, sid, Registered)
    case Subscribe(sid) => At(s, sid, Spawned)
    case Exit(sid) => At(s, sid, Running)
    case CancelOwn(sid) => At(s, sid, Exited)
    case Check(sid) => At(s, sid, Retired)
    case Unsubscribe(sid) => sid in s.sessions && s.sessions[sid].pc.Checked?
    case CheckAndUnsubscribe(sid) => At(s, sid, Retired)
    case Forget(sid) => At(s, sid, Unsubscribed)
    case PeerFailed(sid) => sid in s.sessions && !s.sessions[sid].pc.Displacing?
  }

  function Goto(s: State, sid: Sid, pc: Pc): State
    requires sid in s.sessions
  {
    s.(sessions := s.sessions[sid := s.sessions[sid].(pc := pc)])
  }

  function After(s: State, step: Step): State
    requires Enabled(s, step)
  {
    match step
    case Negotiate(sid, d) =>
      State(
        s.sessions[sid := Session(d, Displacing(if d in s.deviceTasks then Some(s.deviceTasks[d]) else None))],
        s.cancelled, s.deviceTasks - {d}, s.ttsSub)
    case CancelOld(sid) =>
      var prior := s.sessions[sid].pc.prior;
      Goto(s, sid, Preparing).(cancelled := if prior.Some? then s.cancelled + {prior.value} else s.cancelled)
    case Abort(sid) => Goto(s, sid, Aborted)
    case Register(sid) =>
      Goto(s, sid, Registered).(deviceTasks := s.deviceTasks[s.sessions[sid].device := sid])
    case Spawn(sid) => Goto(s, sid, Spawned)
    case Subscribe(sid) =>
      Goto(s, sid, Running).(ttsSub := s.ttsSub[s.sessions[sid].device := sid])
    case Exit(sid) => Goto(s, sid, Exited)
    case CancelOwn(sid) => Goto(s, sid, Retired).(cancelled := s.cancelled + {sid})
    case Check(sid) => Goto(s, sid, Checked(Vacant(s, s.sessions[sid].device)))
    case Unsubscribe(sid) =>
      Goto(s, sid, Unsubscribed).(
        ttsSub := if s.sessions[sid].pc.drop then s.ttsSub - {s.sessions[sid].device} else s.ttsSub)
    case CheckAndUnsubscribe(sid) =>
      Goto(s, sid, Unsubscribed).(
        ttsSub := if Vacant(s, s.sessions[sid].device) then s.ttsSub - {s.sessions[sid].device} else s.ttsSub)
    case Forget(sid) =>
      var d := s.sessions[sid].device;
      Goto(s, sid, Done).(
        deviceTasks := if d in s.deviceTasks && s.deviceTasks[d] in s.cancelled then s.deviceTasks - {d} else s.deviceTasks)
    case PeerFailed(sid) => s.(cancelled := s.cancelled + {sid})
  }

  /** The state after a list of steps, if each is enabled when its turn comes. */
  function Run(steps: seq<Step>): Option<State> {
    if steps == [] then Some(INIT)
    else
      var s := Run(steps[..|steps| - 1]);
      if s.Some? && Enabled(s.value, steps[|steps| - 1]) then Some(After(s.value, steps[|steps| - 1])) else None
  }

  // ---- Quiescence ----

  /** A session that has yet to make its cleanup check, or has made it and will unsubscribe. */
  predicate WillClean(pc: Pc) {
    pc.Registered? || pc.Spawned? || pc.Running? || pc.Exited? || pc.Retired? || pc == Checked(true)
  }

  predicate OnRecord(pc: Pc) {
    WillClean(pc) || pc.Checked? || pc.Unsubscribed?
  }

  predicate Finishing(pc: Pc) {
    pc.Retired? || pc.Checked? || pc.Unsubscribed?
  }

  /** A token in device_tasks belongs to a registered session that is not yet done with it. */
  ghost predicate TokensAreLive(s: State) {
    forall d :: d in s.deviceTasks ==>
      s.deviceTasks[d] in s.sessions && s.sessions[s.deviceTasks[d]].device == d
      && OnRecord(s.sessions[s.deviceTasks[d]].pc)
  }

  ghost predicate FinishersAreCancelled(s: State) {
    forall sid :: sid in s.sessions && Finishing(s.sessions[sid].pc) ==> sid in s.cancelled
  }

  /** Someone will still clean up after every subscription. */
  ghost predicate HasCleaner(s: State, d: string) {
    exists sid :: sid in s.sessions && s.sessions[sid].device == d && WillClean(s.sessions[sid].pc)
  }

  ghost predicate Inv(s: State) {
    TokensAreLive(s) && FinishersAreCancelled(s) && forall d :: d in s.ttsSub ==> HasCleaner(s, d)
  }

  lemma FinishersStep(s: State, step: Step)
    requires FinishersAreCancelled(s) && Enabled(s, step)
    ensures FinishersAreCancelled(After(s, step))
  {
  }

  lemma LiveTokensStep(s: State, step: Step)
    requires TokensAreLive(s) && FinishersAreCancelled(s) && Enabled(s, step)
    ensures TokensAreLive(After(s, step))
  {
  }

  lemma TokensStep(s: State, step: Step)
    requires TokensAreLive(s) && FinishersAreCancelled(s) && Enabled(s, step)
    ensures TokensAreLive(After(s, step)) && FinishersAreCancelled(After(s, step))
  {
    hide TokensAreLive, FinishersAreCancelled, After, Enabled;
    LiveTokensStep(s, step);
    FinishersStep(s, step);
  }

  lemma CleanerStep(s: State, step: Step, d: string)
    requires TokensAreLive(s) && FinishersAreCancelled(s) && Enabled(s, step)
    requires d in After(s, step).ttsSub && (d in s.ttsSub ==> HasCleaner(s, d))
    ensures HasCleaner(After(s, step), d)
  {
    var s' := After(s, step);
    if step.Subscribe? && s.sessions[step.sid].device == d {
      assert WillClean(s'.sessions[step.sid].pc);
    } else {
      var c :| c in s.sessions && s.sessions[c].device == d && WillClean(s.sessions[c].pc);
      if WillClean(s'.sessions[c].pc) {
        assert s'.sessions[c].device == d;
      } else {
        // The checker found a live session in its place; that one has yet to clean up.
        var t := s.deviceTasks[d];
        assert WillClean(s'.sessions[t].pc) && s'.sessions[t].device == d;
      }
    }
  }

  lemma InvStep(s: State, step: Step)
    requires Inv(s) && Enabled(s, step)
    ensures Inv(After(s, step))
  {
    TokensStep(s, step);
    forall d | d in After(s, step).ttsSub ensures HasCleaner(After(s, step), d) {
      CleanerStep(s, step, d);
    }
  }

  lemma {:induction false} RunInv(steps: seq<Step>)
    requires Run(steps).Some?
    ensures Inv(Run(steps).value)
  {
    if steps != [] {
      RunInv(steps[..|steps| - 1]);
      InvStep(Run(steps[..|steps| - 1]).value, steps[|steps| - 1]);
    }
  }

  /** No session of `d` is between its registration and the end of its cleanup. */
  predicate Quiet(s: State, d: string) {
    forall sid :: sid in s.sessions && s.sessions[sid].device == d ==> !OnRecord(s.sessions[sid].pc)
  }

  /** Under every interleaving of any number of sessions: once all spawned sessions of a device
      have cleaned up and none is between registration and spawn, the registry has forgotten
      the device. */
  lemma Quiescence(steps: seq<Step>, d: string)
    requires Run(steps).Some? && Quiet(Run(steps).value, d)
    ensures d !in Run(steps).value.ttsSub && d !in Run(steps).value.deviceTasks
  {
    RunInv(steps);
  }

  // ---- Who is on record ----

  predicate OnRecordAs(s: State, d: string, t: Sid) {
    d in s.deviceTasks && s.deviceTasks[d] == t
  }

  /** The two steps that take device `d` off whoever it is recorded for: a negotiation, and a
      registration. `s` knows the session's device. */
  predicate Displaces(s: State, step: Step, d: string) {
    || (step.Negotiate? && step.device == d)
    || (step.Register? && step.sid in s.sessions && s.sessions[step.sid].device == d)
  }

  /** Nothing else removes the token of a session that is not cancelled: not a cleanup, of this
      session or another, and nothing brings a token back. */
  lemma RecordStep(s: State, step: Step, d: string, t: Sid)
    requires TokensAreLive(s) && Enabled(s, step) && t !in After(s, step).cancelled && step != Register(t)
    ensures OnRecordAs(After(s, step), d, t) <==> OnRecordAs(s, d, t) && !Displaces(s, step, d)
  {
  }

  /** A cleanup removes the device's entry exactly if the token in it is cancelled. */
  lemma ForgetsTheCancelled(s: State, sid: Sid)
    requires Enabled(s, Forget(sid))
    ensures
      var d, s' := s.sessions[sid].device, After(s, Forget(sid));
      && (d in s'.deviceTasks <==> d in s.deviceTasks && s.deviceTasks[d] !in s.cancelled)
      && s'.deviceTasks - {d} == s.deviceTasks - {d}
      && (d in s'.deviceTasks ==> s'.deviceTasks[d] == s.deviceTasks[d])
  {
  }

  /** A token is cancelled by its own session's end, by its peer's failure, or by a session that
      took it off the record, and by nothing else. */
  lemma CancelledBy(s: State, step: Step, t: Sid)
    requires Enabled(s, step) && t !in s.cancelled
    ensures t in After(s, step).cancelled <==>
              step == CancelOwn(t) || step == PeerFailed(t) || (step.CancelOld? && WillCancel(s, step.sid, t))
  {
  }

  /** Session `u` took `t` off the record and has yet to cancel it. */
  predicate WillCancel(s: State, u: Sid, t: Sid) {
    u in s.sessions && s.sessions[u].pc == Displacing(Some(t))
  }

  lemma WillCancelStep(s: State, step: Step, u: Sid, t: Sid)
    requires Enabled(s, step) && t !in After(s, step).cancelled
    ensures WillCancel(After(s, step), u, t) <==>
              WillCancel(s, u, t) || (step.Negotiate? && step.sid == u && OnRecordAs(s, step.device, t))
  {
  }

  predicate PastRegistering(s: State, t: Sid) {
    t in s.sessions && !s.sessions[t].pc.Displacing? && !s.sessions[t].pc.Preparing?
  }

  /** Only who has registered can be displaced. */
  ghost predicate PriorsRegistered(s: State) {
    forall u, t :: WillCancel(s, u, t) ==> PastRegistering(s, t)
  }

  lemma PriorsStep(s: State, step: Step)
    requires TokensAreLive(s) && PriorsRegistered(s) && Enabled(s, step)
    ensures PriorsRegistered(After(s, step))
  {
    forall u, t | WillCancel(After(s, step), u, t) ensures PastRegistering(After(s, step), t) {
      assert WillCancel(s, u, t) || OnRecordAs(s, step.device, t);
    }
  }

  lemma {:induction false} RunPriors(steps: seq<Step>)
    requires Run(steps).Some?
    ensures PriorsRegistered(Run(steps).value)
  {
    if steps != [] {
      var s := LastStep(steps);
      hide After, Enabled, PriorsRegistered;
      RunInv(steps[..|steps| - 1]);
      RunPriors(steps[..|steps| - 1]);
      PriorsStep(s, steps[|steps| - 1]);
    }
  }

  lemma LastStep(steps: seq<Step>) returns (s: State)
    requires steps != [] && Run(steps).Some?
    ensures
      var before, step := steps[..|steps| - 1], steps[|steps| - 1];
      Run(before) == Some(s) && Enabled(s, step) && Run(steps) == Some(After(s, step))
  {
    s := Run(steps[..|steps| - 1]).value;
  }

  /** Step `k` after the run `start` is a negotiation, or a registration, for device `d`. */
  predicate DisplacedAt(start: seq<Step>, later: seq<Step>, d: string, k: nat) {
    k < |later| && var s := Run(start + later[..k]); s.Some? && Displaces(s.value, later[k], d)
  }

  /** It is a registration that finds `t` still on record: nobody was told to cancel `t`. */
  predicate OverwrittenAt(start: seq<Step>, later: seq<Step>, d: string, t: Sid, k: nat) {
    && DisplacedAt(start, later, d, k) && later[k].Register?
    && OnRecordAs(Run(start + later[..k]).value, d, t)
  }

  lemma DisplacedSnoc(start: seq<Step>, before: seq<Step>, step: Step, d: string, t: Sid)
    requires Run(start + before).Some?
    ensures
      var s, later := Run(start + before).value, before + [step];
      && ((exists k :: DisplacedAt(start, later, d, k)) <==> (exists k :: DisplacedAt(start, before, d, k)) || Displaces(s, step, d))
      && ((exists k :: OverwrittenAt(start, later, d, t, k)) <==>
            (exists k :: OverwrittenAt(start, before, d, t, k)) || (Displaces(s, step, d) && step.Register? && OnRecordAs(s, d, t)))
      && ((exists k :: OverwrittenAt(start, before, d, t, k)) ==> exists k :: DisplacedAt(start, before, d, k))
  {
    hide Run, Displaces, OnRecordAs;
    var s, later := Run(start + before).value, before + [step];
    forall k: nat | k < |before|
      ensures DisplacedAt(start, later, d, k) <==> DisplacedAt(start, before, d, k)
      ensures OverwrittenAt(start, later, d, t, k) <==> OverwrittenAt(start, before, d, t, k)
    {
      assert before[..k] == later[..k];
    }
    assert later[..|before|] == before;
    assert DisplacedAt(start, later, d, |before|) <==> Displaces(s, step, d);
    assert OverwrittenAt(start, later, d, t, |before|) <==> Displaces(s, step, d) && step.Register? && OnRecordAs(s, d, t);
  }

  /** Where `t` stands, as told by the state and as told by the steps since it registered. */
  ghost predicate Stands(s: State, d: string, t: Sid, displaced: bool, overwritten: bool) {
    && (OnRecordAs(s, d, t) <==> !displaced)
    && ((exists u :: WillCancel(s, u, t)) <==> displaced && !overwritten)
  }

  lemma StandsAtFirst(s0: State, d: string, t: Sid)
    requires PriorsRegistered(s0) && Enabled(s0, Register(t)) && After(s0, Register(t)).sessions[t].device == d
    ensures Stands(After(s0, Register(t)), d, t, false, false)
  {
    forall u ensures !WillCancel(After(s0, Register(t)), u, t) {
      assert !WillCancel(s0, u, t);
    }
  }

  lemma NotDisplacedYet(start: seq<Step>, d: string, t: Sid)
    ensures forall k :: !DisplacedAt(start, [], d, k) && !OverwrittenAt(start, [], d, t, k)
  {
  }

  lemma InSessions(s: State, t: Sid)
    requires PastRegistering(s, t)
    ensures t in s.sessions
  {
  }

  /** Cancellation is for good, and a session keeps its device. */
  lemma UncancelledBefore(s: State, step: Step, d: string, t: Sid)
    requires Enabled(s, step) && PastRegistering(s, t)
    requires t !in After(s, step).cancelled && After(s, step).sessions[t].device == d
    ensures t !in s.cancelled && s.sessions[t].device == d
  {
  }

  lemma StandsStep(s: State, step: Step, d: string, t: Sid, displaced: bool, overwritten: bool)
    requires TokensAreLive(s) && Enabled(s, step) && step != Register(t) && t !in After(s, step).cancelled
    requires Stands(s, d, t, displaced, overwritten) && PastRegistering(s, t) && s.sessions[t].device == d
    requires overwritten ==> displaced
    ensures
      Stands(After(s, step), d, t, displaced || Displaces(s, step, d),
             overwritten || (Displaces(s, step, d) && step.Register? && OnRecordAs(s, d, t)))
  {
    var s' := After(s, step);
    RecordStep(s, step, d, t);
    forall u ensures WillCancel(s', u, t) <==>
                       WillCancel(s, u, t) || (step.Negotiate? && step.sid == u && OnRecordAs(s, step.device, t))
    {
      WillCancelStep(s, step, u, t);
    }
    hide After, Enabled, WillCancel;
    if step.Negotiate? && OnRecordAs(s, d, t) {
      assert step.device == d ==> WillCancel(s', step.sid, t);
    }
  }

  /** Over every run, the session `t` that registered and is not cancelled is on record exactly
      if there has been neither a negotiation nor a registration for its device since: no
      cleanup takes it off. Off the record it is about to be cancelled by the session that
      displaced it, exactly if a registration did not just overwrite it. */
  lemma {:induction false} StandsExactly(steps: seq<Step>, t: Sid, later: seq<Step>, d: string)
    requires
      var s := Run(steps + [Register(t)] + later);
      s.Some? && t in s.value.sessions && s.value.sessions[t].device == d && t !in s.value.cancelled
    ensures
      var start, s := steps + [Register(t)], Run(steps + [Register(t)] + later).value;
      Stands(s, d, t, exists k :: DisplacedAt(start, later, d, k), exists k :: OverwrittenAt(start, later, d, t, k))
    decreases |later|
  {
    hide After, Enabled, Stands, TokensAreLive, PriorsRegistered, PastRegistering, DisplacedAt, OverwrittenAt, Displaces, OnRecordAs;
    var start := steps + [Register(t)];
    var all := start + later;
    var s := LastStep(all);
    hide Run;
    if later == [] {
      assert all[..|all| - 1] == steps && all[|all| - 1] == Register(t);
      RunPriors(steps);
      StandsAtFirst(s, d, t);
      NotDisplacedYet(start, d, t);
    } else {
      var before, step := later[..|later| - 1], later[|later| - 1];
      assert all[..|all| - 1] == start + before && all[|all| - 1] == step;
      RunInv(start + before);
      RegistersOnce(steps, t, before);
      StaysPast(s, step, t);
      UncancelledBefore(s, step, d, t);
      InSessions(s, t);
      StandsExactly(steps, t, before, d);
      DisplacedSnoc(start, before, step, d, t);
      assert before + [step] == later;
      StandsStep(s, step, d, t, exists k :: DisplacedAt(start, before, d, k), exists k :: OverwrittenAt(start, before, d, t, k));
    }
  }

  lemma StaysAborted(s: State, step: Step, u: Sid)
    requires Enabled(s, step) && (step == Abort(u) || At(s, u, Aborted))
    ensures At(After(s, step), u, Aborted)
  {
  }

  lemma AbortedHasNothing(s: State, u: Sid, d: string)
    requires TokensAreLive(s) && At(s, u, Aborted)
    ensures !OnRecordAs(s, d, u)
  {
  }

  /** A negotiation that fails leaves no token behind, however long one waits: the device is free
      for the next. */
  lemma {:induction false} FailureLeavesNothing(steps: seq<Step>, u: Sid, later: seq<Step>, d: string)
    requires Run(steps + [Abort(u)] + later).Some?
    ensures
      var s := Run(steps + [Abort(u)] + later).value;
      At(s, u, Aborted) && !OnRecordAs(s, d, u)
    decreases |later|
  {
    hide After, Enabled, At, OnRecordAs, TokensAreLive;
    var all := steps + [Abort(u)] + later;
    var s := LastStep(all);
    RunInv(all);
    hide Run;
    if later == [] {
      assert all[|all| - 1] == Abort(u);
    } else {
      assert all[..|all| - 1] == steps + [Abort(u)] + later[..|later| - 1];
      FailureLeavesNothing(steps, u, later[..|later| - 1], d);
    }
    StaysAborted(s, all[|all| - 1], u);
    AbortedHasNothing(After(s, all[|all| - 1]), u, d);
  }

  // ---- One session per device ----

  /** A session between its negotiation and its registration. */
  predicate Negotiating(s: State, u: Sid, d: string) {
    u in s.sessions && s.sessions[u].device == d && (s.sessions[u].pc.Displacing? || s.sessions[u].pc.Preparing?)
  }

  /** The discipline under which the deduplication works: no negotiation for a device begins while
      another one is under way. */
  predicate Serialised(s: State, step: Step) {
    step.Negotiate? ==> forall u :: u in s.sessions ==> !Negotiating(s, u, step.device)
  }

  predicate SerialisedRun(steps: seq<Step>) {
    steps != [] ==>
      && SerialisedRun(steps[..|steps| - 1])
      && var s := Run(steps[..|steps| - 1]);
         s.Some? ==> Serialised(s.value, steps[|steps| - 1])
  }

  /** Who negotiates is alone with the device, whose entry is empty. */
  ghost predicate NegotiatesAlone(s: State) {
    && (forall u, d :: Negotiating(s, u, d) ==> d !in s.deviceTasks)
    && (forall u, v, d :: Negotiating(s, u, d) && Negotiating(s, v, d) ==> u == v)
  }

  /** A session that may be carrying on unhindered: registered, not cancelled and nobody about
      to cancel it. */
  ghost predicate Unhindered(s: State, d: string, t: Sid) {
    PastRegistering(s, t) && s.sessions[t].device == d && !s.sessions[t].pc.Aborted? && t !in s.cancelled
    && forall u :: !WillCancel(s, u, t)
  }

  ghost predicate UnhinderedOnRecord(s: State) {
    forall d, t :: Unhindered(s, d, t) ==> OnRecordAs(s, d, t)
  }

  lemma AloneStep(s: State, step: Step)
    requires NegotiatesAlone(s) && Enabled(s, step) && Serialised(s, step)
    ensures NegotiatesAlone(After(s, step))
  {
    var s' := After(s, step);
    assert step.Register? ==> Negotiating(s, step.sid, s.sessions[step.sid].device);
    forall u, d | Negotiating(s', u, d) ensures d !in s'.deviceTasks {
      assert Negotiating(s, u, d) || (step.Negotiate? && step.device == d);
    }
    forall u, v, d | Negotiating(s', u, d) && Negotiating(s', v, d) ensures u == v {
      assert Negotiating(s, u, d) || (step.Negotiate? && step.device == d && step.sid == u);
      assert Negotiating(s, v, d) || (step.Negotiate? && step.device == d && step.sid == v);
    }
  }

  lemma UnhinderedStep(s: State, step: Step, d: string, t: Sid)
    requires TokensAreLive(s) && NegotiatesAlone(s) && UnhinderedOnRecord(s) && Enabled(s, step) && Serialised(s, step)
    requires Unhindered(After(s, step), d, t)
    ensures OnRecordAs(After(s, step), d, t)
  {
    if step != Register(t) {
      var s' := After(s, step);
      forall u ensures !WillCancel(s, u, t) {
        assert !WillCancel(s', u, t);
        WillCancelStep(s, step, u, t);
      }
      WillCancelStep(s, step, step.sid, t);
      assert Unhindered(s, d, t);
      RecordStep(s, step, d, t);
      assert step.Register? && s.sessions[step.sid].device == d ==> Negotiating(s, step.sid, d);
    }
  }

  lemma {:induction false} RunSerialised(steps: seq<Step>)
    requires Run(steps).Some? && SerialisedRun(steps)
    ensures NegotiatesAlone(Run(steps).value) && UnhinderedOnRecord(Run(steps).value)
  {
    if steps != [] {
      var before, step := steps[..|steps| - 1], steps[|steps| - 1];
      var s := LastStep(steps);
      hide After, Enabled, NegotiatesAlone, Unhindered, Serialised, TokensAreLive, OnRecordAs;
      RunSerialised(before);
      RunInv(before);
      AloneStep(s, step);
      forall d, t | Unhindered(After(s, step), d, t) ensures OnRecordAs(After(s, step), d, t) {
        UnhinderedStep(s, step, d, t);
      }
    }
  }

  /** If negotiations of one device are serialised, then of its registered sessions at most one
      is neither cancelled nor about to be, and that is the one on record. */
  lemma OneSessionPerDevice(steps: seq<Step>, d: string, t: Sid)
    requires Run(steps).Some? && SerialisedRun(steps) && Unhindered(Run(steps).value, d, t)
    ensures OnRecordAs(Run(steps).value, d, t)
    ensures forall u :: Unhindered(Run(steps).value, d, u) ==> u == t
  {
    RunSerialised(steps);
    hide Run, Unhindered;
  }

  // ---- The live session's voice ----

  /** `t` is the session on record for `d`, uncancelled, subscribed and running. */
  predicate Live(s: State, d: string, t: Sid) {
    d in s.deviceTasks && s.deviceTasks[d] == t && t !in s.cancelled && At(s, t, Running)
  }

  predicate HasVoice(s: State, d: string, t: Sid) {
    d in s.ttsSub && s.ttsSub[d] == t
  }

  /** Between registering and subscribing. */
  predicate Pending(pc: Pc) {
    pc.Registered? || pc.Spawned?
  }

  /** The two disciplines under which the live session keeps its voice: the cleanup check and
      removal are one step, and no session registers before every session registered earlier
      for its device has subscribed. */
  predicate Disciplined(s: State, step: Step) {
    && !step.Check?
    && (step.Register? && step.sid in s.sessions ==>
          forall u :: u in s.sessions && s.sessions[u].device == s.sessions[step.sid].device ==> !Pending(s.sessions[u].pc))
  }

  predicate DisciplinedRun(steps: seq<Step>) {
    steps != [] ==>
      && DisciplinedRun(steps[..|steps| - 1])
      && var s := Run(steps[..|steps| - 1]);
         s.Some? ==> Disciplined(s.value, steps[|steps| - 1])
  }

  ghost predicate NoCheckOutstanding(s: State) {
    forall u :: u in s.sessions ==> !s.sessions[u].pc.Checked?
  }

  /** A session still to subscribe is the one on record, if any is. */
  ghost predicate PendingOnRecord(s: State) {
    forall u :: u in s.sessions && Pending(s.sessions[u].pc) && s.sessions[u].device in s.deviceTasks ==>
      s.deviceTasks[s.sessions[u].device] == u
  }

  ghost predicate VoiceInv(s: State) {
    TokensAreLive(s) && NoCheckOutstanding(s) && PendingOnRecord(s) && forall d, t :: Live(s, d, t) ==> HasVoice(s, d, t)
  }

  lemma PendingStep(s: State, step: Step)
    requires NoCheckOutstanding(s) && PendingOnRecord(s) && Enabled(s, step) && Disciplined(s, step)
    ensures NoCheckOutstanding(After(s, step)) && PendingOnRecord(After(s, step))
  {
  }

  lemma VoiceStep(s: State, step: Step, d: string, t: Sid)
    requires VoiceInv(s) && Enabled(s, step) && Disciplined(s, step) && Live(After(s, step), d, t)
    ensures HasVoice(After(s, step), d, t)
  {
    if !step.Subscribe? || step.sid != t {
      assert Live(s, d, t);
      assert !Vacant(s, d);
    }
  }

  /** With those disciplines alone -- negotiations of one device need not be serialised --
      the live session's channel is the subscribed one in every reachable state. */
  lemma {:induction false} LiveSessionKeepsVoice(steps: seq<Step>, d: string, t: Sid)
    requires Run(steps).Some? && DisciplinedRun(steps) && Live(Run(steps).value, d, t)
    ensures HasVoice(Run(steps).value, d, t)
  {
    RunVoiceInv(steps);
  }

  lemma {:induction false} RunVoiceInv(steps: seq<Step>)
    requires Run(steps).Some? && DisciplinedRun(steps)
    ensures VoiceInv(Run(steps).value)
  {
    if steps != [] {
      var before := steps[..|steps| - 1];
      RunVoiceInv(before);
      RunInv(before);
      var s, step := Run(before).value, steps[|steps| - 1];
      TokensStep(s, step);
      PendingStep(s, step);
      forall d, t | Live(After(s, step), d, t) ensures HasVoice(After(s, step), d, t) {
        VoiceStep(s, step, d, t);
      }
    }
  }

  /** A step of another session that takes the channel of session `t` from device `d`: acting
      on a check made earlier, or subscribing late. */
  predicate Robs(s: State, step: Step, d: string, t: Sid) {
    && (step.Unsubscribe? || step.Subscribe?)
    && step.sid in s.sessions && s.sessions[step.sid].device == d
    && (if step.Unsubscribe? then s.sessions[step.sid].pc == Checked(true) else step.sid != t)
  }

  /** Such a step was taken since `t` subscribed. */
  predicate Robbed(steps: seq<Step>, d: string, t: Sid) {
    steps != [] &&
    var before, step := steps[..|steps| - 1], steps[|steps| - 1];
    var s := Run(before);
    step != Subscribe(t) && (Robbed(before, d, t) || (s.Some? && Robs(s.value, step, d, t)))
  }

  lemma RobbedStep(s: State, step: Step, d: string, t: Sid)
    requires Enabled(s, step) && Live(s, d, t) && Live(After(s, step), d, t)
    ensures step != Subscribe(t) && (HasVoice(After(s, step), d, t) <==> HasVoice(s, d, t) && !Robs(s, step, d, t))
  {
    assert !Vacant(s, d);
  }

  lemma LiveBySubscribing(s: State, step: Step, d: string, t: Sid)
    requires TokensAreLive(s) && Enabled(s, step) && !Live(s, d, t) && Live(After(s, step), d, t)
    ensures step == Subscribe(t) && HasVoice(After(s, step), d, t)
  {
  }

  /** Over every run of the code as it stands, the last to write the device's subscription since
      a live session subscribed decides whether it has its channel. What can come to write it
      is settled earlier: see VoiceIsSettledAtRegistration. */
  lemma {:induction false} VoiceLostExactly(steps: seq<Step>, d: string, t: Sid)
    requires Run(steps).Some? && Live(Run(steps).value, d, t)
    ensures HasVoice(Run(steps).value, d, t) <==> !Robbed(steps, d, t)
  {
    hide After, Enabled, Live, HasVoice, Robs, TokensAreLive;
    assert steps != [] by {
      NoneLive(d, t);
    }
    var before, step := steps[..|steps| - 1], steps[|steps| - 1];
    var s := Run(before).value;
    RunInv(before);
    if Live(s, d, t) {
      RobbedStep(s, step, d, t);
      VoiceLostExactly(before, d, t);
    } else {
      LiveBySubscribing(s, step, d, t);
    }
  }

  lemma NoneLive(d: string, t: Sid)
    ensures !Live(INIT, d, t)
  {
  }

  // ---- What is settled when a session registers ----

  /** A session of `d` that, as things stand, will write the device's subscription on its own:
      it has yet to subscribe, or has decided to unsubscribe. */
  predicate Rival(s: State, d: string, u: Sid) {
    u in s.sessions && s.sessions[u].device == d && (Pending(s.sessions[u].pc) || s.sessions[u].pc == Checked(true))
  }

  predicate NoRivals(s: State, d: string) {
    forall u :: u in s.sessions ==> !Rival(s, d, u)
  }

  /** `t` is past its registration, still on record and not cancelled. */
  predicate Holds(s: State, d: string, t: Sid) {
    && d in s.deviceTasks && s.deviceTasks[d] == t && t !in s.cancelled
    && PastRegistering(s, t) && s.sessions[t].device == d
  }

  /** What became by `s` of the rivals that `t` had at `s0`: there are no new ones, and who had
      decided to unsubscribe has done so or will. */
  ghost predicate Settling(s0: State, s: State, d: string, t: Sid) {
    && (forall u :: u != t && Rival(s, d, u) ==>
          u in s0.sessions && s0.sessions[u].device == d
          && (if Pending(s.sessions[u].pc) then Pending(s0.sessions[u].pc) else s0.sessions[u].pc == Checked(true)))
    && (forall u :: u in s0.sessions ==>
          && u in s.sessions && s.sessions[u].device == s0.sessions[u].device
          && (s0.sessions[u].pc == Checked(true) ==> Decided(s.sessions[u].pc)))
  }

  lemma HoldsBefore(s: State, step: Step, d: string, t: Sid)
    requires TokensAreLive(s) && Enabled(s, step) && Holds(After(s, step), d, t) && step != Register(t)
    ensures Holds(s, d, t)
  {
  }

  /** While `t` holds the record no rival appears: a check finds the device occupied, and a
      registration would displace `t`. */
  lemma NoNewRival(s: State, step: Step, d: string, t: Sid, u: Sid)
    requires Enabled(s, step) && Holds(s, d, t) && Holds(After(s, step), d, t) && u != t && Rival(After(s, step), d, u)
    ensures Rival(s, d, u) && (Pending(s.sessions[u].pc) <==> Pending(After(s, step).sessions[u].pc))
  {
    assert !Vacant(s, d);
  }

  predicate Decided(pc: Pc) {
    pc == Checked(true) || pc.Unsubscribed? || pc.Done?
  }

  lemma DecisionStands(s: State, step: Step, u: Sid)
    requires Enabled(s, step) && u in s.sessions
    ensures
      var s' := After(s, step);
      && u in s'.sessions && s'.sessions[u].device == s.sessions[u].device
      && (Decided(s.sessions[u].pc) ==> Decided(s'.sessions[u].pc))
  {
  }

  lemma SettlingStep(s0: State, s: State, step: Step, d: string, t: Sid)
    requires Settling(s0, s, d, t) && Enabled(s, step) && Holds(s, d, t) && Holds(After(s, step), d, t)
    ensures Settling(s0, After(s, step), d, t)
  {
    hide After, Enabled, Holds, Decided;
    var s' := After(s, step);
    forall u | u != t && Rival(s', d, u)
      ensures Rival(s, d, u) && (Pending(s.sessions[u].pc) <==> Pending(s'.sessions[u].pc))
    {
      NoNewRival(s, step, d, t, u);
    }
    forall u | u in s0.sessions
      ensures u in s'.sessions && s'.sessions[u].device == s0.sessions[u].device
      ensures s0.sessions[u].pc == Checked(true) ==> Decided(s'.sessions[u].pc)
    {
      DecisionStands(s, step, u);
    }
  }

  /** A rival at `s0` does what made it one. */
  predicate Takes(s0: State, step: Step, d: string) {
    && (step.Subscribe? || step.Unsubscribe?) && Rival(s0, d, step.sid)
    && (step.Subscribe? <==> Pending(s0.sessions[step.sid].pc))
  }

  /** One of the rivals at `s0` did so after `t` subscribed. */
  predicate Taken(s0: State, later: seq<Step>, d: string, t: Sid) {
    later != [] &&
    var before, step := later[..|later| - 1], later[|later| - 1];
    step != Subscribe(t) && (Taken(s0, before, d, t) || Takes(s0, step, d))
  }

  lemma TakersRob(s0: State, s: State, step: Step, d: string, t: Sid)
    requires Settling(s0, s, d, t) && Enabled(s, step) && Live(s, d, t) && t in s0.sessions && !Rival(s0, d, t)
    ensures Robs(s, step, d, t) <==> Takes(s0, step, d)
  {
  }

  /** With `t` registered in `s0`, which the run reaches by `steps`, its later fate. */
  lemma {:induction false} AfterRegistration(steps: seq<Step>, t: Sid, later: seq<Step>, d: string)
    requires
      var s0 := Run(steps);
      s0.Some? && At(s0.value, t, Preparing) && s0.value.sessions[t].device == d
    requires
      var s := Run(steps + [Register(t)] + later);
      s.Some? && Holds(s.value, d, t)
    ensures
      var s0, s := Run(steps).value, Run(steps + [Register(t)] + later).value;
      && Settling(s0, s, d, t) && t !in s0.cancelled
      && (Live(s, d, t) ==> (HasVoice(s, d, t) <==> !Taken(s0, later, d, t)))
    decreases |later|
  {
    var s0 := Run(steps).value;
    var all := steps + [Register(t)] + later;
    hide After, Enabled, Live, HasVoice, Robs, Takes, TokensAreLive, Holds, Settling, PastRegistering;
    if later == [] {
      assert all[..|all| - 1] == steps && all[|all| - 1] == Register(t);
      Registering(s0, t, d);
      HoldersAreNotCancelled(Run(all).value, d, t);
    } else {
      var before, step := later[..|later| - 1], later[|later| - 1];
      var earlier := steps + [Register(t)] + before;
      assert all[..|all| - 1] == earlier && all[|all| - 1] == step;
      var s := Run(earlier).value;
      RunInv(earlier);
      RegistersOnce(steps, t, before);
      StaysPast(s, step, t);
      HoldsBefore(s, step, d, t);
      AfterRegistration(steps, t, before, d);
      SettlingStep(s0, s, step, d, t);
      if Live(After(s, step), d, t) {
        if Live(s, d, t) {
          RobbedStep(s, step, d, t);
          StillPreparing(s0, t, d);
          TakersRob(s0, s, step, d, t);
        } else {
          LiveBySubscribing(s, step, d, t);
        }
      }
    }
  }

  lemma StaysPast(s: State, step: Step, t: Sid)
    requires PastRegistering(s, t) && Enabled(s, step)
    ensures step != Register(t) && PastRegistering(After(s, step), t)
  {
  }

  lemma {:induction false} RegistersOnce(steps: seq<Step>, t: Sid, later: seq<Step>)
    requires Run(steps + [Register(t)] + later).Some?
    ensures PastRegistering(Run(steps + [Register(t)] + later).value, t)
    decreases |later|
  {
    hide PastRegistering;
    var all := steps + [Register(t)] + later;
    if later == [] {
      assert all[..|all| - 1] == steps && all[|all| - 1] == Register(t);
      JustRegistered(Run(steps).value, t);
    } else {
      hide After, Enabled;
      var before := later[..|later| - 1];
      assert all[..|all| - 1] == steps + [Register(t)] + before;
      RegistersOnce(steps, t, before);
      StaysPast(Run(steps + [Register(t)] + before).value, later[|later| - 1], t);
    }
  }

  lemma JustRegistered(s: State, t: Sid)
    requires Enabled(s, Register(t))
    ensures PastRegistering(After(s, Register(t)), t)
  {
  }

  lemma Registering(s0: State, t: Sid, d: string)
    requires At(s0, t, Preparing) && s0.sessions[t].device == d
    ensures
      var s := After(s0, Register(t));
      Enabled(s0, Register(t)) && Settling(s0, s, d, t) && !Live(s, d, t) && s.cancelled == s0.cancelled
  {
  }

  lemma HoldersAreNotCancelled(s: State, d: string, t: Sid)
    requires Holds(s, d, t)
    ensures t !in s.cancelled
  {
  }

  lemma LiveHolds(s: State, d: string, t: Sid)
    requires Live(s, d, t) && s.sessions[t].device == d
    ensures Holds(s, d, t)
  {
  }

  lemma StillPreparing(s0: State, t: Sid, d: string)
    requires At(s0, t, Preparing)
    ensures t in s0.sessions && !Rival(s0, d, t)
  {
  }
  lemma Extend(steps: seq<Step>, s: State, step: Step) returns (s': State)
    requires Run(steps) == Some(s) && Enabled(s, step)
    ensures s' == After(s, step) && Run(steps + [step]) == Some(s')
  {
    s' := After(s, step);
    assert (steps + [step])[..|steps|] == steps;
  }

  lemma {:induction false} NothingTaken(s0: State, later: seq<Step>, d: string, t: Sid)
    requires NoRivals(s0, d)
    ensures !Taken(s0, later, d, t)
  {
    if later != [] {
      NothingTaken(s0, later[..|later| - 1], d, t);
    }
  }

  /** In the code as it stands, over every continuation: the session that registers, whenever it
      is live, is without its channel exactly if a session that had yet to subscribe, or had
      decided to unsubscribe, when it registered does so after its own subscription. */
  lemma VoiceAfterRegistration(steps: seq<Step>, t: Sid, later: seq<Step>, d: string)
    requires
      var s0, s := Run(steps), Run(steps + [Register(t)] + later);
      && s0.Some? && At(s0.value, t, Preparing) && s0.value.sessions[t].device == d
      && s.Some? && Live(s.value, d, t)
    ensures
      var s0, s := Run(steps).value, Run(steps + [Register(t)] + later).value;
      && (HasVoice(s, d, t) <==> !Taken(s0, later, d, t))
      && (NoRivals(s0, d) ==> HasVoice(s, d, t))
  {
    hide After, Enabled, HasVoice, Takes, Settling;
    var all := steps + [Register(t)] + later;
    var s0 := Run(steps).value;
    RunInv(all);
    LiveHolds(Run(all).value, d, t);
    AfterRegistration(steps, t, later, d);
    if NoRivals(s0, d) {
      NothingTaken(s0, later, d, t);
    }
  }

  /** No continuation after `t` registers leaves it live without its channel. */
  ghost predicate VoiceIsSafe(steps: seq<Step>, t: Sid, d: string) {
    forall later :: var s := Run(steps + [Register(t)] + later);
      s.Some? && Live(s.value, d, t) ==> HasVoice(s.value, d, t)
  }

  function Subscribing(t: Sid): seq<Step> {
    [Register(t), Spawn(t), Subscribe(t)]
  }

  lemma SubscribesNext(steps: seq<Step>, s0: State, t: Sid, d: string) returns (s: State)
    requires Run(steps) == Some(s0) && At(s0, t, Preparing) && s0.sessions[t].device == d
    ensures Run(steps + Subscribing(t)) == Some(s)
    ensures s == State(s0.sessions[t := Session(d, Running)], s0.cancelled, s0.deviceTasks[d := t], s0.ttsSub[d := t])
  {
    hide Run;
    s := Extend(steps, s0, Register(t));
    s := Extend(steps + [Register(t)], s, Spawn(t));
    s := Extend(steps + [Register(t)] + [Spawn(t)], s, Subscribe(t));
    assert steps + [Register(t)] + [Spawn(t)] + [Subscribe(t)] == steps + Subscribing(t);
  }

  /** What a rival does to take the channel. */
  function Taking(u: Sid, pc: Pc): seq<Step> {
    if pc.Checked? then [Unsubscribe(u)] else if pc.Spawned? then [Subscribe(u)] else [Spawn(u), Subscribe(u)]
  }

  lemma Takeover(r: seq<Step>, s: State, u: Sid, d: string, t: Sid) returns (s': State)
    requires Run(r) == Some(s) && Live(s, d, t) && Rival(s, d, u)
    ensures Run(r + Taking(u, s.sessions[u].pc)) == Some(s') && Live(s', d, t) && !HasVoice(s', d, t)
  {
    hide Run;
    var pc := s.sessions[u].pc;
    if pc.Checked? {
      s' := Extend(r, s, Unsubscribe(u));
    } else if pc.Spawned? {
      s' := Extend(r, s, Subscribe(u));
    } else {
      s' := Extend(r, s, Spawn(u));
      s' := Extend(r + [Spawn(u)], s', Subscribe(u));
      assert r + [Spawn(u)] + [Subscribe(u)] == r + Taking(u, pc);
    }
  }

  /** A rival can always take the channel: the continuation in which it does. */
  lemma RivalTakes(steps: seq<Step>, t: Sid, d: string, u: Sid) returns (later: seq<Step>)
    requires
      var s0 := Run(steps);
      && s0.Some? && At(s0.value, t, Preparing) && s0.value.sessions[t].device == d
      && t !in s0.value.cancelled && Rival(s0.value, d, u)
    ensures
      var s := Run(steps + [Register(t)] + later);
      s.Some? && Live(s.value, d, t) && !HasVoice(s.value, d, t)
  {
    hide Run, HasVoice, Taking;
    var s0 := Run(steps).value;
    var s := SubscribesNext(steps, s0, t, d);
    var taking := Taking(u, s0.sessions[u].pc);
    later := [Spawn(t), Subscribe(t)] + taking;
    assert steps + Subscribing(t) + taking == steps + [Register(t)] + later;
    s := Takeover(steps + Subscribing(t), s, u, d, t);
  }

  /** Whether the session keeps its voice, whatever happens next and with no discipline on any
      step, is settled when it registers: exactly if it is cancelled already or no session of
      the device has yet to subscribe or has decided to unsubscribe. */
  lemma VoiceIsSettledAtRegistration(steps: seq<Step>, t: Sid, d: string)
    requires
      var s0 := Run(steps);
      s0.Some? && At(s0.value, t, Preparing) && s0.value.sessions[t].device == d
    ensures
      var s0 := Run(steps).value;
      VoiceIsSafe(steps, t, d) <==> t in s0.cancelled || NoRivals(s0, d)
  {
    hide Run, After, Enabled, Live, HasVoice, Rival;
    var s0 := Run(steps).value;
    if t !in s0.cancelled && !NoRivals(s0, d) {
      var u :| u in s0.sessions && Rival(s0, d, u);
      var later := RivalTakes(steps, t, d, u);
      assert !VoiceIsSafe(steps, t, d);
    } else {
      forall later | var s := Run(steps + [Register(t)] + later); s.Some? && Live(s.value, d, t)
        ensures HasVoice(Run(steps + [Register(t)] + later).value, d, t)
      {
        VoiceAfterRegistration(steps, t, later, d);
        NeverLiveIfCancelled(steps, t, later, d);
      }
    }
  }

  lemma NeverLiveIfCancelled(steps: seq<Step>, t: Sid, later: seq<Step>, d: string)
    requires
      var s0, s := Run(steps), Run(steps + [Register(t)] + later);
      && s0.Some? && At(s0.value, t, Preparing) && s0.value.sessions[t].device == d
      && s.Some? && Live(s.value, d, t)
    ensures t !in Run(steps).value.cancelled
  {
    hide After, Enabled, HasVoice, Takes, Settling;
    RunInv(steps + [Register(t)] + later);
    LiveHolds(Run(steps + [Register(t)] + later).value, d, t);
    AfterRegistration(steps, t, later, d);
  }

  // ---- Runs that show both disciplines are needed ----

  /** Session `sid` of device `d` from its negotiation to its spawning. */
  function Launch(sid: Sid, d: string): seq<Step> {
    [Negotiate(sid, d), CancelOld(sid), Register(sid), Spawn(sid)]
  }

  /** The run of the code as it stands that loses the new session's voice. (Its channel then has
      no sender, so its relay loop will end: the reconnected session is torn down.) The old session
      checks while it is still alone, the new one connects, then the old one unsubscribes.
      Every negotiation is over, and its session subscribed, before the next begins. */
  function StaleCheckRun(d: string): seq<Step> {
    Launch(0, d) + [Subscribe(0)] + [Exit(0), CancelOwn(0), Check(0)] + Launch(1, d) + [Subscribe(1)] + [Unsubscribe(0)]
  }

  /** With the check and removal in one step, a session that subscribes late takes over the
      channel of the one that replaced it. */
  function LateSubscriberRun(d: string): seq<Step> {
    Launch(0, d) + Launch(1, d) + [Subscribe(1)] + [Subscribe(0)]
  }

  lemma LaunchRuns(steps: seq<Step>, s: State, sid: Sid, d: string) returns (s': State)
    requires Run(steps) == Some(s) && sid !in s.sessions
    ensures Run(steps + Launch(sid, d)) == Some(s')
    ensures s' == State(
      s.sessions[sid := Session(d, Spawned)],
      if d in s.deviceTasks then s.cancelled + {s.deviceTasks[d]} else s.cancelled,
      s.deviceTasks[d := sid],
      s.ttsSub)
  {
    hide Run;
    s' := Extend(steps, s, Negotiate(sid, d));
    s' := Extend(steps + [Negotiate(sid, d)], s', CancelOld(sid));
    s' := Extend(steps + [Negotiate(sid, d)] + [CancelOld(sid)], s', Register(sid));
    s' := Extend(steps + [Negotiate(sid, d)] + [CancelOld(sid)] + [Register(sid)], s', Spawn(sid));
    assert steps + [Negotiate(sid, d)] + [CancelOld(sid)] + [Register(sid)] + [Spawn(sid)] == steps + Launch(sid, d);
  }

  /** A session that leaves its loop, up to its cleanup check. */
  lemma LeaveRuns(steps: seq<Step>, s: State, sid: Sid, d: string) returns (s': State)
    requires Run(steps) == Some(s) && At(s, sid, Running) && s.sessions[sid].device == d && d in s.deviceTasks
    ensures Run(steps + [Exit(sid), CancelOwn(sid), Check(sid)]) == Some(s')
    ensures s' == State(
      s.sessions[sid := Session(d, Checked(s.deviceTasks[d] in s.cancelled + {sid}))],
      s.cancelled + {sid}, s.deviceTasks, s.ttsSub)
  {
    hide Run;
    s' := Extend(steps, s, Exit(sid));
    s' := Extend(steps + [Exit(sid)], s', CancelOwn(sid));
    s' := Extend(steps + [Exit(sid)] + [CancelOwn(sid)], s', Check(sid));
    assert steps + [Exit(sid)] + [CancelOwn(sid)] + [Check(sid)] == steps + [Exit(sid), CancelOwn(sid), Check(sid)];
  }

  /** The stale check in the making: session 0 is alone and about to unsubscribe. */
  lemma AloneAtTheCheck(d: string) returns (s: State)
    ensures Run(Launch(0, d) + [Subscribe(0)] + [Exit(0), CancelOwn(0), Check(0)]) == Some(s)
    ensures s == State(map[0 := Session(d, Checked(true))], {0}, map[d := 0], map[d := 0])
  {
    assert Run([]) == Some(INIT);
    hide Run, Launch;
    s := LaunchRuns([], INIT, 0, d);
    assert [] + Launch(0, d) == Launch(0, d);
    s := Extend(Launch(0, d), s, Subscribe(0));
    s := LeaveRuns(Launch(0, d) + [Subscribe(0)], s, 0, d);
  }

  lemma StaleCheckSilences(d: string)
    ensures
      var end := Run(StaleCheckRun(d));
      end.Some? && Live(end.value, d, 1) && d !in end.value.ttsSub
  {
    hide Run, Launch;
    var s := AloneAtTheCheck(d);
    var r := Launch(0, d) + [Subscribe(0)] + [Exit(0), CancelOwn(0), Check(0)];
    s := LaunchRuns(r, s, 1, d);
    s := Extend(r + Launch(1, d), s, Subscribe(1));
    s := Extend(r + Launch(1, d) + [Subscribe(1)], s, Unsubscribe(0));
  }

  /** Two negotiations of one device that overlap: each finds nobody to displace. */
  function OverlappingRun(d: string): seq<Step> {
    [Negotiate(0, d)] + [Negotiate(1, d)] + Connecting(0) + Connecting(1)
  }

  /** A negotiating session, up to its relay loop. */
  function Connecting(sid: Sid): seq<Step> {
    [CancelOld(sid), Register(sid), Spawn(sid), Subscribe(sid)]
  }

  lemma Connects(steps: seq<Step>, s: State, sid: Sid, d: string) returns (s': State)
    requires Run(steps) == Some(s) && sid in s.sessions && s.sessions[sid] == Session(d, Displacing(None))
    ensures Run(steps + Connecting(sid)) == Some(s')
    ensures s' == State(s.sessions[sid := Session(d, Running)], s.cancelled, s.deviceTasks[d := sid], s.ttsSub[d := sid])
  {
    hide Run;
    s' := Extend(steps, s, CancelOld(sid));
    s' := Extend(steps + [CancelOld(sid)], s', Register(sid));
    s' := Extend(steps + [CancelOld(sid)] + [Register(sid)], s', Spawn(sid));
    s' := Extend(steps + [CancelOld(sid)] + [Register(sid)] + [Spawn(sid)], s', Subscribe(sid));
    assert steps + [CancelOld(sid)] + [Register(sid)] + [Spawn(sid)] + [Subscribe(sid)] == steps + Connecting(sid);
  }

  /** Without that discipline two sessions of a device run at once, and the older one is off the
      record without anyone to cancel it. */
  lemma OverlapLeavesTwo(d: string)
    ensures
      var end := Run(OverlappingRun(d));
      && end.Some? && At(end.value, 0, Running) && At(end.value, 1, Running)
      && Unhindered(end.value, d, 0) && Unhindered(end.value, d, 1) && OnRecordAs(end.value, d, 1)
  {
    assert Run([]) == Some(INIT);
    hide Run, Connecting;
    var s := Extend([], INIT, Negotiate(0, d));
    assert [] + [Negotiate(0, d)] == [Negotiate(0, d)];
    s := Extend([Negotiate(0, d)], s, Negotiate(1, d));
    s := Connects([Negotiate(0, d)] + [Negotiate(1, d)], s, 0, d);
    s := Connects([Negotiate(0, d)] + [Negotiate(1, d)] + Connecting(0), s, 1, d);
  }

  lemma LateSubscriberSilences(d: string)
    ensures
      var end := Run(LateSubscriberRun(d));
      end.Some? && Live(end.value, d, 1) && HasVoice(end.value, d, 0)
  {
    assert Run([]) == Some(INIT);
    hide Run, Launch;
    var s := LaunchRuns([], INIT, 0, d);
    assert [] + Launch(0, d) == Launch(0, d);
    s := LaunchRuns(Launch(0, d), s, 1, d);
    var r := Launch(0, d) + Launch(1, d);
    s := Extend(r, s, Subscribe(1));
    s := Extend(r + [Subscribe(1)], s, Subscribe(0));
  }
}
