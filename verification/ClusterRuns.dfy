/** The server as a transition system: every handler is one atomic step, every attempt
    of a pending reconfiguration is one step, and steps interleave freely. The choices
    the code leaves open are part of the step, so a run is a sequence of steps. */
module ClusterRuns {
  import opened ClusterTypes
  import opened ClusterSpec
  import opened ClusterFacts
  import opened ClusterSafety

  /** pending holds, for every reconfiguration still in flight, the number of attempts it
      has already made. */
  datatype System = System(v: View, pending: multiset<nat>, clock: int, lastTick: int)

  datatype Step =
    | DoRegister(now: int, id: Name, url: Name, launch: Launch)
    | DoStart(now: int, launch: Launch)
    | DoHeartbeat(now: int, id: Name)
    | DoReport(now: int, id: Name)
    | DoRemove(now: int, id: Name)
    | DoAttempt(now: int, made: nat, round: Round)
    | DoTick(now: int)
    | DoCleanSessions(now: int)
    | DoSweep(now: int)

  /** The view one attempt works on, after the guard of the first. */
  function Entering(v: View, made: nat): View {
    if made == 0 && MayEnter(v) then Enter(v) else v
  }

  predicate Refused(v: View, made: nat) {
    made == 0 && !MayEnter(v)
  }

  /** No step follows Failed: the process has exited. */
  predicate Enabled(cfg: Config, s: System, step: Step) {
    && s.v.phase != Failed
    && step.now >= s.clock
    && match step
       case DoRegister(now, id, url, l) => ValidRegistration(cfg, s.v, id, url, now, l)
       case DoStart(_, l) => Launches(cfg, s.v) ==> ValidLaunch(s.v.nodes, l)
       case DoAttempt(_, made, r) =>
         made in s.pending && (!Refused(s.v, made) ==> ValidRound(cfg, s.v.nodes, r))
       case _ => true
  }

  predicate GoesOn(cfg: Config, v: View, made: nat, r: Round)
    requires !Refused(v, made) ==> ValidRound(cfg, v.nodes, r)
  {
    !Refused(v, made) && Retries(cfg, Entering(v, made), r)
  }

  function AttemptStep(cfg: Config, v: View, made: nat, r: Round): View
    requires !Refused(v, made) ==> ValidRound(cfg, v.nodes, r)
  {
    if Refused(v, made) then MoveTo(v, Failed)
    else
      var w := Attempt(cfg, Entering(v, made), r);
      if GoesOn(cfg, v, made, r) && made + 1 >= MAX_ATTEMPTS then MoveTo(w, Failed) else w
  }

  function NextView(cfg: Config, s: System, step: Step): View
    requires Enabled(cfg, s, step)
  {
    match step
    case DoRegister(now, id, url, l) => Register(cfg, s.v, id, url, now, l)
    case DoStart(_, l) => StartProgram(cfg, s.v, l)
    case DoHeartbeat(now, id) => Heartbeat(s.v, id, now)
    case DoReport(_, id) => ReportFailure(s.v, id)
    case DoRemove(_, id) => Remove(s.v, id)
    case DoAttempt(_, made, r) => AttemptStep(cfg, s.v, made, r)
    case DoTick(now) => Tick(cfg, s.v, now)
    case DoCleanSessions(now) => s.v.(sessions := CleanSessions(s.v.sessions, now, cfg.timeout * 2))
    case DoSweep(now) => Sweep(cfg, s.v, now)
  }

  function NextPending(cfg: Config, s: System, step: Step): multiset<nat>
    requires Enabled(cfg, s, step)
  {
    match step
    case DoReport(_, id) => if LosesActive(s.v, id) then s.pending + multiset{0} else s.pending
    case DoRemove(_, id) => if LosesActive(s.v, id) then s.pending + multiset{0} else s.pending
    case DoAttempt(_, made, r) =>
      s.pending - multiset{made}
      + (if GoesOn(cfg, s.v, made, r) && made + 1 < MAX_ATTEMPTS then multiset{made + 1} else multiset{})
    case _ => s.pending
  }

  function After(cfg: Config, s: System, step: Step): System
    requires Enabled(cfg, s, step)
  {
    System(NextView(cfg, s, step), NextPending(cfg, s, step), step.now,
           if step.DoTick? then step.now else s.lastTick)
  }

  const EMPTY_VIEW := View(map[], map[], map[], 0, 0, 0, Initializing, map[])

  function Boot(start: int): System {
    System(EMPTY_VIEW, multiset{}, start, start)
  }

  predicate Leads(cfg: Config, s: System, steps: seq<Step>, t: System)
    decreases |steps|
  {
    if steps == [] then s == t
    else Enabled(cfg, s, steps[0]) && Leads(cfg, After(cfg, s, steps[0]), steps[1..], t)
  }

  /** Runs are extended one step at a time. */
  lemma {:induction false} RunExtends(cfg: Config, s: System, steps: seq<Step>, t: System, step: Step)
    requires Leads(cfg, s, steps, t) && Enabled(cfg, t, step)
    ensures Leads(cfg, s, steps + [step], After(cfg, t, step))
    decreases |steps|
  {
    if steps == [] {
      assert Leads(cfg, After(cfg, t, step), [], After(cfg, t, step));
    } else {
      RunExtends(cfg, After(cfg, s, steps[0]), steps[1..], t, step);
      assert (steps + [step])[1..] == steps[1..] + [step];
    }
  }

  /** The bookkeeping beside the view: who is still reconfiguring, and how the clock bounds
      the heartbeats. */
  predicate Booked(s: System) {
    && (forall k :: k in s.pending ==> k < MAX_ATTEMPTS)
    && (s.v.phase == Initializing ==> s.pending == multiset{})
    && s.lastTick <= s.clock
    && forall id :: id in s.v.health ==> s.v.health[id].last <= s.clock
  }

  predicate Invariant(cfg: Config, s: System) {
    Safe(cfg, s.v) && Booked(s)
  }

  lemma BootInvariant(cfg: Config, start: int)
    requires cfg.Valid()
    ensures Invariant(cfg, Boot(start))
  {
  }

  lemma MoveFrame(v: View, p: Phase)
    ensures SameMembers(v, MoveTo(v, p)) && MoveTo(v, p).nodes == v.nodes
  {
  }

  lemma AttemptStepFrame(cfg: Config, v: View, made: nat, r: Round)
    requires v.phase != Initializing
    requires !Refused(v, made) ==> ValidRound(cfg, v.nodes, r)
    ensures SameMembers(v, AttemptStep(cfg, v, made, r))
    ensures AttemptStep(cfg, v, made, r).phase != Initializing
  {
    if !Refused(v, made) {
      var u := Entering(v, made);
      assert SameMembers(v, AttemptStep(cfg, v, made, r)) by {
        MoveFrame(v, Reconfiguring);
        AttemptMembers(cfg, u, r);
        MoveFrame(Attempt(cfg, u, r), Failed);
      }
      AttemptPhase(cfg, u, r);
    }
  }

  lemma AttemptStepSafe(cfg: Config, s: System, made: nat, r: Round)
    requires Invariant(cfg, s) && made in s.pending
    requires !Refused(s.v, made) ==> ValidRound(cfg, s.v.nodes, r)
    ensures Safe(cfg, AttemptStep(cfg, s.v, made, r))
  {
    assert s.v.phase != Initializing;
    if !Refused(s.v, made) {
      var v := Entering(s.v, made);
      if made == 0 {
        EnterSafe(cfg, s.v);
      }
      AttemptSafe(cfg, v, r);
      FailedSafe(cfg, Attempt(cfg, v, r));
    }
  }

  lemma StepSafe(cfg: Config, s: System, step: Step)
    requires Invariant(cfg, s) && Enabled(cfg, s, step)
    ensures Safe(cfg, NextView(cfg, s, step))
  {
    match step
    case DoRegister(now, id, url, l) => RegisterSafe(cfg, s.v, id, url, now, l);
    case DoStart(_, l) => StartSafe(cfg, s.v, l);
    case DoHeartbeat(now, id) => HeartbeatSafe(cfg, s.v, id, now);
    case DoReport(_, id) => ReportSafe(cfg, s.v, id);
    case DoRemove(_, id) => RemoveSafe(cfg, s.v, id);
    case DoAttempt(_, made, r) => AttemptStepSafe(cfg, s, made, r);
    case DoTick(now) => TickSafe(cfg, s.v, now);
    case DoCleanSessions(now) => CleanSessionsSafe(cfg, s.v, now, cfg.timeout * 2);
    case DoSweep(now) => SweepSafe(cfg, s.v, now);
  }

  /** Health records after a step come from before it, or carry the step's own time. */
  lemma StepHealth(cfg: Config, s: System, step: Step)
    requires Invariant(cfg, s) && Enabled(cfg, s, step)
    ensures forall id :: id in NextView(cfg, s, step).health ==>
      || NextView(cfg, s, step).health[id].last == step.now
      || (id in s.v.health && NextView(cfg, s, step).health[id].last == s.v.health[id].last)
  {
    match step
    case DoRegister(now, id, url, l) => RegisterHealth(cfg, s.v, id, url, now, l);
    case DoStart(_, l) => StartFrame(cfg, s.v, l);
    case DoReport(_, id) => ReportFrame(s.v, id);
    case DoAttempt(_, made, r) => AttemptStepFrame(cfg, s.v, made, r);
    case _ =>
  }

  lemma RegisterHealth(cfg: Config, v: View, id: Name, url: Name, now: int, l: Launch)
    requires ValidRegistration(cfg, v, id, url, now, l)
    ensures var w := Register(cfg, v, id, url, now, l);
      && (w.phase == Initializing ==> v.phase == Initializing)
      && forall x :: x in w.health ==>
        (x == id && w.health[x].last == now) || (x in v.health && w.health[x] == v.health[x])
  {
    if Admits(cfg, v, id) && Triggers(cfg, Admitted(cfg, v, id, url, now)) {
      StartFrame(cfg, Admitted(cfg, v, id, url, now), l);
    }
  }

  lemma StepPhase(cfg: Config, s: System, step: Step)
    requires Invariant(cfg, s) && Enabled(cfg, s, step)
    ensures NextView(cfg, s, step).phase == Initializing ==>
      s.v.phase == Initializing && NextPending(cfg, s, step) == s.pending
    ensures forall k :: k in NextPending(cfg, s, step) ==> k < MAX_ATTEMPTS
  {
    match step
    case DoRegister(now, id, url, l) => RegisterHealth(cfg, s.v, id, url, now, l);
    case DoStart(_, l) => StartFrame(cfg, s.v, l);
    case DoReport(_, id) => ReportFrame(s.v, id);
    case DoAttempt(_, made, r) => AttemptStepFrame(cfg, s.v, made, r);
    case _ =>
  }

  lemma StepInvariant(cfg: Config, s: System, step: Step)
    requires Invariant(cfg, s) && Enabled(cfg, s, step)
    ensures Invariant(cfg, After(cfg, s, step))
  {
    StepSafe(cfg, s, step);
    StepHealth(cfg, s, step);
    StepPhase(cfg, s, step);
  }

  lemma {:induction false} RunInvariant(cfg: Config, s: System, steps: seq<Step>, t: System)
    requires Invariant(cfg, s) && Leads(cfg, s, steps, t)
    ensures Invariant(cfg, t)
    decreases |steps|
  {
    if steps != [] {
      StepInvariant(cfg, s, steps[0]);
      RunInvariant(cfg, After(cfg, s, steps[0]), steps[1..], t);
    }
  }
}
