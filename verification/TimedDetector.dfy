/** The failure detector in time: health ticks come at most half a time-out apart, and the
    dead-connection sweep waits two time-outs. */
module TimedDetector {
  import opened Collections
  import opened ClusterTypes
  import opened ClusterSpec
  import opened ClusterFacts
  import opened ClusterRuns
  import opened ClusterTheorems
  import opened Hearing

  /** The ticker's period is half the time-out, an integer division. No step happens later than
      one period after the last tick, so ticks never come further apart. */
  predicate TimedRun(cfg: Config, s: System, steps: seq<Step>)
    decreases |steps|
  {
    steps != [] ==>
      && Enabled(cfg, s, steps[0])
      && steps[0].now <= s.lastTick + cfg.timeout / 2
      && TimedRun(cfg, After(cfg, s, steps[0]), steps[1..])
  }

  /** Every node not yet failed had been heard from within a time-out of the last tick. */
  ghost predicate HeardOf(cfg: Config, s: System) {
    && s.clock <= s.lastTick + cfg.timeout / 2
    && forall id :: IsLive(s.v, id) && id in s.v.health ==> s.lastTick <= s.v.health[id].last + cfg.timeout
  }

  /** A step brings a node to life only by hearing from it at that very time. */
  lemma LiveBefore(cfg: Config, s: System, step: Step, id: Name)
    requires Invariant(cfg, s) && Enabled(cfg, s, step)
    requires IsLive(NextView(cfg, s, step), id)
    ensures IsLive(s.v, id) || (step.DoRegister? && step.id == id && id !in s.v.nodes)
  {
    if NodeHasFailed(s.v, id) {
      StepKeepsFailed(cfg, s, step, id);
    } else if id !in s.v.nodes {
      StepMembers(cfg, s, step);
    }
  }

  /** The registry gains an entry only through a registration. */
  lemma StepMembers(cfg: Config, s: System, step: Step)
    requires Invariant(cfg, s) && Enabled(cfg, s, step)
    ensures forall id :: id in NextView(cfg, s, step).nodes ==>
      id in s.v.nodes || (step.DoRegister? && step.id == id)
  {
    match step
    case DoRegister(now, id, url, l) =>
      if Admits(cfg, s.v, id) {
        var w := Admitted(cfg, s.v, id, url, now);
        if Triggers(cfg, w) {
          StartFrame(cfg, w, l);
        }
      }
    case DoStart(_, l) => StartFrame(cfg, s.v, l);
    case DoReport(_, id) => ReportFrame(s.v, id);
    case DoAttempt(_, made, r) => AttemptStepFrame(cfg, s.v, made, r);
    case _ =>
  }

  lemma StepHeardOf(cfg: Config, s: System, step: Step)
    requires cfg.Valid() && Invariant(cfg, s) && Enabled(cfg, s, step) && HeardOf(cfg, s)
    requires step.now <= s.lastTick + cfg.timeout / 2
    ensures HeardOf(cfg, After(cfg, s, step))
  {
    var t := After(cfg, s, step);
    StepInvariant(cfg, s, step);
    StepHealth(cfg, s, step);
    forall id | IsLive(t.v, id) && id in t.v.health
      ensures t.lastTick <= t.v.health[id].last + cfg.timeout
    {
      LiveBefore(cfg, s, step, id);
      if step.DoTick? {
        assert id !in TimedOut(cfg, s.v, step.now);
      }
    }
  }

  lemma {:induction false} RunHeardOf(cfg: Config, s: System, steps: seq<Step>, t: System)
    requires cfg.Valid() && Invariant(cfg, s) && HeardOf(cfg, s)
    requires Leads(cfg, s, steps, t) && TimedRun(cfg, s, steps)
    ensures Invariant(cfg, t) && HeardOf(cfg, t)
    decreases |steps|
  {
    if steps != [] {
      StepInvariant(cfg, s, steps[0]);
      StepHeardOf(cfg, s, steps[0]);
      RunHeardOf(cfg, After(cfg, s, steps[0]), steps[1..], t);
    }
  }

  /** Detection delay: a node silent for more than T + T/2 has failed, in every timed run. */
  lemma SilentNodesHaveFailed(cfg: Config, start: int, steps: seq<Step>, t: System, id: Name)
    requires cfg.Valid() && Leads(cfg, Boot(start), steps, t) && TimedRun(cfg, Boot(start), steps)
    requires id in t.v.nodes
    requires t.clock > LastHeard(cfg, Boot(start), steps, id, start) + cfg.timeout + cfg.timeout / 2
    ensures NodeHasFailed(t.v, id)
  {
    RecordsSayLastHeard(cfg, start, steps, t, id);
    BootInvariant(cfg, start);
    RunHeardOf(cfg, Boot(start), steps, t);
    assert !IsLive(t.v, id);
  }

  /** So the sweep deletes only entries that have already failed, and lowers no counter. */
  lemma SweepDeletesOnlyFailed(cfg: Config, start: int, steps: seq<Step>, t: System, now: int)
    requires cfg.Valid() && Leads(cfg, Boot(start), steps, t) && TimedRun(cfg, Boot(start), steps)
    requires t.clock <= now <= t.lastTick + cfg.timeout / 2
    ensures forall id :: id in t.v.nodes && id !in Sweep(cfg, t.v, now).nodes ==> NodeHasFailed(t.v, id)
    ensures Sweep(cfg, t.v, now).activeCtr == t.v.activeCtr && Sweep(cfg, t.v, now).standbyCtr == t.v.standbyCtr
  {
    assert Invariant(cfg, t) && HeardOf(cfg, t) by {
      BootInvariant(cfg, start);
      RunHeardOf(cfg, Boot(start), steps, t);
    }
    var dead := DeadConnections(cfg, t.v, now);
    forall id | id in dead && id in t.v.nodes
      ensures NodeHasFailed(t.v, id)
    {
      assert !IsLive(t.v, id);
    }
    assert t.v.Actives() * dead == {} && t.v.Standbys() * dead == {};
  }

  // ----- a node that keeps its heartbeats is left alone -----

  /** At every step of the run the node was last heard of at most a time-out ago, and no step
      reports it, removes it, or refuses a command in its name. heard is when that was last the
      case before the run. */
  predicate KeptAlive(cfg: Config, s: System, steps: seq<Step>, id: Name, heard: int)
    decreases |steps|
  {
    steps != [] ==>
      && Enabled(cfg, s, steps[0])
      && steps[0].now <= heard + cfg.timeout
      && !Targets(cfg, s, steps[0], id)
      && KeptAlive(cfg, After(cfg, s, steps[0]), steps[1..], id,
                   if Hears(cfg, s, steps[0], id) then steps[0].now else heard)
  }

  predicate Targets(cfg: Config, s: System, step: Step, id: Name)
    requires Enabled(cfg, s, step)
  {
    match step
    case DoReport(_, x) => x == id
    case DoRemove(_, x) => x == id
    case DoAttempt(_, made, r) => GoesOn(cfg, s.v, made, r) && id in UrlsOf(s.v.nodes, r.rejecting)
    case _ => false
  }

  lemma StartKeepsLive(cfg: Config, v: View, l: Launch, id: Name)
    requires (Launches(cfg, v) ==> ValidLaunch(v.nodes, l)) && IsLive(v, id)
    ensures IsLive(StartProgram(cfg, v, l), id)
  {
    if Launches(cfg, v) {
      assert forall x :: x in l.order ==> x in Elems(l.order);
      RankedStatus(v.nodes, l.order, Active);
    }
  }

  lemma PromotionKeepsLive(cfg: Config, v: View, r: Round, id: Name)
    requires ValidRound(cfg, v.nodes, r) && IsLive(v, id)
    ensures IsLive(AfterPromotion(cfg, v, r), id)
  {
    PromotedStatus(cfg, v.nodes, r.promoted);
    assert id !in WithStatus(v.nodes, NodeFailed);
    assert id !in WithStatus(Promoted(v.nodes, r.promoted), NodeFailed);
  }

  lemma SentKeepsLive(cfg: Config, v: View, r: Round, id: Name)
    requires ValidRound(cfg, v.nodes, r) && IsLive(v, id)
    requires Sufficient(cfg, Promoted(v.nodes, r.promoted))
    ensures IsLive(Sent(cfg, v, r), id)
  {
    PromotionKeepsLive(cfg, v, r, id);
    assert forall x :: x in r.order ==> x in Elems(r.order);
    RankedStatus(Promoted(v.nodes, r.promoted), r.order, Active);
  }

  lemma AttemptKeepsLive(cfg: Config, v: View, r: Round, id: Name)
    requires ValidRound(cfg, v.nodes, r) && IsLive(v, id)
    requires !(Retries(cfg, v, r) && id in UrlsOf(v.nodes, r.rejecting))
    ensures IsLive(Attempt(cfg, v, r), id)
  {
    PromotionKeepsLive(cfg, v, r, id);
    if Sufficient(cfg, Promoted(v.nodes, r.promoted)) {
      var w := Sent(cfg, v, r);
      SentKeepsLive(cfg, v, r, id);
      assert UrlsOf(w.nodes, r.rejecting) == UrlsOf(v.nodes, r.rejecting) by {
        SentUrls(cfg, v, r);
      }
    }
  }

  lemma AttemptStepKeepsLive(cfg: Config, v: View, made: nat, r: Round, id: Name)
    requires !Refused(v, made) ==> ValidRound(cfg, v.nodes, r)
    requires IsLive(v, id) && !(GoesOn(cfg, v, made, r) && id in UrlsOf(v.nodes, r.rejecting))
    ensures IsLive(AttemptStep(cfg, v, made, r), id)
  {
    if !Refused(v, made) {
      AttemptKeepsLive(cfg, Entering(v, made), r, id);
    }
  }

  lemma RegisterKeepsLive(cfg: Config, v: View, x: Name, url: Name, now: int, l: Launch, id: Name)
    requires v.nodes.Keys <= v.sessions.Keys && ValidRegistration(cfg, v, x, url, now, l) && IsLive(v, id)
    ensures IsLive(Register(cfg, v, x, url, now, l), id)
  {
    if Admits(cfg, v, x) {
      var w := Admitted(cfg, v, x, url, now);
      if Triggers(cfg, w) {
        StartKeepsLive(cfg, w, l, id);
      }
    }
  }

  lemma ReportKeepsLive(v: View, x: Name, id: Name)
    requires IsLive(v, id) && x != id
    ensures IsLive(ReportFailure(v, x), id) && IsLive(Remove(v, x), id)
  {
    if FailureTaken(v, x) {
      ReportEffect(v, x);
      RemoveEffect(v, x);
    }
  }

  /** The two timers, met by a node heard of within a time-out. */
  lemma TimersKeepLive(cfg: Config, v: View, now: int, id: Name)
    requires cfg.timeout >= 0 && IsLive(v, id) && id in v.health && now <= v.health[id].last + cfg.timeout
    ensures IsLive(Tick(cfg, v, now), id) && IsLive(Sweep(cfg, v, now), id)
  {
    assert id !in TimedOut(cfg, v, now) && id !in DeadConnections(cfg, v, now);
  }

  lemma StepKeepsLive(cfg: Config, s: System, step: Step, id: Name)
    requires cfg.Valid() && Invariant(cfg, s) && Enabled(cfg, s, step) && IsLive(s.v, id)
    requires step.now <= s.v.health[id].last + cfg.timeout && !Targets(cfg, s, step, id)
    ensures IsLive(NextView(cfg, s, step), id)
  {
    match step
    case DoRegister(now, x, url, l) => RegisterKeepsLive(cfg, s.v, x, url, now, l, id);
    case DoStart(_, l) => StartKeepsLive(cfg, s.v, l, id);
    case DoAttempt(_, made, r) => AttemptStepKeepsLive(cfg, s.v, made, r, id);
    case DoReport(_, x) => ReportKeepsLive(s.v, x, id);
    case DoRemove(_, x) => ReportKeepsLive(s.v, x, id);
    case DoTick(now) => TimersKeepLive(cfg, s.v, now, id);
    case DoSweep(now) => TimersKeepLive(cfg, s.v, now, id);
    case _ =>
  }

  lemma {:induction false} LiveStaysLive(cfg: Config, s: System, steps: seq<Step>, t: System, id: Name, heard: int)
    requires cfg.Valid() && Invariant(cfg, s) && Leads(cfg, s, steps, t)
    requires IsLive(s.v, id) && s.v.health[id].last == heard && KeptAlive(cfg, s, steps, id, heard)
    ensures IsLive(t.v, id)
    decreases |steps|
  {
    if steps != [] {
      var u := After(cfg, s, steps[0]);
      StepKeepsLive(cfg, s, steps[0], id);
      StepInvariant(cfg, s, steps[0]);
      StepHears(cfg, s, steps[0], id);
      LiveStaysLive(cfg, u, steps[1..], t, id, u.v.health[id].last);
    }
  }

  /** A node that is heard of, by registrations let in and heartbeats served, with gaps that never
      exceed the time-out is never failed and never deleted by the timers, whatever else happens
      around it. */
  lemma TimersSpareTheLive(
    cfg: Config, start: int, before: seq<Step>, s: System, steps: seq<Step>, t: System, id: Name)
    requires cfg.Valid() && Leads(cfg, Boot(start), before, s) && Leads(cfg, s, steps, t)
    requires IsLive(s.v, id)
    requires KeptAlive(cfg, s, steps, id, LastHeard(cfg, Boot(start), before, id, start))
    ensures IsLive(t.v, id)
  {
    BootInvariant(cfg, start);
    RunInvariant(cfg, Boot(start), before, s);
    RecordsSayLastHeard(cfg, start, before, s, id);
    LiveStaysLive(cfg, s, steps, t, id, s.v.health[id].last);
  }
}
