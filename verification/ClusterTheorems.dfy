/** Safety over whole runs of the server. */
module ClusterTheorems {
  import opened Collections
  import opened ClusterTypes
  import opened ClusterSpec
  import opened ClusterFacts
  import opened ClusterSafety
  import opened ClusterRuns

  // ----- capacity and session coverage -----

  lemma CapacityOverEveryRun(cfg: Config, start: int, steps: seq<Step>, t: System)
    requires cfg.Valid() && Leads(cfg, Boot(start), steps, t)
    ensures |t.v.Actives()| <= t.v.activeCtr && |t.v.Actives()| <= cfg.ActiveNodes()
    ensures |t.v.Standbys()| <= t.v.standbyCtr && |t.v.Standbys()| <= cfg.StandbyCap()
  {
    BootInvariant(cfg, start);
    RunInvariant(cfg, Boot(start), steps, t);
  }

  /** Registry, health records and sessions agree, and a health record that says failed never
      contradicts the registry; so a registration that takes the new-node path never meets an
      entry, and cleaning sessions never drops a registered node's. */
  lemma SessionsCoverEveryRun(cfg: Config, start: int, steps: seq<Step>, t: System)
    requires cfg.Valid() && Leads(cfg, Boot(start), steps, t)
    ensures t.v.nodes.Keys == t.v.health.Keys
    ensures forall id :: id in t.v.nodes ==> id in t.v.sessions && t.v.sessions[id].connected
    ensures forall id :: id in t.v.health && t.v.health[id].status == NodeFailed ==> NodeHasFailed(t.v, id)
    ensures forall id :: Admits(cfg, t.v, id) ==> id !in t.v.nodes
    ensures forall id, now, limit :: id in t.v.nodes ==> id in CleanSessions(t.v.sessions, now, limit)
  {
    BootInvariant(cfg, start);
    RunInvariant(cfg, Boot(start), steps, t);
  }

  /** Running is entered at most once more often than Reconfiguring. */
  lemma TransitionCounts(cfg: Config, start: int, steps: seq<Step>, t: System)
    requires cfg.Valid() && Leads(cfg, Boot(start), steps, t)
    ensures Times(t.v.entered, Running) <= Times(t.v.entered, Reconfiguring) + 1
    ensures t.v.phase == Initializing ==> Times(t.v.entered, Running) == Times(t.v.entered, Reconfiguring) == 0
  {
    BootInvariant(cfg, start);
    RunInvariant(cfg, Boot(start), steps, t);
  }

  // ----- failed is absorbing per entry -----

  predicate NodeHasFailed(v: View, id: Name) {
    id in v.nodes && v.nodes[id].status == NodeFailed
  }

  /** The entry is never deleted along the run. */
  predicate StaysRegistered(cfg: Config, s: System, steps: seq<Step>, id: Name)
    decreases |steps|
  {
    id in s.v.nodes
    && (steps != [] ==>
          Enabled(cfg, s, steps[0]) && StaysRegistered(cfg, After(cfg, s, steps[0]), steps[1..], id))
  }

  lemma PromotionKeepsFailed(cfg: Config, v: View, r: Round, id: Name)
    requires ValidRound(cfg, v.nodes, r) && NodeHasFailed(v, id)
    ensures NodeHasFailed(AfterPromotion(cfg, v, r), id)
  {
    PromotedStatus(cfg, v.nodes, r.promoted);
    assert id in WithStatus(Promoted(v.nodes, r.promoted), NodeFailed);
  }

  lemma SentKeepsFailed(cfg: Config, v: View, r: Round, id: Name)
    requires ValidRound(cfg, v.nodes, r) && NodeHasFailed(v, id)
    requires Sufficient(cfg, Promoted(v.nodes, r.promoted))
    ensures NodeHasFailed(Sent(cfg, v, r), id)
  {
    PromotionKeepsFailed(cfg, v, r, id);
    var n1 := Promoted(v.nodes, r.promoted);
    assert forall x :: x in r.order ==> x in Elems(r.order);
    RankedStatus(n1, r.order, NodeFailed);
    assert id in WithStatus(Ranked(n1, r.order), NodeFailed);
  }

  lemma AttemptKeepsFailed(cfg: Config, v: View, r: Round, id: Name)
    requires ValidRound(cfg, v.nodes, r) && NodeHasFailed(v, id)
    ensures NodeHasFailed(Attempt(cfg, v, r), id)
  {
    PromotionKeepsFailed(cfg, v, r, id);
    if Sufficient(cfg, Promoted(v.nodes, r.promoted)) {
      SentKeepsFailed(cfg, v, r, id);
    }
  }

  lemma StartKeepsFailed(cfg: Config, v: View, l: Launch, id: Name)
    requires Launches(cfg, v) ==> ValidLaunch(v.nodes, l)
    requires NodeHasFailed(v, id)
    ensures NodeHasFailed(StartProgram(cfg, v, l), id)
  {
    if Launches(cfg, v) {
      assert forall x :: x in l.order ==> x in Elems(l.order);
      RankedStatus(v.nodes, l.order, NodeFailed);
      assert id in WithStatus(Ranked(v.nodes, l.order), NodeFailed);
    }
  }

  lemma RegisterKeepsFailed(cfg: Config, v: View, x: Name, url: Name, now: int, l: Launch, id: Name)
    requires Covered(v) && ValidRegistration(cfg, v, x, url, now, l) && NodeHasFailed(v, id)
    ensures NodeHasFailed(Register(cfg, v, x, url, now, l), id)
  {
    if Admits(cfg, v, x) {
      var w := Admitted(cfg, v, x, url, now);
      assert x != id;
      if Triggers(cfg, w) {
        StartKeepsFailed(cfg, w, l, id);
      }
    }
  }

  lemma AttemptStepKeepsFailed(cfg: Config, v: View, made: nat, r: Round, id: Name)
    requires (!Refused(v, made) ==> ValidRound(cfg, v.nodes, r)) && NodeHasFailed(v, id)
    ensures NodeHasFailed(AttemptStep(cfg, v, made, r), id)
  {
    if !Refused(v, made) {
      AttemptKeepsFailed(cfg, Entering(v, made), r, id);
    }
  }

  lemma LossKeepsFailed(v: View, x: Name, id: Name)
    requires NodeHasFailed(v, id)
    ensures NodeHasFailed(ReportFailure(v, x), id)
    ensures id in Remove(v, x).nodes ==> NodeHasFailed(Remove(v, x), id)
  {
    if FailureTaken(v, x) {
      ReportEffect(v, x);
      RemoveEffect(v, x);
    }
  }

  lemma StepKeepsFailed(cfg: Config, s: System, step: Step, id: Name)
    requires Invariant(cfg, s) && Enabled(cfg, s, step)
    requires NodeHasFailed(s.v, id) && id in NextView(cfg, s, step).nodes
    ensures NodeHasFailed(NextView(cfg, s, step), id)
  {
    match step
    case DoRegister(now, x, url, l) => RegisterKeepsFailed(cfg, s.v, x, url, now, l, id);
    case DoStart(_, l) => StartKeepsFailed(cfg, s.v, l, id);
    case DoReport(_, x) => LossKeepsFailed(s.v, x, id);
    case DoRemove(_, x) => LossKeepsFailed(s.v, x, id);
    case DoAttempt(_, made, r) => AttemptStepKeepsFailed(cfg, s.v, made, r, id);
    case _ =>
  }

  /** A failed node stays failed, through reconnects, heartbeats, promotions and restarts,
      for as long as its entry exists. */
  lemma {:induction false} FailedIsAbsorbing(cfg: Config, s: System, steps: seq<Step>, t: System, id: Name)
    requires Invariant(cfg, s) && Leads(cfg, s, steps, t)
    requires NodeHasFailed(s.v, id) && StaysRegistered(cfg, s, steps, id)
    ensures NodeHasFailed(t.v, id)
    decreases |steps|
  {
    if steps != [] {
      StepKeepsFailed(cfg, s, steps[0], id);
      StepInvariant(cfg, s, steps[0]);
      FailedIsAbsorbing(cfg, After(cfg, s, steps[0]), steps[1..], t, id);
    }
  }

  /** However two reports of the same node interleave with everything else, the first takes
      one unit from the counter of the node's role and the second takes nothing. */
  lemma ReportsCountOnce(cfg: Config, s: System, id: Name, steps: seq<Step>, t: System)
    requires Invariant(cfg, s) && FailureTaken(s.v, id) && !NodeHasFailed(s.v, id)
    requires Leads(cfg, s, [DoReport(s.clock, id)] + steps, t)
    requires StaysRegistered(cfg, s, [DoReport(s.clock, id)] + steps, id)
    ensures ReportFailure(s.v, id).activeCtr == s.v.activeCtr - if s.v.nodes[id].status == Active then 1 else 0
    ensures ReportFailure(s.v, id).standbyCtr == s.v.standbyCtr - if s.v.nodes[id].status == Standby then 1 else 0
    ensures ReportFailure(t.v, id).activeCtr == t.v.activeCtr
    ensures ReportFailure(t.v, id).standbyCtr == t.v.standbyCtr
  {
    var first := DoReport(s.clock, id);
    assert ([first] + steps)[0] == first && ([first] + steps)[1..] == steps;
    ReportEffect(s.v, id);
    assert NodeHasFailed(t.v, id) by {
      StepInvariant(cfg, s, first);
      FailedIsAbsorbing(cfg, After(cfg, s, first), steps, t, id);
    }
    RepeatedReport(t.v, id);
  }

  // ----- nothing reconfigures before a start round every active node accepted -----

  /** The step is a start round that every active node accepted. */
  predicate LaunchesAll(cfg: Config, s: System, step: Step)
    requires Enabled(cfg, s, step)
  {
    match step
    case DoStart(_, l) => Launches(cfg, s.v) && l.rejecting == {}
    case DoRegister(now, id, url, l) =>
      && Admits(cfg, s.v, id)
      && var w := Admitted(cfg, s.v, id, url, now);
         Triggers(cfg, w) && Launches(cfg, w) && l.rejecting == {}
    case _ => false
  }

  predicate StartsFirst(cfg: Config, s: System, steps: seq<Step>)
    decreases |steps|
  {
    && steps != []
    && Enabled(cfg, s, steps[0])
    && s.v.phase == Initializing
    && !steps[0].DoAttempt?
    && (LaunchesAll(cfg, s, steps[0]) || StartsFirst(cfg, After(cfg, s, steps[0]), steps[1..]))
  }

  lemma LeavingInitializing(cfg: Config, s: System, step: Step)
    requires Invariant(cfg, s) && Enabled(cfg, s, step) && s.v.phase == Initializing
    ensures !step.DoAttempt?
    ensures NextView(cfg, s, step).phase == if LaunchesAll(cfg, s, step) then Running else Initializing
  {
    match step
    case DoRegister(now, id, url, l) =>
      if Admits(cfg, s.v, id) {
        var w := Admitted(cfg, s.v, id, url, now);
        if Triggers(cfg, w) {
          StartFrame(cfg, w, l);
        }
      }
    case DoStart(_, l) => StartFrame(cfg, s.v, l);
    case DoReport(_, id) => ReportFrame(s.v, id);
    case _ =>
  }

  lemma {:induction false} StartPrecedesReconfiguration(cfg: Config, s: System, steps: seq<Step>, t: System)
    requires Invariant(cfg, s) && s.v.phase == Initializing
    requires Leads(cfg, s, steps, t) && t.v.phase != Initializing
    ensures StartsFirst(cfg, s, steps)
    decreases |steps|
  {
    LeavingInitializing(cfg, s, steps[0]);
    StepInvariant(cfg, s, steps[0]);
    if !LaunchesAll(cfg, s, steps[0]) {
      StartPrecedesReconfiguration(cfg, After(cfg, s, steps[0]), steps[1..], t);
    }
  }

  // ----- when the registration trigger starts the program -----

  /** The total reaches expected exactly when both counters are full, and the start round is
      then sent exactly when the counters have not drifted from the registry and the
      configured number of standbys is not negative. */
  lemma TriggerExactness(cfg: Config, v: View)
    requires cfg.Valid() && Safe(cfg, v)
    requires Triggers(cfg, v)
    ensures Launches(cfg, v) <==> cfg.standby >= 0 && |v.Actives()| == v.activeCtr
    ensures cfg.standby >= 0 ==> v.activeCtr == cfg.ActiveNodes() && v.standbyCtr == cfg.standby
    ensures Launches(cfg, v) ==> |v.Actives()| == cfg.ActiveNodes()
  {
  }

  /** A start round numbers the active nodes by their place in the order it sorted. */
  lemma StartRanks(cfg: Config, v: View, l: Launch)
    requires Launches(cfg, v) && ValidLaunch(v.nodes, l)
    ensures StartProgram(cfg, v, l).nodes == Ranked(v.nodes, l.order)
    ensures RankedByPlace(StartProgram(cfg, v, l).nodes, l.order)
    ensures StartProgram(cfg, v, l).Actives() == v.Actives() == Elems(l.order)
    ensures |l.order| == |v.Actives()|
  {
    assert forall x :: x in l.order ==> x in Elems(l.order);
    RankedShape(v.nodes, l.order);
    RankedStatus(v.nodes, l.order, Active);
  }

  /** That order is the URL order: a smaller rank never goes to a larger URL. */
  lemma StartRanksFollowUrls(cfg: Config, v: View, l: Launch, x: Name, y: Name)
    requires Launches(cfg, v) && ValidLaunch(v.nodes, l)
    requires x in v.Actives() && y in v.Actives()
    requires var w := StartProgram(cfg, v, l); w.nodes[x].rank < w.nodes[y].rank
    ensures LexLeq(v.nodes[x].url, v.nodes[y].url)
  {
    StartRanks(cfg, v, l);
    var i :| 0 <= i < |l.order| && l.order[i] == x;
    var j :| 0 <= j < |l.order| && l.order[j] == y;
  }

  // ----- losing a standby wedges the server -----

  predicate LosesActiveStep(s: System, step: Step) {
    (step.DoReport? || step.DoRemove?) && step.id in s.v.Actives()
  }

  /** No step of the run reports or removes an active node. */
  predicate KeepsActives(cfg: Config, s: System, steps: seq<Step>)
    decreases |steps|
  {
    steps != [] ==>
      && Enabled(cfg, s, steps[0])
      && !LosesActiveStep(s, steps[0])
      && KeepsActives(cfg, After(cfg, s, steps[0]), steps[1..])
  }

  predicate Wedged(s: System) {
    s.v.phase == Reconfiguring && s.pending == multiset{}
  }

  /** A standby, or an entry that has already failed, is failed or removed while nothing is
      in flight. */
  predicate Wedges(s: System, step: Step) {
    && s.pending == multiset{}
    && (s.v.phase == Running || s.v.phase == Reconfiguring)
    && (step.DoReport? || step.DoRemove?) && step.id in s.v.nodes && step.id !in s.v.Actives()
  }

  /** The only way into the wedge. In particular a reconfiguration in flight never ends there. */
  lemma WedgedExactlyWhen(cfg: Config, s: System, step: Step)
    requires Invariant(cfg, s) && Enabled(cfg, s, step) && !Wedged(s)
    ensures Wedged(After(cfg, s, step)) <==> Wedges(s, step)
  {
    match step
    case DoReport(_, id) => ReportFrame(s.v, id);
    case DoRegister(now, id, url, l) => RegisterPhase(cfg, s.v, id, url, now, l);
    case DoStart(_, l) => StartFrame(cfg, s.v, l);
    case DoAttempt(_, made, r) => AttemptNeverWedges(cfg, s, step);
    case _ =>
  }

  lemma AttemptNeverWedges(cfg: Config, s: System, step: Step)
    requires Enabled(cfg, s, step) && step.DoAttempt?
    ensures !Wedged(After(cfg, s, step))
  {
    if GoesOn(cfg, s.v, step.made, step.round) && step.made + 1 < MAX_ATTEMPTS {
      assert step.made + 1 in NextPending(cfg, s, step);
    } else {
      LastAttemptLeaves(cfg, s.v, step.made, step.round);
    }
  }

  lemma RegisterPhase(cfg: Config, v: View, id: Name, url: Name, now: int, l: Launch)
    requires ValidRegistration(cfg, v, id, url, now, l)
    ensures Register(cfg, v, id, url, now, l).phase == Reconfiguring ==> v.phase == Reconfiguring
    ensures !AcceptsRegistrations(v) ==> Register(cfg, v, id, url, now, l) == v
  {
    if Admits(cfg, v, id) && Triggers(cfg, Admitted(cfg, v, id, url, now)) {
      StartFrame(cfg, Admitted(cfg, v, id, url, now), l);
    }
  }

  /** An attempt that is not followed by another leaves Reconfiguring. */
  lemma LastAttemptLeaves(cfg: Config, v: View, made: nat, r: Round)
    requires !Refused(v, made) ==> ValidRound(cfg, v.nodes, r)
    requires !(GoesOn(cfg, v, made, r) && made + 1 < MAX_ATTEMPTS)
    ensures AttemptStep(cfg, v, made, r).phase != Reconfiguring
  {
    if !Refused(v, made) {
      AttemptPhase(cfg, Entering(v, made), r);
    }
  }

  /** The only way out: an active node is failed or removed. */
  lemma UnwedgedExactlyWhen(cfg: Config, s: System, step: Step)
    requires Enabled(cfg, s, step) && Wedged(s)
    ensures !Wedged(After(cfg, s, step)) <==> LosesActiveStep(s, step)
  {
    match step
    case DoReport(_, id) => ReportFrame(s.v, id);
    case DoRegister(now, id, url, l) => RegisterPhase(cfg, s.v, id, url, now, l);
    case _ =>
  }

  /** Every state the run passes through is wedged. */
  predicate WedgedThroughout(cfg: Config, s: System, steps: seq<Step>)
    decreases |steps|
  {
    && Wedged(s)
    && (steps != [] ==> Enabled(cfg, s, steps[0]) && WedgedThroughout(cfg, After(cfg, s, steps[0]), steps[1..]))
  }

  /** A wedged server stays so, turning every registration away, for exactly the runs that
      lose no active node. */
  lemma {:induction false} WedgedUntilActiveLost(cfg: Config, s: System, steps: seq<Step>, t: System)
    requires Wedged(s) && Leads(cfg, s, steps, t)
    ensures WedgedThroughout(cfg, s, steps) <==> KeepsActives(cfg, s, steps)
    ensures KeepsActives(cfg, s, steps) ==> Wedged(t) && !AcceptsRegistrations(t.v)
    decreases |steps|
  {
    if steps != [] {
      var u := After(cfg, s, steps[0]);
      UnwedgedExactlyWhen(cfg, s, steps[0]);
      if Wedged(u) {
        WedgedUntilActiveLost(cfg, u, steps[1..], t);
      }
    }
  }
}
