/** When the active ranks stay distinct over a run. Admission hands out the value of the active
    counter as a rank, whoever may hold it already. */
module RankRuns {
  import opened Collections
  import opened ClusterTypes
  import opened ClusterSpec
  import opened ClusterFacts
  import opened ClusterSafety
  import opened ClusterRuns
  import opened ClusterTheorems
  import opened Reconfiguration

  predicate ActiveRanksDistinct(v: View) {
    DistinctRanks(v.nodes, v.Actives())
  }

  /** A node is admitted as active with a rank that an active node holds, and no start round
      renumbers them at once. */
  predicate Collides(cfg: Config, s: System, step: Step) {
    && step.DoRegister? && Admits(cfg, s.v, step.id) && Role(cfg, s.v) == Some(Active)
    && HasRank(s.v.nodes, s.v.Actives(), s.v.activeCtr)
    && var w := Admitted(cfg, s.v, step.id, step.url, step.now); !(Triggers(cfg, w) && Launches(cfg, w))
  }

  /** Nodes that stay active keep their ranks, and nobody joins them. */
  predicate OnlyLeaves(v: View, w: View) {
    && w.Actives() <= v.Actives()
    && forall x :: x in w.Actives() ==> w.nodes[x].rank == v.nodes[x].rank
  }

  lemma LeavingKeepsDistinct(v: View, w: View)
    requires ActiveRanksDistinct(v) && OnlyLeaves(v, w)
    ensures ActiveRanksDistinct(w)
  {
  }

  lemma StartDistinct(cfg: Config, v: View, l: Launch)
    requires Launches(cfg, v) && ValidLaunch(v.nodes, l)
    ensures ActiveRanksDistinct(StartProgram(cfg, v, l))
  {
    StartRanks(cfg, v, l);
    OrderDistinct(StartProgram(cfg, v, l).nodes, l.order);
  }

  lemma AdmitDistinct(v: View, id: Name, url: Name, now: int, st: NodeStatus)
    requires id !in v.nodes && st != NodeFailed && ActiveRanksDistinct(v) && v.activeCtr >= 0
    ensures ActiveRanksDistinct(Admit(v, id, url, now, st)) <==>
      st == Standby || !HasRank(v.nodes, v.Actives(), v.activeCtr)
  {
    var w := Admit(v, id, url, now, st);
    AdmitStatus(v, id, url, now, st);
    assert forall x :: x in v.Actives() ==> w.nodes[x] == v.nodes[x];
    if st == Active && HasRank(v.nodes, v.Actives(), v.activeCtr) {
      var x :| x in v.Actives() && x in v.nodes && v.nodes[x].rank == v.activeCtr;
      assert x in w.Actives() && id in w.Actives() && w.nodes[x].rank == w.nodes[id].rank;
    } else if st == Active {
      assert forall x :: x in v.Actives() ==> v.nodes[x].rank != v.activeCtr;
    }
  }

  lemma RegisterDistinct(cfg: Config, s: System, step: Step)
    requires Invariant(cfg, s) && Enabled(cfg, s, step) && step.DoRegister? && ActiveRanksDistinct(s.v)
    ensures ActiveRanksDistinct(NextView(cfg, s, step)) <==> !Collides(cfg, s, step)
  {
    if Admits(cfg, s.v, step.id) {
      var w := Admitted(cfg, s.v, step.id, step.url, step.now);
      AdmitSafe(cfg, s.v, step.id, step.url, step.now);
      AdmitDistinct(s.v, step.id, step.url, step.now, Role(cfg, s.v).value);
      if Triggers(cfg, w) && Launches(cfg, w) {
        StartDistinct(cfg, w, step.launch);
      }
    }
  }

  lemma AttemptDistinct(cfg: Config, v: View, r: Round)
    requires ValidRound(cfg, v.nodes, r) && Sufficient(cfg, Promoted(v.nodes, r.promoted))
    ensures ActiveRanksDistinct(Attempt(cfg, v, r))
  {
    SentDistinct(cfg, v, r);
    ConcludeRanks(Sent(cfg, v, r), r.rejecting);
    LeavingKeepsDistinct(Sent(cfg, v, r), Attempt(cfg, v, r));
  }

  lemma AttemptStepDistinct(cfg: Config, v: View, made: nat, r: Round)
    requires !Refused(v, made) ==> ValidRound(cfg, v.nodes, r)
    requires AttemptStep(cfg, v, made, r).phase != Failed
    ensures ActiveRanksDistinct(AttemptStep(cfg, v, made, r))
  {
    AttemptPhase(cfg, Entering(v, made), r);
    AttemptDistinct(cfg, Entering(v, made), r);
  }

  lemma TickLeaves(cfg: Config, v: View, now: int)
    ensures OnlyLeaves(v, Tick(cfg, v, now))
  {
    FailAllStatus(v.nodes, TimedOut(cfg, v, now));
  }

  lemma ReportLeaves(v: View, id: Name)
    ensures OnlyLeaves(v, ReportFailure(v, id))
  {
    if FailureTaken(v, id) {
      ReportEffect(v, id);
      SetStatus(v.nodes, id, v.nodes[id].(status := NodeFailed), Active);
    }
  }

  lemma RemoveLeaves(v: View, id: Name)
    ensures OnlyLeaves(v, Remove(v, id))
  {
    if FailureTaken(v, id) {
      RemoveEffect(v, id);
      WithoutStatus(v.nodes, {id}, Active);
    }
  }

  lemma SweepLeaves(cfg: Config, v: View, now: int)
    ensures OnlyLeaves(v, Sweep(cfg, v, now))
  {
    WithoutStatus(v.nodes, DeadConnections(cfg, v, now), Active);
  }

  /** Everything but registrations, starts and attempts only lets nodes go. */
  lemma StepLeaves(cfg: Config, s: System, step: Step)
    requires Enabled(cfg, s, step) && !step.DoRegister? && !step.DoStart? && !step.DoAttempt?
    ensures OnlyLeaves(s.v, NextView(cfg, s, step))
  {
    match step
    case DoReport(_, id) => ReportLeaves(s.v, id);
    case DoRemove(_, id) => RemoveLeaves(s.v, id);
    case DoTick(now) => TickLeaves(cfg, s.v, now);
    case DoSweep(now) => SweepLeaves(cfg, s.v, now);
    case _ =>
  }

  /** Distinct active ranks stay distinct, while the server lives, in exactly the steps that do
      not collide. */
  lemma DistinctExactlyWhen(cfg: Config, s: System, step: Step)
    requires Invariant(cfg, s) && Enabled(cfg, s, step) && ActiveRanksDistinct(s.v)
    requires NextView(cfg, s, step).phase != Failed
    ensures ActiveRanksDistinct(NextView(cfg, s, step)) <==> !Collides(cfg, s, step)
  {
    if step.DoRegister? {
      RegisterDistinct(cfg, s, step);
    } else if step.DoStart? {
      if Launches(cfg, s.v) {
        StartDistinct(cfg, s.v, step.launch);
      }
    } else if step.DoAttempt? {
      AttemptStepDistinct(cfg, s.v, step.made, step.round);
    } else {
      StepLeaves(cfg, s, step);
      LeavingKeepsDistinct(s.v, NextView(cfg, s, step));
    }
  }

  predicate NeverCollides(cfg: Config, s: System, steps: seq<Step>)
    decreases |steps|
  {
    steps != [] ==>
      && Enabled(cfg, s, steps[0]) && !Collides(cfg, s, steps[0])
      && NeverCollides(cfg, After(cfg, s, steps[0]), steps[1..])
  }

  /** So they are distinct at the end of every run without a collision, as rank compaction
      asks of them. */
  lemma {:induction false} DistinctOverEveryRun(cfg: Config, s: System, steps: seq<Step>, t: System)
    requires Invariant(cfg, s) && ActiveRanksDistinct(s.v)
    requires Leads(cfg, s, steps, t) && NeverCollides(cfg, s, steps) && t.v.phase != Failed
    ensures ActiveRanksDistinct(t.v)
    decreases |steps|
  {
    if steps != [] {
      var u := After(cfg, s, steps[0]);
      StepInvariant(cfg, s, steps[0]);
      assert u.v.phase != Failed;
      DistinctExactlyWhen(cfg, s, steps[0]);
      DistinctOverEveryRun(cfg, u, steps[1..], t);
    }
  }
}
