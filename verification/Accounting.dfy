/** When the activeNodes and standbyNodes counters equal the true counts, and exactly
    which steps break the equality. */
module Accounting {
  import opened Collections
  import opened ClusterTypes
  import opened ClusterSpec
  import opened ClusterFacts
  import opened ClusterSafety
  import opened ClusterRuns

  predicate Exact(v: View) {
    v.activeCtr == |v.Actives()| && v.standbyCtr == |v.Standbys()|
  }

  /** The two ways of naming nodes under which marking by URL is harmless: every node's ID is
      its URL, or IDs come from a set no URL belongs to. */
  datatype Naming = SameAsUrl | Apart(ids: iset<Name>)

  ghost predicate Named(nm: Naming, id: Name, url: Name) {
    match nm
    case SameAsUrl => id == url
    case Apart(ids) => id in ids && url !in ids
  }

  ghost predicate NamedNodes(nm: Naming, nodes: Nodes) {
    forall id :: id in nodes ==> Named(nm, id, nodes[id].url)
  }

  // ----- the two steps that can break the equality -----

  lemma ProperPart<T>(s: set<T>, t: set<T>)
    ensures |s - t| == |s| <==> s * t == {}
  {
    SplitCard(s, t);
  }

  /** A health tick keeps the books exactly when it times out no active and no standby node. */
  lemma TickExactWhen(cfg: Config, v: View, now: int)
    requires Exact(v)
    ensures Exact(Tick(cfg, v, now)) <==> (v.Actives() + v.Standbys()) * TimedOut(cfg, v, now) == {}
  {
    var late := TimedOut(cfg, v, now);
    FailAllStatus(v.nodes, late);
    ProperPart(v.Actives(), late);
    ProperPart(v.Standbys(), late);
    assert (v.Actives() + v.Standbys()) * late == v.Actives() * late + v.Standbys() * late;
  }

  /** Marking after a failed round keeps the books exactly when no rejecting node's URL is the
      ID of a standby. */
  lemma MarkExactWhen(v: View, rejecting: set<Name>)
    requires Exact(v)
    ensures Exact(MarkRejecting(v, rejecting)) <==> v.Standbys() * UrlsOf(v.nodes, rejecting) == {}
  {
    var names := UrlsOf(v.nodes, rejecting);
    FailAllStatus(v.nodes, names);
    SplitCard(v.Actives(), names);
    ProperPart(v.Standbys(), names);
  }

  // ----- every other step keeps it -----

  lemma StartExact(cfg: Config, v: View, l: Launch)
    requires Exact(v) && (Launches(cfg, v) ==> ValidLaunch(v.nodes, l))
    ensures Exact(StartProgram(cfg, v, l))
    ensures forall id :: id in v.nodes ==> StartProgram(cfg, v, l).nodes[id].url == v.nodes[id].url
  {
    if Launches(cfg, v) {
      assert forall x :: x in l.order ==> x in Elems(l.order);
      RankedStatus(v.nodes, l.order, Active);
      RankedStatus(v.nodes, l.order, Standby);
    }
  }

  lemma AdmitExact(cfg: Config, v: View, id: Name, url: Name, now: int)
    requires Exact(v) && Covered(v) && Admits(cfg, v, id)
    ensures Exact(Admitted(cfg, v, id, url, now))
  {
    assert id !in v.nodes;
    AdmitStatus(v, id, url, now, Role(cfg, v).value);
  }

  lemma RegisterExact(cfg: Config, v: View, id: Name, url: Name, now: int, l: Launch, nm: Naming)
    requires Exact(v) && Covered(v) && ValidRegistration(cfg, v, id, url, now, l)
    requires NamedNodes(nm, v.nodes) && Named(nm, id, url)
    ensures Exact(Register(cfg, v, id, url, now, l))
    ensures NamedNodes(nm, Register(cfg, v, id, url, now, l).nodes)
  {
    if Admits(cfg, v, id) {
      var w := Admitted(cfg, v, id, url, now);
      AdmitExact(cfg, v, id, url, now);
      assert NamedNodes(nm, w.nodes);
      if Triggers(cfg, w) {
        StartExact(cfg, w, l);
        StartFrame(cfg, w, l);
      }
    }
  }

  /** Lowering the counter of the role a node leaves keeps the books. */
  lemma LeaveExact(v: View, id: Name, w: View)
    requires Exact(v) && id in v.nodes
    requires w.Actives() == v.Actives() - {id} && w.Standbys() == v.Standbys() - {id}
    requires w.activeCtr == v.activeCtr - (if v.nodes[id].status == Active then 1 else 0)
    requires w.standbyCtr == v.standbyCtr - (if v.nodes[id].status == Standby then 1 else 0)
    ensures Exact(w)
  {
    assert id in v.Actives() <==> v.nodes[id].status == Active;
    assert id in v.Standbys() <==> v.nodes[id].status == Standby;
  }

  lemma ReportExact(v: View, id: Name)
    requires Exact(v)
    ensures Exact(ReportFailure(v, id))
    ensures SameUrls(v, ReportFailure(v, id))
  {
    if FailureTaken(v, id) {
      var w := ReportFailure(v, id);
      ReportEffect(v, id);
      assert Exact(w) by {
        SetStatus(v.nodes, id, v.nodes[id].(status := NodeFailed), Active);
        SetStatus(v.nodes, id, v.nodes[id].(status := NodeFailed), Standby);
        LeaveExact(v, id, w);
      }
    }
  }

  lemma RemoveExact(v: View, id: Name)
    requires Exact(v)
    ensures Exact(Remove(v, id))
  {
    if FailureTaken(v, id) {
      var w := Remove(v, id);
      RemoveEffect(v, id);
      WithoutStatus(v.nodes, {id}, Active);
      WithoutStatus(v.nodes, {id}, Standby);
      LeaveExact(v, id, w);
    }
  }

  lemma SweepExact(cfg: Config, v: View, now: int)
    requires Exact(v)
    ensures Exact(Sweep(cfg, v, now))
  {
    var dead := DeadConnections(cfg, v, now);
    WithoutStatus(v.nodes, dead, Active);
    WithoutStatus(v.nodes, dead, Standby);
    SplitCard(v.Actives(), dead);
    SplitCard(v.Standbys(), dead);
  }

  lemma PromotionExact(cfg: Config, v: View, r: Round)
    requires Exact(v) && ValidRound(cfg, v.nodes, r)
    ensures Exact(AfterPromotion(cfg, v, r))
    ensures forall id :: id in v.nodes ==> AfterPromotion(cfg, v, r).nodes[id].url == v.nodes[id].url
  {
    PromotedStatus(cfg, v.nodes, r.promoted);
  }

  lemma SentExact(cfg: Config, v: View, r: Round)
    requires Exact(v) && ValidRound(cfg, v.nodes, r)
    requires Sufficient(cfg, Promoted(v.nodes, r.promoted))
    ensures Exact(Sent(cfg, v, r))
  {
    PromotedStatus(cfg, v.nodes, r.promoted);
    SentFrame(cfg, v, r);
    SentShape(cfg, v, r);
    assert forall x :: x in r.order ==> x in Elems(r.order);
    RankedStatus(Promoted(v.nodes, r.promoted), r.order, Standby);
  }

  /** Under either naming the URLs of active nodes name no standby. */
  lemma NamingSparesStandbys(v: View, rejecting: set<Name>, nm: Naming)
    requires NamedNodes(nm, v.nodes) && rejecting <= v.Actives()
    ensures v.Standbys() * UrlsOf(v.nodes, rejecting) == {}
  {
  }

  lemma AttemptExact(cfg: Config, v: View, r: Round, nm: Naming)
    requires Exact(v) && ValidRound(cfg, v.nodes, r) && NamedNodes(nm, v.nodes)
    ensures Exact(Attempt(cfg, v, r))
  {
    if !Sufficient(cfg, Promoted(v.nodes, r.promoted)) {
      PromotionExact(cfg, v, r);
    } else {
      var w := Sent(cfg, v, r);
      SentExact(cfg, v, r);
      if r.rejecting != {} {
        SentShape(cfg, v, r);
        assert NamedNodes(nm, w.nodes);
        NamingSparesStandbys(w, r.rejecting, nm);
        MarkExactWhen(w, r.rejecting);
      }
    }
  }

  /** If the step is a health tick it times out nobody who counts. */
  predicate Spares(cfg: Config, s: System, step: Step) {
    step.DoTick? ==> (s.v.Actives() + s.v.Standbys()) * TimedOut(cfg, s.v, step.now) == {}
  }

  /** The step follows the naming as well. */
  ghost predicate Harmless(cfg: Config, s: System, step: Step, nm: Naming) {
    (step.DoRegister? ==> Named(nm, step.id, step.url)) && Spares(cfg, s, step)
  }

  ghost predicate HarmlessRun(cfg: Config, s: System, steps: seq<Step>, nm: Naming)
    decreases |steps|
  {
    steps != [] ==>
      && Enabled(cfg, s, steps[0])
      && Harmless(cfg, s, steps[0], nm)
      && HarmlessRun(cfg, After(cfg, s, steps[0]), steps[1..], nm)
  }

  lemma AttemptStepExact(cfg: Config, v: View, made: nat, r: Round, nm: Naming)
    requires Exact(v) && NamedNodes(nm, v.nodes)
    requires !Refused(v, made) ==> ValidRound(cfg, v.nodes, r)
    ensures Exact(AttemptStep(cfg, v, made, r)) && NamedNodes(nm, AttemptStep(cfg, v, made, r).nodes)
  {
    if !Refused(v, made) {
      var u := Entering(v, made);
      AttemptExact(cfg, u, r, nm);
      AttemptUrls(cfg, u, r);
      AttemptMembers(cfg, u, r);
    }
  }

  lemma StepExact(cfg: Config, s: System, step: Step, nm: Naming)
    requires Invariant(cfg, s) && Enabled(cfg, s, step) && Harmless(cfg, s, step, nm)
    requires Exact(s.v) && NamedNodes(nm, s.v.nodes)
    ensures Exact(NextView(cfg, s, step)) && NamedNodes(nm, NextView(cfg, s, step).nodes)
  {
    match step
    case DoRegister(now, id, url, l) => RegisterExact(cfg, s.v, id, url, now, l, nm);
    case DoStart(_, l) => StartExact(cfg, s.v, l); StartFrame(cfg, s.v, l);
    case DoHeartbeat(now, id) =>
    case DoReport(_, id) => ReportExact(s.v, id); ReportFrame(s.v, id);
    case DoRemove(_, id) => RemoveExact(s.v, id);
    case DoAttempt(_, made, r) => AttemptStepExact(cfg, s.v, made, r, nm);
    case DoTick(now) => TickExactWhen(cfg, s.v, now);
    case DoCleanSessions(now) =>
    case DoSweep(now) => SweepExact(cfg, s.v, now);
  }

  /** With names kept apart or identical, and no health tick timing out a live node, the
      counters are the true counts after every step of the run. */
  lemma {:induction false} ExactOverEveryRun(cfg: Config, s: System, steps: seq<Step>, t: System, nm: Naming)
    requires Invariant(cfg, s) && Leads(cfg, s, steps, t)
    requires Exact(s.v) && NamedNodes(nm, s.v.nodes)
    requires HarmlessRun(cfg, s, steps, nm)
    ensures Exact(t.v) && NamedNodes(nm, t.v.nodes)
    decreases |steps|
  {
    if steps != [] {
      StepExact(cfg, s, steps[0], nm);
      StepInvariant(cfg, s, steps[0]);
      ExactOverEveryRun(cfg, After(cfg, s, steps[0]), steps[1..], t, nm);
    }
  }

  // ----- the start trigger without time-outs -----

  predicate SparingRun(cfg: Config, s: System, steps: seq<Step>)
    decreases |steps|
  {
    steps != [] ==>
      Enabled(cfg, s, steps[0]) && Spares(cfg, s, steps[0]) && SparingRun(cfg, After(cfg, s, steps[0]), steps[1..])
  }

  lemma StepExactBeforeStart(cfg: Config, s: System, step: Step)
    requires Invariant(cfg, s) && Enabled(cfg, s, step) && Spares(cfg, s, step)
    requires Exact(s.v) && s.v.phase == Initializing
    ensures Exact(NextView(cfg, s, step))
  {
    match step
    case DoRegister(now, id, url, l) =>
      if Admits(cfg, s.v, id) {
        var w := Admitted(cfg, s.v, id, url, now);
        AdmitExact(cfg, s.v, id, url, now);
        if Triggers(cfg, w) {
          StartExact(cfg, w, l);
        }
      }
    case DoStart(_, l) => StartExact(cfg, s.v, l);
    case DoReport(_, id) => ReportExact(s.v, id);
    case DoRemove(_, id) => RemoveExact(s.v, id);
    case DoTick(now) => TickExactWhen(cfg, s.v, now);
    case DoSweep(now) => SweepExact(cfg, s.v, now);
    case _ =>
  }

  /** Before the start no command has been refused, so names do not matter yet. */
  lemma {:induction false} ExactUntilStart(cfg: Config, s: System, steps: seq<Step>, t: System)
    requires Invariant(cfg, s) && Leads(cfg, s, steps, t) && SparingRun(cfg, s, steps)
    requires Exact(s.v) && t.v.phase == Initializing
    ensures Exact(t.v) && s.v.phase == Initializing
    decreases |steps|
  {
    if steps != [] {
      var u := After(cfg, s, steps[0]);
      StepInvariant(cfg, s, steps[0]);
      StepPhase(cfg, s, steps[0]);
      if u.v.phase == Initializing {
        StepExactBeforeStart(cfg, s, steps[0]);
        ExactUntilStart(cfg, u, steps[1..], t);
      } else {
        StartIsFinal(cfg, u, steps[1..], t);
      }
    }
  }

  /** Initializing is never entered again. */
  lemma {:induction false} StartIsFinal(cfg: Config, s: System, steps: seq<Step>, t: System)
    requires Invariant(cfg, s) && Leads(cfg, s, steps, t) && s.v.phase != Initializing
    ensures t.v.phase != Initializing
    decreases |steps|
  {
    if steps != [] {
      StepInvariant(cfg, s, steps[0]);
      StepPhase(cfg, s, steps[0]);
      StartIsFinal(cfg, After(cfg, s, steps[0]), steps[1..], t);
    }
  }

  /** After any run in which no live node timed out, the registration that brings the total to
      ExpectedNodes finds both roles full in the registry itself, and starts the program instead
      of waiting. */
  lemma TriggerFindsAllNodes(cfg: Config, start: int, steps: seq<Step>, t: System, id: Name, url: Name, now: int)
    requires cfg.Valid() && cfg.standby >= 0
    requires Leads(cfg, Boot(start), steps, t) && SparingRun(cfg, Boot(start), steps)
    requires Admits(cfg, t.v, id) && Triggers(cfg, Admitted(cfg, t.v, id, url, now))
    ensures var w := Admitted(cfg, t.v, id, url, now);
      && |w.Actives()| == cfg.ActiveNodes() && |w.Standbys()| == cfg.standby
      && Launches(cfg, w)
  {
    BootInvariant(cfg, start);
    RunInvariant(cfg, Boot(start), steps, t);
    ExactUntilStart(cfg, Boot(start), steps, t);
    AdmitExact(cfg, t.v, id, url, now);
    AdmitSafe(cfg, t.v, id, url, now);
  }
}
