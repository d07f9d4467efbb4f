/** When the program can still be started. The active counter is taken up by registration and
    let go by failures and sweeps, but not by a health tick, so it can drift above the number of
    active entries for good. */
module StartUp {
  import opened Collections
  import opened ClusterTypes
  import opened ClusterSpec
  import opened ClusterFacts
  import opened ClusterSafety
  import opened ClusterRuns
  import opened ClusterTheorems

  predicate ActiveDrift(v: View) {
    |v.Actives()| < v.activeCtr
  }

  lemma TickCausesDrift(cfg: Config, v: View, now: int)
    requires Safe(cfg, v) && v.Actives() * TimedOut(cfg, v, now) != {}
    ensures ActiveDrift(Tick(cfg, v, now))
  {
    var late := TimedOut(cfg, v, now);
    FailAllStatus(v.nodes, late);
    SplitCard(v.Actives(), late);
  }

  lemma AdmitKeepsDrift(cfg: Config, v: View, id: Name, url: Name, now: int)
    requires Safe(cfg, v) && Admits(cfg, v, id) && ActiveDrift(v)
    ensures ActiveDrift(Admitted(cfg, v, id, url, now))
  {
    AdmitStatus(v, id, url, now, Role(cfg, v).value);
  }

  lemma DriftPersists(cfg: Config, s: System, step: Step)
    requires cfg.Valid() && Invariant(cfg, s) && Enabled(cfg, s, step)
    requires s.v.phase == Initializing && ActiveDrift(s.v)
    ensures NextView(cfg, s, step).phase == Initializing
    ensures ActiveDrift(NextView(cfg, s, step))
  {
    LeavingInitializing(cfg, s, step);
    match step
    case DoRegister(now, id, url, l) =>
      if Admits(cfg, s.v, id) {
        var w := Admitted(cfg, s.v, id, url, now);
        AdmitKeepsDrift(cfg, s.v, id, url, now);
        AdmitSafe(cfg, s.v, id, url, now);
        assert !Launches(cfg, w);
      }
    case DoTick(now) =>
      var late := TimedOut(cfg, s.v, now);
      FailAllStatus(s.v.nodes, late);
      SubsetCard(s.v.Actives() - late, s.v.Actives());
    case DoSweep(now) =>
      var dead := DeadConnections(cfg, s.v, now);
      WithoutStatus(s.v.nodes, dead, Active);
      SplitCard(s.v.Actives(), dead);
    case _ =>
  }

  /** One active node timing out before the program has started means the program never
      starts: the counter is never lowered, so the server waits for ever or turns nodes away. */
  lemma StartUpTimeoutIsFatal(cfg: Config, s: System, now: int, steps: seq<Step>, t: System)
    requires cfg.Valid() && Invariant(cfg, s) && s.v.phase == Initializing && now >= s.clock
    requires s.v.Actives() * TimedOut(cfg, s.v, now) != {}
    requires Leads(cfg, After(cfg, s, DoTick(now)), steps, t)
    ensures t.v.phase == Initializing
  {
    TickCausesDrift(cfg, s.v, now);
    StepInvariant(cfg, s, DoTick(now));
    DriftNeverStarts(cfg, After(cfg, s, DoTick(now)), steps, t);
  }

  lemma {:induction false} DriftNeverStarts(cfg: Config, s: System, steps: seq<Step>, t: System)
    requires cfg.Valid() && Invariant(cfg, s) && s.v.phase == Initializing && ActiveDrift(s.v)
    requires Leads(cfg, s, steps, t)
    ensures t.v.phase == Initializing && ActiveDrift(t.v)
    decreases |steps|
  {
    if steps != [] {
      DriftPersists(cfg, s, steps[0]);
      StepInvariant(cfg, s, steps[0]);
      DriftNeverStarts(cfg, After(cfg, s, steps[0]), steps[1..], t);
    }
  }

  // ----- the only step that causes the drift -----

  lemma RegisterKeepsCount(cfg: Config, s: System, now: int, id: Name, url: Name, l: Launch)
    requires Safe(cfg, s.v) && ValidRegistration(cfg, s.v, id, url, now, l) && !ActiveDrift(s.v)
    requires Register(cfg, s.v, id, url, now, l).phase == Initializing
    ensures !ActiveDrift(Register(cfg, s.v, id, url, now, l))
  {
    if Admits(cfg, s.v, id) {
      var w := Admitted(cfg, s.v, id, url, now);
      AdmitSafe(cfg, s.v, id, url, now);
      AdmitStatus(s.v, id, url, now, Role(cfg, s.v).value);
      if Triggers(cfg, w) {
        StartKeepsCount(cfg, w, l);
      }
    }
  }

  lemma StartKeepsCount(cfg: Config, v: View, l: Launch)
    requires Launches(cfg, v) ==> ValidLaunch(v.nodes, l)
    ensures StartProgram(cfg, v, l).Actives() == v.Actives() && StartProgram(cfg, v, l).activeCtr == v.activeCtr
  {
    StartFrame(cfg, v, l);
    if Launches(cfg, v) {
      StartRanks(cfg, v, l);
    }
  }

  lemma TickDriftsExactlyWhen(cfg: Config, v: View, now: int)
    requires Safe(cfg, v) && !ActiveDrift(v)
    ensures ActiveDrift(Tick(cfg, v, now)) <==> v.Actives() * TimedOut(cfg, v, now) != {}
  {
    var late := TimedOut(cfg, v, now);
    FailAllStatus(v.nodes, late);
    SplitCard(v.Actives(), late);
  }

  lemma SweepKeepsCount(cfg: Config, v: View, now: int)
    ensures |Sweep(cfg, v, now).Actives()| - Sweep(cfg, v, now).activeCtr == |v.Actives()| - v.activeCtr
  {
    var dead := DeadConnections(cfg, v, now);
    WithoutStatus(v.nodes, dead, Active);
    SplitCard(v.Actives(), dead);
  }

  /** Before the start, the counter comes to exceed the active entries in exactly the health
      ticks that time out an active node. */
  lemma DriftsExactlyWhen(cfg: Config, s: System, step: Step)
    requires cfg.Valid() && Invariant(cfg, s) && Enabled(cfg, s, step)
    requires s.v.phase == Initializing && NextView(cfg, s, step).phase == Initializing && !ActiveDrift(s.v)
    ensures ActiveDrift(NextView(cfg, s, step)) <==>
      step.DoTick? && s.v.Actives() * TimedOut(cfg, s.v, step.now) != {}
  {
    LeavingInitializing(cfg, s, step);
    match step
    case DoRegister(now, id, url, l) => RegisterKeepsCount(cfg, s, now, id, url, l);
    case DoStart(_, l) => StartKeepsCount(cfg, s.v, l);
    case DoTick(now) => TickDriftsExactlyWhen(cfg, s.v, now);
    case DoSweep(now) => SweepKeepsCount(cfg, s.v, now);
    case _ =>
  }

  // ----- when some run still starts the program -----

  /** Nothing but a registration runs checkAndStartProgram in the code. */
  predicate StartsByRegistration(steps: seq<Step>) {
    forall i :: 0 <= i < |steps| ==> !steps[i].DoStart?
  }

  ghost predicate CanStart(cfg: Config, s: System) {
    exists steps, t :: StartingRun(cfg, s, steps, t)
  }

  predicate StartingRun(cfg: Config, s: System, steps: seq<Step>, t: System) {
    Leads(cfg, s, steps, t) && StartsByRegistration(steps) && t.v.phase == Running
  }

  /** With a negative number of standbys the total never reaches ExpectedNodes with the active
      nodes complete. */
  lemma {:induction false} NegativeStandbyNeverStarts(cfg: Config, s: System, steps: seq<Step>, t: System)
    requires cfg.Valid() && cfg.standby < 0 && Invariant(cfg, s) && s.v.phase == Initializing
    requires Leads(cfg, s, steps, t) && StartsByRegistration(steps)
    ensures t.v.phase == Initializing
    decreases |steps|
  {
    if steps != [] {
      LeavingInitializing(cfg, s, steps[0]);
      StepInvariant(cfg, s, steps[0]);
      if steps[0].DoRegister? && LaunchesAll(cfg, s, steps[0]) {
        AdmitSafe(cfg, s.v, steps[0].id, steps[0].url, steps[0].now);
        TriggerExactness(cfg, Admitted(cfg, s.v, steps[0].id, steps[0].url, steps[0].now));
        assert false;
      }
      NegativeStandbyNeverStarts(cfg, After(cfg, s, steps[0]), steps[1..], t);
    }
  }

  lemma {:induction false} LongerThanAll(names: set<Name>) returns (n: nat)
    ensures forall x :: x in names ==> |x| < n
    decreases |names|
  {
    if names == {} {
      n := 0;
    } else {
      var x :| x in names;
      n := LongerThanAll(names - {x});
      n := if |x| < n then n else |x| + 1;
    }
  }

  lemma FreshName(names: set<Name>) returns (id: Name)
    ensures id !in names
  {
    var n := LongerThanAll(names);
    id := seq(n, i => 'n');
  }

  /** A swept server with room left, its active counter true. */
  predicate Filling(cfg: Config, s: System) {
    && Invariant(cfg, s) && s.v.phase == Initializing && !ActiveDrift(s.v)
    && s.v.activeCtr + s.v.standbyCtr < cfg.expected
  }

  lemma FillingAdmits(cfg: Config, s: System) returns (id: Name)
    requires cfg.Valid() && cfg.standby >= 0 && Filling(cfg, s)
    ensures id !in s.v.nodes && Admits(cfg, s.v, id)
    ensures var w := Admitted(cfg, s.v, id, id, s.clock);
      && Safe(cfg, w) && !ActiveDrift(w)
      && w.activeCtr + w.standbyCtr == s.v.activeCtr + s.v.standbyCtr + 1
  {
    id := FreshName(s.v.nodes.Keys);
    AdmitSafe(cfg, s.v, id, id, s.clock);
    AdmitStatus(s.v, id, id, s.clock, Role(cfg, s.v).value);
  }

  /** The registration that completes the membership starts the program. */
  lemma LastAdmission(cfg: Config, s: System, id: Name) returns (step: Step)
    requires cfg.Valid() && cfg.standby >= 0 && s.v.phase == Initializing && Admits(cfg, s.v, id)
    requires Safe(cfg, Admitted(cfg, s.v, id, id, s.clock)) && !ActiveDrift(Admitted(cfg, s.v, id, id, s.clock))
    requires Triggers(cfg, Admitted(cfg, s.v, id, id, s.clock))
    ensures step.DoRegister? && Enabled(cfg, s, step) && NextView(cfg, s, step).phase == Running
  {
    var w := Admitted(cfg, s.v, id, id, s.clock);
    TriggerExactness(cfg, w);
    UrlOrderExists(w.nodes, w.Actives());
    var order :| NoDup(order) && Elems(order) == w.Actives() && UrlSorted(w.nodes, order);
    step := DoRegister(s.clock, id, id, Launch(order, {}));
    StartFrame(cfg, w, Launch(order, {}));
  }

  lemma RunStarts(cfg: Config, s: System, step: Step, steps: seq<Step>, t: System)
    requires Enabled(cfg, s, step) && !step.DoStart? && StartingRun(cfg, After(cfg, s, step), steps, t)
    ensures CanStart(cfg, s)
  {
    assert ([step] + steps)[1..] == steps;
    assert StartingRun(cfg, s, [step] + steps, t);
  }

  /** Fresh nodes fill the membership up, and the last of them starts the program. */
  lemma {:induction false} FillingStarts(cfg: Config, s: System)
    requires cfg.Valid() && cfg.standby >= 0 && Filling(cfg, s)
    ensures CanStart(cfg, s)
    decreases cfg.expected - s.v.activeCtr - s.v.standbyCtr
  {
    var id := FillingAdmits(cfg, s);
    var w := Admitted(cfg, s.v, id, id, s.clock);
    if Triggers(cfg, w) {
      var step := LastAdmission(cfg, s, id);
      RunStarts(cfg, s, step, [], After(cfg, s, step));
    } else {
      var step := DoRegister(s.clock, id, id, Launch([], {}));
      StepInvariant(cfg, s, step);
      FillingStarts(cfg, After(cfg, s, step));
      var steps, t :| StartingRun(cfg, After(cfg, s, step), steps, t);
      RunStarts(cfg, s, step, steps, t);
    }
  }

  lemma LateSweepClears(cfg: Config, v: View, clock: int, now: int)
    requires v.nodes.Keys == v.health.Keys && now > clock + cfg.timeout * 2
    requires forall id :: id in v.health ==> v.health[id].last <= clock
    ensures Sweep(cfg, v, now).nodes == map[] && Sweep(cfg, v, now).Actives() == {}
    ensures Sweep(cfg, v, now).phase == v.phase && Sweep(cfg, v, now).standbyCtr <= v.standbyCtr
  {
    assert DeadConnections(cfg, v, now) == v.nodes.Keys;
    assert Sweep(cfg, v, now).nodes == map[];
  }

  /** A sweep that comes late enough clears the registry, and only drift survives it. */
  lemma LateSweep(cfg: Config, s: System) returns (step: Step)
    requires cfg.Valid() && Invariant(cfg, s) && s.v.phase == Initializing && !ActiveDrift(s.v)
    requires cfg.standby >= 0
    ensures step.DoSweep? && Enabled(cfg, s, step) && Filling(cfg, After(cfg, s, step))
  {
    var now := s.clock + cfg.timeout * 2 + 1;
    step := DoSweep(now);
    LateSweepClears(cfg, s.v, s.clock, now);
    SweepKeepsCount(cfg, s.v, now);
    assert s.v.standbyCtr <= cfg.standby;
    assert Sweep(cfg, s.v, now).activeCtr == 0 by {
      SweepSafe(cfg, s.v, now);
      assert |s.v.Actives()| == s.v.activeCtr;
    }
    assert Invariant(cfg, After(cfg, s, step)) by {
      StepInvariant(cfg, s, step);
    }
  }

  /** Whether the program can still be started: there are as many active entries as the counter
      says, and the number of standbys is not negative. */
  lemma CanStartExactlyWhen(cfg: Config, s: System)
    requires cfg.Valid() && Invariant(cfg, s) && s.v.phase == Initializing
    ensures CanStart(cfg, s) <==> cfg.standby >= 0 && |s.v.Actives()| == s.v.activeCtr
  {
    if cfg.standby >= 0 && !ActiveDrift(s.v) {
      var step := LateSweep(cfg, s);
      FillingStarts(cfg, After(cfg, s, step));
      var steps, t :| StartingRun(cfg, After(cfg, s, step), steps, t);
      RunStarts(cfg, s, step, steps, t);
    } else if CanStart(cfg, s) {
      var steps, t :| StartingRun(cfg, s, steps, t);
      if ActiveDrift(s.v) {
        DriftNeverStarts(cfg, s, steps, t);
      } else {
        NegativeStandbyNeverStarts(cfg, s, steps, t);
      }
      assert false;
    }
  }

  /** So a health tick before the start takes the start away exactly when it times out an
      active node. */
  lemma TickEndsStartsExactlyWhen(cfg: Config, s: System, now: int)
    requires cfg.Valid() && Invariant(cfg, s) && s.v.phase == Initializing && now >= s.clock
    requires CanStart(cfg, s)
    ensures !CanStart(cfg, After(cfg, s, DoTick(now))) <==> s.v.Actives() * TimedOut(cfg, s.v, now) != {}
  {
    CanStartExactlyWhen(cfg, s);
    StepInvariant(cfg, s, DoTick(now));
    CanStartExactlyWhen(cfg, After(cfg, s, DoTick(now)));
    TickDriftsExactlyWhen(cfg, s.v, now);
  }
}
