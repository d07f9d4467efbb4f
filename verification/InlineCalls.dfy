/** A reconfiguration call that nothing interrupts is one run of attempt steps, so what is
    proved of whole calls holds of that stretch of a server's run. */
module InlineCalls {
  import opened ClusterTypes
  import opened ClusterSpec
  import opened ClusterFacts
  import opened ClusterSafety
  import opened ClusterRuns
  import opened Reconfiguration

  /** The first k rounds of a call as steps. */
  function CallSteps(c: Call, now: int, k: nat): seq<Step>
    requires k <= |c.rounds|
  {
    if k == 0 then [] else CallSteps(c, now, k - 1) + [DoAttempt(now, k - 1, c.rounds[k - 1])]
  }

  /** The system before round i of the call. */
  function Standing(s: System, c: Call, i: nat): System
    requires i < |c.views|
  {
    if i == 0 then s else System(c.views[i], s.pending - multiset{0} + multiset{i}, s.clock, s.lastTick)
  }

  predicate Starts(cfg: Config, s: System, c: Call, w: View) {
    s.v.phase != Failed && 0 in s.pending && !Refused(s.v, 0) && ValidCall(cfg, Enter(s.v), c, w)
  }

  lemma {:induction false} RoundPhase(cfg: Config, v: View, c: Call, w: View, i: nat)
    requires ValidCall(cfg, v, c, w) && v.phase == Reconfiguring && i < |c.rounds|
    ensures c.views[i].phase == Reconfiguring
    decreases i
  {
    if i > 0 {
      RoundPhase(cfg, v, c, w, i - 1);
      assert IsRound(cfg, c.views[i - 1], c.rounds[i - 1], c.views[i - 1 + 1]);
      assert IsRetried(cfg, c.views[i - 1], c.rounds[i - 1]);
      AttemptPhase(cfg, c.views[i - 1], c.rounds[i - 1]);
    }
  }

  /** The attempt works on the view the call's round works on. */
  lemma StandingEnters(cfg: Config, s: System, c: Call, w: View, i: nat)
    requires Starts(cfg, s, c, w) && i < |c.rounds|
    ensures !Refused(Standing(s, c, i).v, i) && Entering(Standing(s, c, i).v, i) == c.views[i]
    ensures Standing(s, c, i).v.phase != Failed && i in Standing(s, c, i).pending
  {
    RoundPhase(cfg, Enter(s.v), c, w, i);
  }

  lemma RoundStep(cfg: Config, s: System, c: Call, w: View, i: nat)
    requires Starts(cfg, s, c, w) && i < |c.rounds|
    ensures Enabled(cfg, Standing(s, c, i), DoAttempt(s.clock, i, c.rounds[i]))
    ensures NextView(cfg, Standing(s, c, i), DoAttempt(s.clock, i, c.rounds[i])) ==
      if i < c.Last() then c.views[i + 1] else w
    ensures GoesOn(cfg, Standing(s, c, i).v, i, c.rounds[i]) && i + 1 < MAX_ATTEMPTS <==> i < c.Last()
  {
    StandingEnters(cfg, s, c, w, i);
    assert IsRound(cfg, c.views[i], c.rounds[i], c.views[i + 1]);
    assert i < c.Last() ==> IsRetried(cfg, c.views[i], c.rounds[i]);
  }

  lemma RetriedStep(cfg: Config, s: System, c: Call, w: View, i: nat)
    requires Starts(cfg, s, c, w) && i < c.Last()
    ensures Enabled(cfg, Standing(s, c, i), DoAttempt(s.clock, i, c.rounds[i]))
    ensures After(cfg, Standing(s, c, i), DoAttempt(s.clock, i, c.rounds[i])) == Standing(s, c, i + 1)
  {
    RoundStep(cfg, s, c, w, i);
    assert Standing(s, c, i).pending - multiset{i} == s.pending - multiset{0};
  }

  lemma {:induction false} CallPrefix(cfg: Config, s: System, c: Call, w: View, i: nat)
    requires Starts(cfg, s, c, w) && i < |c.rounds|
    ensures Leads(cfg, s, CallSteps(c, s.clock, i), Standing(s, c, i))
    decreases i
  {
    if i > 0 {
      var step := DoAttempt(s.clock, i - 1, c.rounds[i - 1]);
      CallPrefix(cfg, s, c, w, i - 1);
      RetriedStep(cfg, s, c, w, i - 1);
      RunExtends(cfg, s, CallSteps(c, s.clock, i - 1), Standing(s, c, i - 1), step);
    }
  }

  /** The attempts of a call, one after the other, take its goroutine out of flight and leave
      the state the call leaves. */
  lemma CallIsRun(cfg: Config, s: System, c: Call, w: View) returns (t: System)
    requires Starts(cfg, s, c, w)
    ensures Leads(cfg, s, CallSteps(c, s.clock, |c.rounds|), t)
    ensures t.v == w && t.pending == s.pending - multiset{0}
  {
    var k := c.Last();
    var u := Standing(s, c, k);
    var step := DoAttempt(s.clock, k, c.rounds[k]);
    RoundStep(cfg, s, c, w, k);
    t := After(cfg, u, step);
    assert Leads(cfg, s, CallSteps(c, s.clock, |c.rounds|), t) by {
      CallPrefix(cfg, s, c, w, k);
      RunExtends(cfg, s, CallSteps(c, s.clock, k), u, step);
    }
    assert u.pending - multiset{k} == s.pending - multiset{0};
  }

  /** removeNode of an active node is a removal step followed by such a call. */
  lemma RemovalIsRun(cfg: Config, s: System, id: Name, c: Call, w: View) returns (t: System)
    requires s.v.phase != Failed && LosesActive(s.v, id) && ValidCall(cfg, Remove(s.v, id), c, w)
    ensures Leads(cfg, s, [DoRemove(s.clock, id)] + CallSteps(c, s.clock, |c.rounds|), t)
    ensures t.v == w && t.pending == s.pending
  {
    var step := DoRemove(s.clock, id);
    var u := After(cfg, s, step);
    RemoveEffect(s.v, id);
    t := CallIsRun(cfg, u, c, w);
    assert ([step] + CallSteps(c, s.clock, |c.rounds|))[1..] == CallSteps(c, s.clock, |c.rounds|);
  }

  /** After any run, removing an active node ends Failed, or Running with the active nodes
      ranked from 0. */
  lemma RemovalOutcome(cfg: Config, start: int, steps: seq<Step>, s: System, id: Name, c: Call, w: View)
    requires cfg.Valid() && Leads(cfg, Boot(start), steps, s)
    requires LosesActive(s.v, id) && ValidCall(cfg, Remove(s.v, id), c, w)
    ensures w.phase == Failed || (w.phase == Running && RanksAre(w.nodes, cfg.ActiveNodes()))
  {
    BootInvariant(cfg, start);
    RunInvariant(cfg, Boot(start), steps, s);
    RemoveEffect(s.v, id);
    RemoveSafe(cfg, s.v, id);
    CallOutcome(cfg, Remove(s.v, id), c, w);
  }
}
