/** What the counter of failed nodes counts. It only ever grows, so it can at best count each
    failure of an entry once. */
module FailureCount {
  import opened Collections
  import opened ClusterTypes
  import opened ClusterSpec
  import opened ClusterFacts
  import opened ClusterSafety
  import opened ClusterRuns
  import opened Accounting

  function FailedNodes(v: View): set<Name> {
    WithStatus(v.nodes, NodeFailed)
  }

  /** The counter rises by the number of entries that have newly failed. */
  predicate CountsEach(v: View, w: View) {
    w.failedCtr - v.failedCtr == |FailedNodes(w) - FailedNodes(v)|
  }

  lemma FailAllFailed(nodes: Nodes, names: set<Name>)
    ensures WithStatus(FailAll(nodes, names), NodeFailed) - WithStatus(nodes, NodeFailed) ==
      names * (WithStatus(nodes, Active) + WithStatus(nodes, Standby))
  {
    var f := FailAll(nodes, names);
    forall id | id in nodes
      ensures id in WithStatus(f, NodeFailed) <==> id in names || nodes[id].status == NodeFailed
    {
    }
  }

  /** A health tick counts an entry that has failed already whenever its silence goes on. */
  lemma TickCountsExactlyWhen(cfg: Config, v: View, now: int)
    ensures CountsEach(v, Tick(cfg, v, now)) <==> TimedOut(cfg, v, now) * FailedNodes(v) == {}
  {
    var late := TimedOut(cfg, v, now);
    FailAllFailed(v.nodes, late);
    assert late * (v.Actives() + v.Standbys()) == late - FailedNodes(v);
    ProperPart(late, FailedNodes(v));
  }

  /** Marking does not count the standbys it fails. */
  lemma MarkCountsExactlyWhen(v: View, names: set<Name>)
    ensures CountsEach(v, MarkNamed(v, names)) <==> names * v.Standbys() == {}
  {
    FailAllFailed(v.nodes, names);
    assert names * (v.Actives() + v.Standbys()) == v.Actives() * names + names * v.Standbys();
    assert v.Actives() * names !! names * v.Standbys();
  }

  lemma OneMore(failed: set<Name>, id: Name)
    ensures |failed + {id} - failed| == if id in failed then 0 else 1
  {
    assert failed + {id} - failed == if id in failed then {} else {id};
  }

  lemma ReportCounts(v: View, id: Name)
    ensures CountsEach(v, ReportFailure(v, id))
  {
    if FailureTaken(v, id) {
      assert FailedNodes(ReportFailure(v, id)) == FailedNodes(v) + {id} by {
        ReportEffect(v, id);
        SetStatus(v.nodes, id, v.nodes[id].(status := NodeFailed), NodeFailed);
      }
      ReportEffect(v, id);
      OneMore(FailedNodes(v), id);
    } else {
      NobodyFails(v, ReportFailure(v, id));
    }
  }

  /** No entry newly fails. */
  lemma NobodyFails(v: View, w: View)
    requires w.failedCtr == v.failedCtr && FailedNodes(w) <= FailedNodes(v)
    ensures CountsEach(v, w)
  {
    assert FailedNodes(w) - FailedNodes(v) == {};
  }

  lemma StartFailsNobody(cfg: Config, v: View, l: Launch)
    requires Launches(cfg, v) ==> ValidLaunch(v.nodes, l)
    ensures StartProgram(cfg, v, l).failedCtr == v.failedCtr
    ensures FailedNodes(StartProgram(cfg, v, l)) == FailedNodes(v)
  {
    if Launches(cfg, v) {
      assert forall x :: x in l.order ==> x in Elems(l.order);
      RankedStatus(v.nodes, l.order, NodeFailed);
    }
  }

  lemma RegisterCounts(cfg: Config, v: View, id: Name, url: Name, now: int, l: Launch)
    requires Safe(cfg, v) && ValidRegistration(cfg, v, id, url, now, l)
    ensures CountsEach(v, Register(cfg, v, id, url, now, l))
  {
    if Admits(cfg, v, id) {
      var w := Admitted(cfg, v, id, url, now);
      SetStatus(v.nodes, id, w.nodes[id], NodeFailed);
      if Triggers(cfg, w) {
        StartFailsNobody(cfg, w, l);
      }
    }
    NobodyFails(v, Register(cfg, v, id, url, now, l));
  }

  lemma PromotionFailsNobody(cfg: Config, v: View, r: Round)
    requires ValidRound(cfg, v.nodes, r)
    ensures AfterPromotion(cfg, v, r).failedCtr == v.failedCtr && FailedNodes(AfterPromotion(cfg, v, r)) == FailedNodes(v)
  {
    PromotedStatus(cfg, v.nodes, r.promoted);
  }

  lemma SentFailsNobody(cfg: Config, v: View, r: Round)
    requires ValidRound(cfg, v.nodes, r) && Sufficient(cfg, Promoted(v.nodes, r.promoted))
    ensures Sent(cfg, v, r).failedCtr == v.failedCtr && FailedNodes(Sent(cfg, v, r)) == FailedNodes(v)
  {
    PromotionFailsNobody(cfg, v, r);
    assert forall x :: x in r.order ==> x in Elems(r.order);
    RankedStatus(Promoted(v.nodes, r.promoted), r.order, NodeFailed);
  }

  /** A refusing node's URL names a standby that the round leaves one. */
  predicate NamesStandby(v: View, r: Round) {
    (v.Standbys() - Elems(r.promoted)) * UrlsOf(v.nodes, r.rejecting) != {}
  }

  lemma AttemptCountsExactlyWhen(cfg: Config, v: View, r: Round)
    requires ValidRound(cfg, v.nodes, r)
    ensures CountsEach(v, Attempt(cfg, v, r)) <==> !(Retries(cfg, v, r) && NamesStandby(v, r))
  {
    if !Sufficient(cfg, Promoted(v.nodes, r.promoted)) {
      PromotionFailsNobody(cfg, v, r);
      NobodyFails(v, Attempt(cfg, v, r));
    } else {
      SentFailsNobody(cfg, v, r);
      if r.rejecting == {} {
        NobodyFails(v, Attempt(cfg, v, r));
      } else {
        RefusalCounts(cfg, v, r);
      }
    }
  }

  lemma RefusalCounts(cfg: Config, v: View, r: Round)
    requires ValidRound(cfg, v.nodes, r) && Retries(cfg, v, r)
    ensures CountsEach(v, Attempt(cfg, v, r)) <==> !NamesStandby(v, r)
  {
    var w := Sent(cfg, v, r);
    var names := UrlsOf(v.nodes, r.rejecting);
    assert UrlsOf(w.nodes, r.rejecting) == names by {
      SentUrls(cfg, v, r);
    }
    assert w.Standbys() == v.Standbys() - Elems(r.promoted) by {
      SentShape(cfg, v, r);
    }
    SentFailsNobody(cfg, v, r);
    MarkCountsExactlyWhen(w, names);
  }

  lemma EnterCounts(v: View, w: View)
    ensures CountsEach(Enter(v), w) <==> CountsEach(v, w)
  {
  }

  lemma FailureKeepsCount(v: View, w: View)
    ensures CountsEach(v, MoveTo(w, Failed)) <==> CountsEach(v, w)
  {
  }

  lemma AttemptStepCountsExactlyWhen(cfg: Config, v: View, made: nat, r: Round)
    requires !Refused(v, made) ==> ValidRound(cfg, v.nodes, r)
    ensures CountsEach(v, AttemptStep(cfg, v, made, r)) <==> !(GoesOn(cfg, v, made, r) && NamesStandby(v, r))
  {
    if Refused(v, made) {
      NobodyFails(v, MoveTo(v, Failed));
    } else {
      var u := Entering(v, made);
      AttemptCountsExactlyWhen(cfg, u, r);
      EnterCounts(v, Attempt(cfg, u, r));
      FailureKeepsCount(v, Attempt(cfg, u, r));
    }
  }

  /** The steps that count wrongly: a tick after the silence of a failed node, and a refusal
      that takes a standby down. */
  predicate Miscounts(cfg: Config, s: System, step: Step)
    requires Enabled(cfg, s, step)
  {
    match step
    case DoTick(now) => TimedOut(cfg, s.v, now) * FailedNodes(s.v) != {}
    case DoAttempt(_, made, r) => GoesOn(cfg, s.v, made, r) && NamesStandby(s.v, r)
    case _ => false
  }

  /** Every other step counts each failure once. */
  lemma FailuresCountedExactlyWhen(cfg: Config, s: System, step: Step)
    requires Invariant(cfg, s) && Enabled(cfg, s, step)
    ensures CountsEach(s.v, NextView(cfg, s, step)) <==> !Miscounts(cfg, s, step)
  {
    match step
    case DoRegister(now, id, url, l) => RegisterCounts(cfg, s.v, id, url, now, l);
    case DoStart(_, l) => StartFailsNobody(cfg, s.v, l); NobodyFails(s.v, NextView(cfg, s, step));
    case DoReport(_, id) => ReportCounts(s.v, id);
    case DoRemove(_, id) =>
      if FailureTaken(s.v, id) {
        WithoutStatus(s.v.nodes, {id}, NodeFailed);
        RemoveEffect(s.v, id);
      }
      NobodyFails(s.v, Remove(s.v, id));
    case DoAttempt(_, made, r) => AttemptStepCountsExactlyWhen(cfg, s.v, made, r);
    case DoTick(now) => TickCountsExactlyWhen(cfg, s.v, now);
    case DoSweep(now) =>
      WithoutStatus(s.v.nodes, DeadConnections(cfg, s.v, now), NodeFailed);
      NobodyFails(s.v, Sweep(cfg, s.v, now));
    case _ => NobodyFails(s.v, NextView(cfg, s, step));
  }
}
