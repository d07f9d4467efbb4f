/** What every handler keeps: session coverage, capacity, health records that never
    know of a failure the registry does not, and the transition bookkeeping. */
module ClusterSafety {
  import opened Collections
  import opened ClusterTypes
  import opened ClusterSpec
  import opened ClusterFacts

  /** Registry and health records have the same keys, and every registered node has a
      connected session. */
  predicate Covered(v: View) {
    && v.nodes.Keys == v.health.Keys
    && forall id :: id in v.nodes ==> id in v.sessions && v.sessions[id].connected
  }

  /** The counters bound the true counts from above, and the true counts respect the
      configured sizes although the counters may drift past them. */
  predicate WithinCapacity(cfg: Config, v: View) {
    && |v.Actives()| <= v.activeCtr
    && |v.Actives()| <= cfg.ActiveNodes()
    && |v.Standbys()| <= v.standbyCtr
    && |v.Standbys()| <= cfg.StandbyCap()
  }

  predicate HealthAgrees(v: View) {
    forall id :: id in v.health && id in v.nodes && v.health[id].status == NodeFailed ==>
      v.nodes[id].status == NodeFailed
  }

  predicate PhaseCounted(cfg: Config, v: View) {
    match v.phase
    case Initializing =>
      && Times(v.entered, Running) == 0 && Times(v.entered, Reconfiguring) == 0
      && v.activeCtr <= cfg.ActiveNodes() && v.standbyCtr <= cfg.StandbyCap()
    case Running => Times(v.entered, Running) <= Times(v.entered, Reconfiguring) + 1
    case Reconfiguring => Times(v.entered, Running) <= Times(v.entered, Reconfiguring)
    case Failed => Times(v.entered, Running) <= Times(v.entered, Reconfiguring) + 1
    case ShuttingDown => false
  }

  predicate Safe(cfg: Config, v: View) {
    Covered(v) && WithinCapacity(cfg, v) && HealthAgrees(v) && PhaseCounted(cfg, v)
  }

  lemma StartSafe(cfg: Config, v: View, l: Launch)
    requires Safe(cfg, v)
    requires Launches(cfg, v) ==> ValidLaunch(v.nodes, l)
    ensures Safe(cfg, StartProgram(cfg, v, l))
  {
    if Launches(cfg, v) {
      assert forall x :: x in l.order ==> x in Elems(l.order);
      RankedStatus(v.nodes, l.order, Active);
      RankedStatus(v.nodes, l.order, Standby);
    }
  }

  lemma ReconnectSafe(cfg: Config, v: View, id: Name, url: Name, now: int)
    requires Safe(cfg, v) && id in v.sessions && id in v.nodes
    ensures Safe(cfg, Reconnect(v, id, url, now))
  {
  }

  lemma AdmitSafe(cfg: Config, v: View, id: Name, url: Name, now: int)
    requires Safe(cfg, v) && Admits(cfg, v, id)
    ensures id !in v.nodes
    ensures Safe(cfg, Admitted(cfg, v, id, url, now))
  {
    var w := Admitted(cfg, v, id, url, now);
    assert Covered(w);
    assert HealthAgrees(w);
    assert WithinCapacity(cfg, w) by {
      AdmitStatus(v, id, url, now, Role(cfg, v).value);
    }
  }

  lemma RegisterSafe(cfg: Config, v: View, id: Name, url: Name, now: int, l: Launch)
    requires Safe(cfg, v) && ValidRegistration(cfg, v, id, url, now, l)
    ensures Safe(cfg, Register(cfg, v, id, url, now, l))
  {
    if Reconnects(v, id) {
      ReconnectSafe(cfg, v, id, url, now);
    } else if Admits(cfg, v, id) {
      AdmitSafe(cfg, v, id, url, now);
      var w := Admitted(cfg, v, id, url, now);
      if Triggers(cfg, w) {
        StartSafe(cfg, w, l);
      }
    }
  }

  lemma HeartbeatSafe(cfg: Config, v: View, id: Name, now: int)
    requires Safe(cfg, v)
    ensures Safe(cfg, Heartbeat(v, id, now))
  {
  }

  /** Lowering the counter of the role a node leaves keeps the bounds. */
  lemma LeaveCapacity(cfg: Config, v: View, id: Name, w: View)
    requires WithinCapacity(cfg, v) && id in v.nodes
    requires w.Actives() == v.Actives() - {id} && w.Standbys() == v.Standbys() - {id}
    requires w.activeCtr == v.activeCtr - (if v.nodes[id].status == Active then 1 else 0)
    requires w.standbyCtr == v.standbyCtr - (if v.nodes[id].status == Standby then 1 else 0)
    ensures WithinCapacity(cfg, w)
  {
    assert id in v.Actives() <==> v.nodes[id].status == Active;
    assert id in v.Standbys() <==> v.nodes[id].status == Standby;
  }

  lemma ReportSafe(cfg: Config, v: View, id: Name)
    requires Safe(cfg, v)
    ensures Safe(cfg, ReportFailure(v, id))
  {
    if FailureTaken(v, id) {
      var n := v.nodes[id].(status := NodeFailed);
      var w := ReportFailure(v, id);
      assert WithinCapacity(cfg, w) by {
        ReportEffect(v, id);
        SetStatus(v.nodes, id, n, Active);
        SetStatus(v.nodes, id, n, Standby);
        LeaveCapacity(cfg, v, id, w);
      }
      assert PhaseCounted(cfg, w);
      assert Covered(w);
    }
  }

  lemma RemoveSafe(cfg: Config, v: View, id: Name)
    requires Safe(cfg, v)
    ensures Safe(cfg, Remove(v, id))
  {
    if FailureTaken(v, id) {
      var w := Remove(v, id);
      RemoveEffect(v, id);
      assert WithinCapacity(cfg, w) by {
        WithoutStatus(v.nodes, {id}, Active);
        WithoutStatus(v.nodes, {id}, Standby);
        LeaveCapacity(cfg, v, id, w);
      }
      assert PhaseCounted(cfg, w);
    }
  }

  lemma SweepSafe(cfg: Config, v: View, now: int)
    requires Safe(cfg, v)
    ensures Safe(cfg, Sweep(cfg, v, now))
  {
    var dead := DeadConnections(cfg, v, now);
    WithoutStatus(v.nodes, dead, Active);
    WithoutStatus(v.nodes, dead, Standby);
    SplitCard(v.Actives(), dead);
    SplitCard(v.Standbys(), dead);
  }

  lemma TickSafe(cfg: Config, v: View, now: int)
    requires Safe(cfg, v)
    ensures Safe(cfg, Tick(cfg, v, now))
  {
    var late := TimedOut(cfg, v, now);
    FailAllStatus(v.nodes, late);
    SplitCard(v.Actives(), late);
    SplitCard(v.Standbys(), late);
  }

  /** Dropping stale sessions never touches a registered node's session. */
  lemma CleanSessionsSafe(cfg: Config, v: View, now: int, limit: int)
    requires Safe(cfg, v)
    ensures var kept := CleanSessions(v.sessions, now, limit);
      && Safe(cfg, v.(sessions := kept))
      && forall id :: id in v.nodes ==> id in kept && kept[id] == v.sessions[id]
  {
  }

  lemma EnterSafe(cfg: Config, v: View)
    requires Safe(cfg, v) && MayEnter(v)
    ensures Safe(cfg, Enter(v))
  {
  }

  lemma PromotionSafe(cfg: Config, v: View, r: Round)
    requires Safe(cfg, v) && ValidRound(cfg, v.nodes, r) && v.phase != Initializing
    ensures Safe(cfg, AfterPromotion(cfg, v, r))
  {
    PromotedStatus(cfg, v.nodes, r.promoted);
    PoolDecides(cfg, v.nodes, r.promoted);
    var n1 := Promoted(v.nodes, r.promoted);
    assert forall id :: id in v.nodes && v.nodes[id].status == NodeFailed ==> id in WithStatus(n1, NodeFailed);
  }

  lemma SentSafe(cfg: Config, v: View, r: Round)
    requires Safe(cfg, v) && ValidRound(cfg, v.nodes, r) && v.phase != Initializing
    requires Sufficient(cfg, Promoted(v.nodes, r.promoted))
    ensures Safe(cfg, Sent(cfg, v, r))
  {
    PromotionSafe(cfg, v, r);
    var n1 := Promoted(v.nodes, r.promoted);
    assert forall x :: x in r.order ==> x in Elems(r.order);
    RankedStatus(n1, r.order, Active);
    RankedStatus(n1, r.order, Standby);
  }

  lemma MarkSafe(cfg: Config, v: View, rejecting: set<Name>)
    requires Safe(cfg, v) && v.phase != Initializing
    ensures Safe(cfg, MarkRejecting(v, rejecting))
  {
    var names := UrlsOf(v.nodes, rejecting);
    FailAllStatus(v.nodes, names);
    SplitCard(v.Actives(), names);
    SplitCard(v.Standbys(), names);
  }

  lemma ResumeSafe(cfg: Config, v: View)
    requires Safe(cfg, v) && v.phase == Reconfiguring
    ensures Safe(cfg, MoveTo(v, Running))
  {
  }

  lemma ConcludeSafe(cfg: Config, v: View, rejecting: set<Name>)
    requires Safe(cfg, v) && v.phase != Initializing
    ensures Safe(cfg, Conclude(v, rejecting))
  {
    if rejecting != {} {
      MarkSafe(cfg, v, rejecting);
    } else if v.phase == Reconfiguring {
      ResumeSafe(cfg, v);
    }
  }

  lemma FailedSafe(cfg: Config, v: View)
    requires Safe(cfg, v)
    ensures Safe(cfg, MoveTo(v, Failed))
  {
  }

  lemma AttemptSafe(cfg: Config, v: View, r: Round)
    requires Safe(cfg, v) && ValidRound(cfg, v.nodes, r) && v.phase != Initializing
    ensures Safe(cfg, Attempt(cfg, v, r))
  {
    if !Sufficient(cfg, Promoted(v.nodes, r.promoted)) {
      PromotionSafe(cfg, v, r);
      FailedSafe(cfg, AfterPromotion(cfg, v, r));
    } else {
      SentSafe(cfg, v, r);
      SentFrame(cfg, v, r);
      ConcludeSafe(cfg, Sent(cfg, v, r), r.rejecting);
    }
  }
}
