/** What the server's handlers promise, in the terms of its fields alone: phases are written out
    and no law speaks through the guards and update functions of the specification. */
module ClusterLaws {
  import opened Collections
  import opened ClusterTypes
  import opened ClusterSpec
  import opened ClusterFacts
  import opened ClusterRuns

  // ----- the transition table -----

  /** Besides Failed, which may always be entered, there are four moves. */
  lemma TransitionTable(from: Phase, to: Phase)
    ensures Accepts(from, to) <==>
      || to == Failed
      || (from == Initializing && to == Running)
      || (from == Running && to == Reconfiguring)
      || (from == Reconfiguring && to == Running)
      || (from == Reconfiguring && to == Reconfiguring)
    ensures Moves(from, to) <==> Accepts(from, to) && !(from == Failed && to == Failed)
  {
  }

  /** A failure or removal is acted on for registered entries of a server that has started. */
  lemma TakenExactlyWhen(v: View, id: Name)
    ensures FailureTaken(v, id) <==> id in v.nodes && (v.phase == Running || v.phase == Reconfiguring)
    ensures LosesActive(v, id) <==> id in v.Actives() && (v.phase == Running || v.phase == Reconfiguring)
  {
  }

  // ----- registrations -----

  predicate Open(v: View) {
    v.phase == Initializing || v.phase == Running
  }

  /** A registration is let in as a reconnect of a registered node, or while a role is free. */
  predicate LetIn(cfg: Config, v: View, id: Name) {
    && Open(v)
    && (id in v.nodes || v.activeCtr < cfg.expected - cfg.standby || v.standbyCtr < cfg.standby)
  }

  lemma LetInExactlyWhen(cfg: Config, v: View, id: Name)
    requires v.nodes.Keys <= v.sessions.Keys
    ensures LetIn(cfg, v, id) <==> Reconnects(v, id) || Admits(cfg, v, id)
    ensures Open(v) && id in v.nodes <==> Reconnects(v, id)
  {
  }

  /** A registration that is turned away changes nothing. */
  lemma TurnedAway(cfg: Config, v: View, id: Name, url: Name, now: int, l: Launch)
    requires v.nodes.Keys <= v.sessions.Keys && ValidRegistration(cfg, v, id, url, now, l)
    requires !LetIn(cfg, v, id)
    ensures Register(cfg, v, id, url, now, l) == v
  {
  }

  /** A reconnect renews the health record and the session from the entry, and leaves the entry,
      every counter and every other node alone. */
  lemma ReconnectRenews(cfg: Config, v: View, id: Name, url: Name, now: int, l: Launch)
    requires v.nodes.Keys <= v.sessions.Keys && ValidRegistration(cfg, v, id, url, now, l)
    requires Open(v) && id in v.nodes
    ensures var w := Register(cfg, v, id, url, now, l);
      && w.health == v.health[id := NodeHealth(now, v.nodes[id].status, 0)]
      && w.sessions == v.sessions[id :=
           Session(url, v.nodes[id].status, v.nodes[id].rank, now, v.sessions[id].reconnects + 1, true)]
      && w == v.(health := w.health, sessions := w.sessions)
  {
  }

  /** The role and rank a new node is given. */
  function NewRole(cfg: Config, v: View): NodeStatus {
    if v.activeCtr < cfg.expected - cfg.standby then Active else Standby
  }

  /** What a new node's session keeps: the rank of an older session when it gets none itself. */
  predicate Joined(v: View, w: View, id: Name, url: Name, now: int, st: NodeStatus, rank: int) {
    && w.health == v.health[id := NodeHealth(now, st, 0)]
    && w.nodes.Keys == v.nodes.Keys + {id}
    && w.nodes[id].url == url && w.nodes[id].status == st
    && (forall x :: x in v.nodes && x != id ==> w.nodes[x].url == v.nodes[x].url && w.nodes[x].status == v.nodes[x].status)
    && w.sessions.Keys == v.sessions.Keys + {id}
    && (forall x :: x in v.sessions && x != id ==> w.sessions[x] == v.sessions[x])
    && w.sessions[id] == Session(
         url, st, if rank < 0 && id in v.sessions then v.sessions[id].rank else rank, now,
         if id in v.sessions then v.sessions[id].reconnects + 1 else 0, true)
    && w.activeCtr == v.activeCtr + (if st == Active then 1 else 0)
    && w.standbyCtr == v.standbyCtr + (if st == Standby then 1 else 0)
    && w.failedCtr == v.failedCtr
  }

  lemma AdmitJoins(v: View, id: Name, url: Name, now: int, st: NodeStatus)
    requires st != NodeFailed
    ensures Joined(v, Admit(v, id, url, now, st), id, url, now, st, if st == Active then v.activeCtr else -1)
    ensures Admit(v, id, url, now, st).nodes ==
      v.nodes[id := NodeState(url, st, if st == Active then v.activeCtr else -1)]
    ensures Admit(v, id, url, now, st).phase == v.phase && Admit(v, id, url, now, st).entered == v.entered
  {
  }

  lemma StartKeepsJoined(cfg: Config, v: View, w: View, l: Launch, id: Name, url: Name, now: int, st: NodeStatus, rank: int)
    requires Joined(v, w, id, url, now, st, rank) && (Launches(cfg, w) ==> ValidLaunch(w.nodes, l))
    ensures Joined(v, StartProgram(cfg, w, l), id, url, now, st, rank)
  {
    if Launches(cfg, w) {
      assert forall x :: x in l.order ==> x in Elems(l.order);
      RankedStatus(w.nodes, l.order, Active);
    }
  }

  /** The start round goes out, and with it the ranks. */
  predicate Completes(cfg: Config, v: View, id: Name, st: NodeStatus) {
    && v.phase == Initializing && v.activeCtr + v.standbyCtr + 1 == cfg.expected
    && |v.Actives() + (if st == Active then {id} else {})| >= cfg.expected - cfg.standby
  }

  lemma CompletesExactlyWhen(cfg: Config, v: View, id: Name, url: Name, now: int)
    requires id !in v.nodes && Admits(cfg, v, id)
    ensures Completes(cfg, v, id, NewRole(cfg, v)) <==>
      Triggers(cfg, Admitted(cfg, v, id, url, now)) && Launches(cfg, Admitted(cfg, v, id, url, now))
  {
    AdmitStatus(v, id, url, now, Role(cfg, v).value);
  }

  /** A new node is recorded in the role the counters leave free, active before standby, and
      heard of now. Running is entered exactly when it completes the membership and no start
      command is refused. */
  lemma AdmissionRecords(cfg: Config, v: View, id: Name, url: Name, now: int, l: Launch)
    requires v.nodes.Keys <= v.sessions.Keys && ValidRegistration(cfg, v, id, url, now, l)
    requires LetIn(cfg, v, id) && id !in v.nodes
    ensures var st := NewRole(cfg, v);
      Joined(v, Register(cfg, v, id, url, now, l), id, url, now, st, if st == Active then v.activeCtr else -1)
    ensures Register(cfg, v, id, url, now, l).phase ==
      if Completes(cfg, v, id, NewRole(cfg, v)) && l.rejecting == {} then Running else v.phase
    ensures !Completes(cfg, v, id, NewRole(cfg, v)) ==>
      Register(cfg, v, id, url, now, l).nodes ==
      v.nodes[id := NodeState(url, NewRole(cfg, v), if NewRole(cfg, v) == Active then v.activeCtr else -1)]
  {
    var st := Role(cfg, v).value;
    var w := Admitted(cfg, v, id, url, now);
    AdmitJoins(v, id, url, now, st);
    CompletesExactlyWhen(cfg, v, id, url, now);
    if Triggers(cfg, w) {
      StartKeepsJoined(cfg, v, w, l, id, url, now, st, if st == Active then v.activeCtr else -1);
      StartFrame(cfg, w, l);
    }
  }

  // ----- heartbeats, reports, removals -----

  /** A heartbeat renews the time of the record it finds, and nothing else. */
  lemma HeartbeatRenews(v: View, id: Name, now: int)
    ensures id in v.health ==>
      Heartbeat(v, id, now) == v.(health := v.health[id := NodeHealth(now, v.health[id].status, v.health[id].failures)])
    ensures id !in v.health ==> Heartbeat(v, id, now) == v
  {
  }

  /** A report of a registered entry of a started server fails the entry, lowers the counter of
      its role and raises that of failures unless it had failed. */
  lemma ReportFails(v: View, id: Name)
    requires id in v.nodes && (v.phase == Running || v.phase == Reconfiguring)
    ensures ReportFailure(v, id).nodes == v.nodes[id := v.nodes[id].(status := NodeFailed)]
    ensures ReportFailure(v, id).activeCtr == v.activeCtr - (if v.nodes[id].status == Active then 1 else 0)
    ensures ReportFailure(v, id).standbyCtr == v.standbyCtr - (if v.nodes[id].status == Standby then 1 else 0)
    ensures ReportFailure(v, id).failedCtr == v.failedCtr + (if v.nodes[id].status == NodeFailed then 0 else 1)
  {
    TakenExactlyWhen(v, id);
    ReportEffect(v, id);
  }

  /** And it leaves the health record failed, the sessions alone, and the server Reconfiguring by
      one transition more. */
  lemma ReportRecords(v: View, id: Name)
    requires id in v.nodes && (v.phase == Running || v.phase == Reconfiguring)
    ensures ReportFailure(v, id).health ==
      if id in v.health then v.health[id := v.health[id].(status := NodeFailed)] else v.health
    ensures ReportFailure(v, id).sessions == v.sessions && ReportFailure(v, id).phase == Reconfiguring
    ensures ReportFailure(v, id).entered == v.entered[Reconfiguring := Times(v.entered, Reconfiguring) + 1]
  {
    TakenExactlyWhen(v, id);
    var f := FailNode(v, id);
    assert f.health == v.health && f.sessions == v.sessions && f.phase == Reconfiguring;
    assert f.entered == Entered(v.entered, Reconfiguring);
  }

  /** Any other report touches no more than the health record of an unregistered name. */
  lemma ReportIgnored(v: View, id: Name)
    requires !(id in v.nodes && (v.phase == Running || v.phase == Reconfiguring))
    ensures id in v.nodes ==> ReportFailure(v, id) == v
    ensures ReportFailure(v, id) == v.(health := ReportFailure(v, id).health)
  {
  }

  lemma RemovalRemoves(v: View, id: Name)
    requires id in v.nodes && (v.phase == Running || v.phase == Reconfiguring)
    ensures var w := Remove(v, id);
      && w.nodes == v.nodes - {id} && w.health == v.health - {id} && w.sessions == v.sessions
      && w.phase == Reconfiguring && w.entered == v.entered[Reconfiguring := Times(v.entered, Reconfiguring) + 1]
      && w.activeCtr == v.activeCtr - (if v.nodes[id].status == Active then 1 else 0)
      && w.standbyCtr == v.standbyCtr - (if v.nodes[id].status == Standby then 1 else 0)
      && w.failedCtr == v.failedCtr
  {
  }

  lemma RemovalIgnored(v: View, id: Name)
    requires !(id in v.nodes && (v.phase == Running || v.phase == Reconfiguring))
    ensures Remove(v, id) == v
  {
  }

  // ----- the timers -----

  /** A health tick fails exactly the registered nodes that have not been heard of for longer
      than the time-out and whose health record does not say failed. */
  lemma TickFailsExactly(cfg: Config, v: View, now: int, id: Name)
    requires id in v.nodes
    ensures id in Tick(cfg, v, now).nodes && Tick(cfg, v, now).nodes[id].url == v.nodes[id].url
    ensures Tick(cfg, v, now).nodes[id].rank == v.nodes[id].rank
    ensures Tick(cfg, v, now).nodes[id].status ==
      if id in v.health && now - v.health[id].last > cfg.timeout && v.health[id].status != NodeFailed
      then NodeFailed else v.nodes[id].status
    ensures Tick(cfg, v, now) ==
      v.(nodes := Tick(cfg, v, now).nodes, failedCtr := Tick(cfg, v, now).failedCtr)
    ensures Tick(cfg, v, now).nodes.Keys == v.nodes.Keys
  {
  }

  /** A sweep keeps exactly the records heard of within two time-outs, with their entries, and
      disconnects exactly the sessions of the others. */
  lemma SweepDropsExactly(cfg: Config, v: View, now: int, id: Name)
    ensures var w := Sweep(cfg, v, now);
      && (id in w.health <==> id in v.health && now - v.health[id].last <= cfg.timeout * 2)
      && (id in w.health ==> w.health[id] == v.health[id])
      && (id in w.nodes <==> id in v.nodes && !(id in v.health && now - v.health[id].last > cfg.timeout * 2))
      && (id in w.nodes ==> w.nodes[id] == v.nodes[id])
      && w.phase == v.phase && w.entered == v.entered && w.failedCtr == v.failedCtr
  {
  }

  lemma SweepDisconnectsExactly(cfg: Config, v: View, now: int, id: Name)
    requires id in v.sessions
    ensures id in Sweep(cfg, v, now).sessions
    ensures Sweep(cfg, v, now).sessions[id] ==
      if id in v.health && now - v.health[id].last > cfg.timeout * 2
      then v.sessions[id].(connected := false, lastSeen := now) else v.sessions[id]
    ensures Sweep(cfg, v, now).sessions.Keys == v.sessions.Keys
  {
  }

  /** Cleaning drops exactly the sessions that are disconnected and last seen before the limit. */
  lemma CleaningDropsExactly(sessions: map<Name, Session>, now: int, limit: int, id: Name)
    ensures id in CleanSessions(sessions, now, limit) <==>
      id in sessions && !(!sessions[id].connected && now - sessions[id].lastSeen > limit)
    ensures id in CleanSessions(sessions, now, limit) ==> CleanSessions(sessions, now, limit)[id] == sessions[id]
  {
  }

  /** The step the health monitor takes after its tick: two time-outs are the limit. */
  lemma CleaningStepDropsExactly(cfg: Config, s: System, now: int, id: Name)
    requires Enabled(cfg, s, DoCleanSessions(now))
    ensures id in NextView(cfg, s, DoCleanSessions(now)).sessions <==>
      id in s.v.sessions && !(!s.v.sessions[id].connected && now - s.v.sessions[id].lastSeen > cfg.timeout * 2)
    ensures NextView(cfg, s, DoCleanSessions(now)) ==
      s.v.(sessions := NextView(cfg, s, DoCleanSessions(now)).sessions)
  {
  }

  // ----- attempts -----

  /** Enough active and standby nodes for the round. */
  predicate PoolSuffices(cfg: Config, v: View) {
    |v.Actives()| + |v.Standbys()| >= cfg.expected - cfg.standby
  }

  /** The phase after one round. */
  lemma RoundPhases(cfg: Config, v: View, r: Round)
    requires ValidRound(cfg, v.nodes, r)
    ensures Attempt(cfg, v, r).phase ==
      if !PoolSuffices(cfg, v) then Failed
      else if r.rejecting == {} && v.phase == Reconfiguring then Running
      else v.phase
    ensures Retries(cfg, v, r) <==> PoolSuffices(cfg, v) && r.rejecting != {}
  {
    AttemptPhase(cfg, v, r);
    PoolDecides(cfg, v.nodes, r.promoted);
  }

  lemma EnteringPhases(v: View, made: nat)
    requires v.phase != Failed
    ensures Refused(v, made) <==> made == 0 && v.phase != Running && v.phase != Reconfiguring
    ensures !Refused(v, made) ==>
      && Entering(v, made) == v.(phase := Entering(v, made).phase, entered := Entering(v, made).entered)
      && Entering(v, made).phase == (if made == 0 then Reconfiguring else v.phase)
      && Entering(v, made).entered ==
           if made == 0 && v.phase == Running
           then v.entered[Reconfiguring := Times(v.entered, Reconfiguring) + 1] else v.entered
  {
  }

  /** A first attempt runs in Running and Reconfiguring, and enters Reconfiguring from Running;
      a later one goes on in whatever phase it finds. */
  lemma AttemptPhases(cfg: Config, v: View, made: nat, r: Round)
    requires v.phase != Failed && (!Refused(v, made) ==> ValidRound(cfg, v.nodes, r))
    ensures AttemptStep(cfg, v, made, r).phase ==
      if made == 0 && v.phase != Running && v.phase != Reconfiguring then Failed
      else if !PoolSuffices(cfg, v) then Failed
      else if r.rejecting != {} then
        if made + 1 >= 3 then Failed else if made == 0 then Reconfiguring else v.phase
      else if made == 0 || v.phase == Reconfiguring then Running
      else v.phase
  {
    EnteringPhases(v, made);
    if !Refused(v, made) {
      RoundPhases(cfg, Entering(v, made), r);
    }
  }

  lemma ConcludeCounts(w: View, rejecting: set<Name>)
    ensures Times(Conclude(w, rejecting).entered, Reconfiguring) == Times(w.entered, Reconfiguring)
    ensures Times(Conclude(w, rejecting).entered, Running) ==
      Times(w.entered, Running) + if rejecting == {} && w.phase == Reconfiguring then 1 else 0
  {
  }

  lemma AttemptCounts(cfg: Config, v: View, r: Round)
    requires ValidRound(cfg, v.nodes, r)
    ensures Times(Attempt(cfg, v, r).entered, Reconfiguring) == Times(v.entered, Reconfiguring)
    ensures Times(Attempt(cfg, v, r).entered, Running) == Times(v.entered, Running)
      + if Sufficient(cfg, Promoted(v.nodes, r.promoted)) && r.rejecting == {} && v.phase == Reconfiguring then 1 else 0
  {
    if Sufficient(cfg, Promoted(v.nodes, r.promoted)) {
      assert Sent(cfg, v, r).entered == v.entered && Sent(cfg, v, r).phase == v.phase;
      ConcludeCounts(Sent(cfg, v, r), r.rejecting);
    }
  }

  lemma FailingCounts(v: View)
    ensures Times(MoveTo(v, Failed).entered, Reconfiguring) == Times(v.entered, Reconfiguring)
    ensures Times(MoveTo(v, Failed).entered, Running) == Times(v.entered, Running)
  {
  }

  lemma AttemptStepCounts(cfg: Config, v: View, made: nat, r: Round)
    requires !Refused(v, made) && ValidRound(cfg, v.nodes, r)
    ensures Times(AttemptStep(cfg, v, made, r).entered, Reconfiguring) == Times(Entering(v, made).entered, Reconfiguring)
    ensures Times(AttemptStep(cfg, v, made, r).entered, Running) == Times(Entering(v, made).entered, Running)
      + if PoolSuffices(cfg, v) && r.rejecting == {} && Entering(v, made).phase == Reconfiguring then 1 else 0
  {
    var u := Entering(v, made);
    AttemptCounts(cfg, u, r);
    PoolDecides(cfg, v.nodes, r.promoted);
    FailingCounts(Attempt(cfg, u, r));
  }

  /** An attempt counts a transition to Reconfiguring exactly when it is a first one met in
      Running, and one to Running exactly when it ends there having been in Reconfiguring. */
  lemma AttemptTransitions(cfg: Config, v: View, made: nat, r: Round)
    requires v.phase != Failed && (!Refused(v, made) ==> ValidRound(cfg, v.nodes, r))
    ensures Times(AttemptStep(cfg, v, made, r).entered, Reconfiguring) ==
      Times(v.entered, Reconfiguring) + if made == 0 && v.phase == Running then 1 else 0
    ensures Times(AttemptStep(cfg, v, made, r).entered, Running) == Times(v.entered, Running)
      + if AttemptStep(cfg, v, made, r).phase == Running && (made == 0 || v.phase == Reconfiguring) then 1 else 0
  {
    EnteringPhases(v, made);
    if !Refused(v, made) {
      AttemptPhases(cfg, v, made, r);
      AttemptStepCounts(cfg, v, made, r);
    }
  }

  lemma RunningRoundCounts(cfg: Config, v: View, r: Round)
    requires ValidRound(cfg, v.nodes, r) && v.phase == Running && PoolSuffices(cfg, v)
    ensures Attempt(cfg, v, r).entered == v.entered && Attempt(cfg, v, r).phase == Running
  {
    RoundPhases(cfg, v, r);
    PoolDecides(cfg, v.nodes, r.promoted);
    assert Sent(cfg, v, r).entered == v.entered;
  }

  /** A retried attempt never takes the server to Reconfiguring. Met in Running it leaves phase and
      counts alone, unless it fails the server. */
  lemma RetryKeepsPhase(cfg: Config, v: View, made: nat, r: Round)
    requires v.phase != Failed && made > 0 && ValidRound(cfg, v.nodes, r)
    ensures Times(AttemptStep(cfg, v, made, r).entered, Reconfiguring) == Times(v.entered, Reconfiguring)
    ensures AttemptStep(cfg, v, made, r).phase == Reconfiguring ==> v.phase == Reconfiguring
    ensures v.phase == Running && AttemptStep(cfg, v, made, r).phase != Failed ==>
      AttemptStep(cfg, v, made, r).phase == Running && AttemptStep(cfg, v, made, r).entered == v.entered
  {
    AttemptPhases(cfg, v, made, r);
    AttemptTransitions(cfg, v, made, r);
    if v.phase == Running && PoolSuffices(cfg, v) {
      assert Entering(v, made) == v;
      RunningRoundCounts(cfg, v, r);
    }
  }

  // ----- the phases and what is in flight, over every step -----

  /** A step takes a server that is not Reconfiguring there exactly when that server is Running
      and an entry is reported or removed, or a first attempt is refused. */
  lemma ReconfiguresExactlyWhen(cfg: Config, s: System, step: Step)
    requires Invariant(cfg, s) && Enabled(cfg, s, step) && s.v.phase != Reconfiguring
    ensures NextView(cfg, s, step).phase == Reconfiguring <==>
      && s.v.phase == Running
      && match step
         case DoReport(_, id) => id in s.v.nodes
         case DoRemove(_, id) => id in s.v.nodes
         case DoAttempt(_, made, r) => made == 0 && PoolSuffices(cfg, s.v) && r.rejecting != {}
         case _ => false
  {
    match step
    case DoRegister(now, id, url, l) => RegisterPhases(cfg, s.v, id, url, now, l);
    case DoStart(_, l) => StartFrame(cfg, s.v, l);
    case DoReport(_, id) => ReportFrame(s.v, id); TakenExactlyWhen(s.v, id);
    case DoRemove(_, id) => TakenExactlyWhen(s.v, id);
    case DoAttempt(_, made, r) => AttemptPhases(cfg, s.v, made, r);
    case _ =>
  }

  lemma RegisterPhases(cfg: Config, v: View, id: Name, url: Name, now: int, l: Launch)
    requires ValidRegistration(cfg, v, id, url, now, l)
    ensures Register(cfg, v, id, url, now, l).phase == v.phase
      || (v.phase == Initializing && Register(cfg, v, id, url, now, l).phase == Running)
  {
    if Admits(cfg, v, id) && Triggers(cfg, Admitted(cfg, v, id, url, now)) {
      StartFrame(cfg, Admitted(cfg, v, id, url, now), l);
    }
  }

  /** A reconfiguration is put in flight exactly by the loss of an active node; an attempt stays
      in flight exactly when the pool suffices, some node refuses, and it was not the third. */
  lemma InFlightExactly(cfg: Config, s: System, step: Step)
    requires Invariant(cfg, s) && Enabled(cfg, s, step)
    ensures NextPending(cfg, s, step) ==
      match step
      case DoReport(_, id) =>
        s.pending + if id in s.v.Actives() && (s.v.phase == Running || s.v.phase == Reconfiguring) then multiset{0} else multiset{}
      case DoRemove(_, id) =>
        s.pending + if id in s.v.Actives() && (s.v.phase == Running || s.v.phase == Reconfiguring) then multiset{0} else multiset{}
      case DoAttempt(_, made, r) =>
        s.pending - multiset{made}
        + if (made > 0 || s.v.phase == Running || s.v.phase == Reconfiguring)
             && PoolSuffices(cfg, s.v) && r.rejecting != {} && made < 2
          then multiset{made + 1} else multiset{}
      case _ => s.pending
  {
    match step
    case DoReport(_, id) => TakenExactlyWhen(s.v, id);
    case DoRemove(_, id) => TakenExactlyWhen(s.v, id);
    case DoAttempt(_, made, r) =>
      if !Refused(s.v, made) {
        PoolDecides(cfg, s.v.nodes, r.promoted);
      }
    case _ =>
  }
}
