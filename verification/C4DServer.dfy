/** The server object, its cluster manager and its health monitor, as the code updates
    them. Every method is proved to do what ClusterSpec says; what a remote node answers
    is arbitrary, and so is the order of every map iteration and sort. */
module C4DServers {
  import opened Collections
  import opened ClusterTypes
  import opened ClusterSpec
  import opened ClusterFacts
  import opened ClusterRuns
  import opened Reconfiguration
  import opened ServerParts

  class C4DServer {
    const config: Config
    const state: ServerState
    const registry: NodeRegistry
    const metrics: ServerMetrics
    const sessionManager: SessionManager
    var clusterManager: ClusterManager?
    /** The reconfiguration goroutines in flight, by the number of attempts each has made. */
    var inFlight: multiset<nat>

    ghost predicate Valid()
      reads this
    {
      clusterManager != null && clusterManager.server == this
    }

    function Snapshot(): View
      reads state, registry, metrics, sessionManager
    {
      View(registry.nodes, registry.health, sessionManager.sessions,
           metrics.activeNodes, metrics.standbyNodes, metrics.failedNodes,
           state.current, state.transitionCount)
    }

    constructor (cfg: Config)
      ensures Valid() && config == cfg && inFlight == multiset{}
      ensures Snapshot() == View(map[], map[], map[], 0, 0, 0, Initializing, map[])
      ensures fresh(state) && fresh(registry) && fresh(metrics) && fresh(sessionManager)
    {
      config := cfg;
      state := new ServerState();
      registry := new NodeRegistry();
      metrics := new ServerMetrics();
      sessionManager := new SessionManager();
      inFlight := multiset{};
      new;
      clusterManager := new ClusterManager(this);
    }

    /** Register: the reply says whether the node was accepted. */
    method Register(id: Name, url: Name, now: int) returns (accepted: bool, launch: Launch)
      requires Valid()
      modifies state, registry, metrics, sessionManager
      ensures ValidRegistration(config, old(Snapshot()), id, url, now, launch)
      ensures Snapshot() == ClusterSpec.Register(config, old(Snapshot()), id, url, now, launch)
      ensures accepted <==>
        || Reconnects(old(Snapshot()), id)
        || (Admits(config, old(Snapshot()), id)
            && var w := Admitted(config, old(Snapshot()), id, url, now);
               Triggers(config, w) && Launches(config, w) ==> launch.rejecting == {})
    {
      launch := Launch([], {});
      if state.current != Initializing && state.current != Running {
        return false, launch;
      }
      if id in sessionManager.sessions && id in registry.nodes {
        var node := registry.nodes[id];
        var s := sessionManager.sessions[id];
        sessionManager.sessions := sessionManager.sessions[
          id := Session(url, node.status, node.rank, now, s.reconnects + 1, true)];
        registry.health := registry.health[id := NodeHealth(now, node.status, 0)];
        return true, launch;
      }
      var role, rank;
      if metrics.activeNodes < config.ActiveNodes() {
        role, rank := Active, metrics.activeNodes;
        metrics.activeNodes := metrics.activeNodes + 1;
      } else if metrics.standbyNodes < config.standby {
        role, rank := Standby, -1;
        metrics.standbyNodes := metrics.standbyNodes + 1;
      } else {
        return false, launch;
      }
      var _ := sessionManager.RegisterSession(id, url, role, rank, now);
      registry.RegisterNode(id, url, role, rank, now);
      assert Snapshot() == Admitted(config, old(Snapshot()), id, url, now);
      accepted := true;
      if metrics.activeNodes + metrics.standbyNodes == config.expected && state.current == Initializing {
        accepted, launch := clusterManager.CheckAndStartProgram();
      }
    }

    method SendHeartbeat(id: Name, now: int) returns (acknowledged: bool)
      modifies registry
      ensures acknowledged <==> id in old(registry.health)
      ensures acknowledged ==>
        registry.health == old(registry.health)[id := old(registry.health)[id].(last := now)]
      ensures Snapshot() == Heartbeat(old(Snapshot()), id, now)
    {
      if id in registry.health {
        registry.health := registry.health[id := registry.health[id].(last := now)];
        return true;
      }
      return false;
    }

    /** NotifyFailure, when nothing runs between its check and its act. */
    method NotifyFailure(id: Name) returns (lockLeaked: bool)
      modifies this`inFlight, state, registry, metrics
      ensures lockLeaked <==> IsLive(old(Snapshot()), id) && !FailureTaken(old(Snapshot()), id)
      ensures Snapshot() == if IsLive(old(Snapshot()), id) then ReportFailure(old(Snapshot()), id) else old(Snapshot())
      ensures inFlight == old(inFlight) + if LosesActive(old(Snapshot()), id) then multiset{0} else multiset{}
    {
      var act := WorthReporting(id);
      if !act {
        return false;
      }
      lockLeaked := ActOnFailure(id);
    }

    /** The check of NotifyFailure reads only; everything else may run before the act. Acting at
        once counts one more failure exactly when the check passes and the transition is taken;
        when the check fails, acting would move no counter. */
    method WorthReporting(id: Name) returns (act: bool)
      ensures act <==> IsLive(Snapshot(), id)
      ensures act && FailureTaken(Snapshot(), id) <==> CountsFailure(Snapshot(), ReportFailure(Snapshot(), id))
      ensures !act ==> SameCounters(Snapshot(), ReportFailure(Snapshot(), id))
    {
      act := id in registry.nodes && registry.nodes[id].status != NodeFailed;
    }

    /** The act of NotifyFailure. lockLeaked is the early return of handleNodeFailure, after
        which the registry lock is never released and the call never gets further. */
    method ActOnFailure(id: Name) returns (lockLeaked: bool)
      modifies this`inFlight, state, registry, metrics
      ensures lockLeaked <==> id in old(registry.nodes) && !FailureTaken(old(Snapshot()), id)
      ensures Snapshot() == ReportFailure(old(Snapshot()), id)
      ensures inFlight == old(inFlight) + if LosesActive(old(Snapshot()), id) then multiset{0} else multiset{}
    {
      lockLeaked := HandleNodeFailure(id);
      if lockLeaked {
        return;
      }
      if id in registry.health {
        registry.health := registry.health[id := registry.health[id].(status := NodeFailed)];
      }
    }

    method HandleNodeFailure(id: Name) returns (lockLeaked: bool)
      modifies this`inFlight, state, registry, metrics
      ensures lockLeaked <==> id in old(registry.nodes) && !FailureTaken(old(Snapshot()), id)
      ensures Snapshot() == FailNode(old(Snapshot()), id)
      ensures inFlight == old(inFlight) + if LosesActive(old(Snapshot()), id) then multiset{0} else multiset{}
    {
      if id !in registry.nodes {
        return false;
      }
      var ok := state.Transition(Reconfiguring);
      if !ok {
        return true;
      }
      var oldStatus := registry.nodes[id].status;
      registry.nodes := registry.nodes[id := registry.nodes[id].(status := NodeFailed)];
      if oldStatus == Active {
        metrics.activeNodes := metrics.activeNodes - 1;
        metrics.failedNodes := metrics.failedNodes + 1;
      } else if oldStatus == Standby {
        metrics.standbyNodes := metrics.standbyNodes - 1;
        metrics.failedNodes := metrics.failedNodes + 1;
      }
      if oldStatus == Active {
        inFlight := inFlight + multiset{0};
      }
      return false;
    }

    /** One attempt of a reconfiguration goroutine, other handlers running before and after. */
    method AdvanceReconfiguration(made: nat) returns (round: Round)
      requires Valid() && made in inFlight
      modifies this`inFlight, state, registry, metrics
      ensures !Refused(old(Snapshot()), made) ==> ValidRound(config, old(registry.nodes), round)
      ensures Snapshot() == AttemptStep(config, old(Snapshot()), made, round)
      ensures inFlight == old(inFlight) - multiset{made}
        + if GoesOn(config, old(Snapshot()), made, round) && made + 1 < MAX_ATTEMPTS then multiset{made + 1} else multiset{}
    {
      inFlight := inFlight - multiset{made};
      var refused := BeginAttempt(made);
      if refused {
        return Round([], [], {});
      }
      ghost var u := Snapshot();
      var again;
      again, round := clusterManager.AttemptRound();
      assert Snapshot() == Attempt(config, u, round);
      assert again == Retries(config, u, round);
      Reschedule(made, again);
    }

    /** After a rejected attempt the goroutine tries again, or fails the server. */
    method Reschedule(made: nat, again: bool)
      modifies this`inFlight, state
      ensures inFlight == old(inFlight) + if again && made + 1 < MAX_ATTEMPTS then multiset{made + 1} else multiset{}
      ensures Snapshot() == if again && made + 1 >= MAX_ATTEMPTS then MoveTo(old(Snapshot()), Failed) else old(Snapshot())
    {
      if again {
        if made + 1 < MAX_ATTEMPTS {
          inFlight := inFlight + multiset{made + 1};
        } else {
          var _ := state.Transition(Failed);
        }
      }
    }

    /** The guard of a first attempt; a refusal makes the goroutine fail the server. */
    method BeginAttempt(made: nat) returns (refused: bool)
      modifies state
      ensures refused <==> Refused(old(Snapshot()), made)
      ensures Snapshot() == if refused then MoveTo(old(Snapshot()), Failed) else Entering(old(Snapshot()), made)
    {
      if made == 0 && state.current != Reconfiguring {
        var entered := state.Transition(Reconfiguring);
        if !entered {
          var _ := state.Transition(Failed);
          return true;
        }
      }
      return false;
    }

    /** One tick of cleanupDeadConnections. */
    method CleanupDeadConnections(now: int)
      modifies registry, metrics, sessionManager
      ensures Snapshot() == Sweep(config, old(Snapshot()), now)
    {
      var toRemove := CollectDead(now);
      DropEntries(toRemove);
    }

    method DropEntries(toRemove: seq<Name>)
      requires NoDup(toRemove)
      modifies registry, metrics`activeNodes, metrics`standbyNodes
      ensures registry.nodes == old(registry.nodes) - Elems(toRemove)
      ensures registry.health == old(registry.health) - Elems(toRemove)
      ensures metrics.activeNodes == old(metrics.activeNodes - |Snapshot().Actives() * Elems(toRemove)|)
      ensures metrics.standbyNodes == old(metrics.standbyNodes - |Snapshot().Standbys() * Elems(toRemove)|)
    {
      ghost var v := Snapshot();
      ghost var gone: set<Name> := {};
      for i := 0 to |toRemove|
        invariant gone == Elems(toRemove[..i]) && Without(v, gone)
      {
        PrefixGrows(toRemove, i);
        DropStep(v.nodes, gone, toRemove[i]);
        MinusOne(v.health, gone, toRemove[i]);
        DropEntry(toRemove[i]);
        gone := gone + {toRemove[i]};
      }
      assert toRemove[..|toRemove|] == toRemove;
    }

    /** The registry is v's without the entries in gone, and the counters follow it. */
    ghost predicate Without(v: View, gone: set<Name>)
      reads registry, metrics
    {
      && registry.nodes == v.nodes - gone && registry.health == v.health - gone
      && metrics.activeNodes == v.activeCtr - |v.Actives() * gone|
      && metrics.standbyNodes == v.standbyCtr - |v.Standbys() * gone|
    }

    method DropEntry(id: Name)
      modifies registry, metrics`activeNodes, metrics`standbyNodes
      ensures registry.nodes == old(registry.nodes) - {id}
      ensures registry.health == old(registry.health) - {id}
      ensures metrics.activeNodes == old(metrics.activeNodes)
        - if id in WithStatus(old(registry.nodes), Active) then 1 else 0
      ensures metrics.standbyNodes == old(metrics.standbyNodes)
        - if id in WithStatus(old(registry.nodes), Standby) then 1 else 0
    {
      if id in registry.nodes {
        if registry.nodes[id].status == Active {
          metrics.activeNodes := metrics.activeNodes - 1;
        } else if registry.nodes[id].status == Standby {
          metrics.standbyNodes := metrics.standbyNodes - 1;
        }
      }
      registry.nodes := registry.nodes - {id};
      registry.health := registry.health - {id};
    }

    /** The first loop of the sweep, over the health records in any order. */
    method CollectDead(now: int) returns (toRemove: seq<Name>)
      modifies sessionManager
      ensures NoDup(toRemove) && Elems(toRemove) == DeadConnections(config, Snapshot(), now)
      ensures sessionManager.sessions == Disconnected(old(sessionManager.sessions), Elems(toRemove), now)
    {
      toRemove := [];
      ghost var dead := DeadConnections(config, Snapshot(), now);
      ghost var sessions := sessionManager.sessions;
      var rest := registry.health.Keys;
      while rest != {}
        invariant rest <= registry.health.Keys
        invariant NoDup(toRemove) && Elems(toRemove) == dead - rest
        invariant sessionManager.sessions == Disconnected(sessions, dead - rest, now)
        decreases |rest|
      {
        var id :| id in rest;
        PeelOff(dead, rest, id);
        if now - registry.health[id].last > config.timeout * 2 {
          sessionManager.DisconnectSession(id, now);
          DisconnectedGrows(sessions, dead - rest, id, now);
          AppendElem(toRemove, id);
          toRemove := toRemove + [id];
        }
        rest := rest - {id};
      }
      assert dead - rest == dead;
    }
  }

  lemma MinusOne<T, U>(m: map<T, U>, gone: set<T>, x: T)
    ensures (m - gone) - {x} == m - (gone + {x})
  {
  }

  /** One more element of an iteration over rest is done. */
  lemma PeelOff<T>(all: set<T>, rest: set<T>, x: T)
    requires x in rest
    ensures all - (rest - {x}) == if x in all then (all - rest) + {x} else all - rest
  {
  }

  lemma DropStep(nodes: Nodes, gone: set<Name>, id: Name)
    requires id !in gone
    ensures (nodes - gone) - {id} == nodes - (gone + {id})
    ensures var live := WithStatus(nodes, Active);
      |live * (gone + {id})| == |live * gone| + if id in WithStatus(nodes - gone, Active) then 1 else 0
    ensures var live := WithStatus(nodes, Standby);
      |live * (gone + {id})| == |live * gone| + if id in WithStatus(nodes - gone, Standby) then 1 else 0
  {
    MinusOne(nodes, gone, id);
    HitGrows(WithStatus(nodes, Active), gone, id);
    HitGrows(WithStatus(nodes, Standby), gone, id);
    WithoutStatus(nodes, gone, Active);
    WithoutStatus(nodes, gone, Standby);
  }

  lemma DisconnectedGrows(sessions: map<Name, Session>, ids: set<Name>, id: Name, now: int)
    ensures Disconnected(Disconnected(sessions, ids, now), {id}, now) == Disconnected(sessions, ids + {id}, now)
  {
  }

  lemma FailAllGrows(nodes: Nodes, names: set<Name>, id: Name)
    ensures FailAll(FailAll(nodes, names), {id}) == FailAll(nodes, names + {id})
    ensures id !in nodes ==> FailAll(nodes, names + {id}) == FailAll(nodes, names)
  {
  }

  lemma AppendElem<T>(s: seq<T>, x: T)
    ensures Elems(s + [x]) == Elems(s) + {x}
    ensures NoDup(s) && x !in Elems(s) ==> NoDup(s + [x])
  {
    assert forall y :: y in s ==> y in Elems(s);
  }

  lemma PrefixGrows<T>(s: seq<T>, i: nat)
    requires i < |s|
    ensures Elems(s[..i + 1]) == Elems(s[..i]) + {s[i]}
    ensures NoDup(s) ==> s[i] !in Elems(s[..i])
  {
    assert s[..i + 1] == s[..i] + [s[i]];
  }

  lemma HitGrows<T>(live: set<T>, hit: set<T>, id: T)
    requires id !in hit
    ensures |live * (hit + {id})| == |live * hit| + if id in live then 1 else 0
  {
    if id in live {
      assert live * (hit + {id}) == live * hit + {id};
    } else {
      assert live * (hit + {id}) == live * hit;
    }
  }

  class HealthMonitor {
    const server: C4DServer

    constructor (s: C4DServer)
      ensures server == s
    {
      server := s;
    }

    /** One tick: silent nodes are failed, then stale sessions are dropped. */
    method CheckNodesHealth(now: int, later: int)
      modifies server.registry, server.metrics, server.sessionManager
      ensures server.Snapshot() == var w := Tick(server.config, old(server.Snapshot()), now);
        w.(sessions := CleanSessions(w.sessions, later, server.config.timeout * 2))
    {
      FailSilentNodes(now);
      server.sessionManager.CleanupSessions(later, server.config.timeout * 2);
    }

    method FailSilentNodes(now: int)
      modifies server.registry, server.metrics
      ensures server.Snapshot() == Tick(server.config, old(server.Snapshot()), now)
    {
      ghost var v := server.Snapshot();
      ghost var late := TimedOut(server.config, v, now);
      var rest := server.registry.health.Keys;
      assert late - rest == {} && FailAll(v.nodes, {}) == v.nodes;
      while rest != {}
        invariant rest <= v.health.Keys
        invariant server.registry.health == v.health
        invariant server.registry.nodes == FailAll(v.nodes, late - rest)
        invariant server.metrics.activeNodes == v.activeCtr && server.metrics.standbyNodes == v.standbyCtr
        invariant server.metrics.failedNodes == v.failedCtr + |late - rest|
        decreases |rest|
      {
        var id :| id in rest;
        var h := server.registry.health[id];
        PeelOff(late, rest, id);
        FailAllGrows(v.nodes, late - rest, id);
        if h.status != NodeFailed && now - h.last > server.config.timeout {
          HandleNodeTimeout(id);
        }
        rest := rest - {id};
      }
      assert late - rest == late;
    }

    /** The status is overwritten before it is tested, so the two tests never succeed. */
    method HandleNodeTimeout(id: Name)
      modifies server.registry, server.metrics
      ensures server.registry.nodes == FailAll(old(server.registry.nodes), {id})
      ensures server.registry.health == old(server.registry.health)
      ensures server.metrics.activeNodes == old(server.metrics.activeNodes)
      ensures server.metrics.standbyNodes == old(server.metrics.standbyNodes)
      ensures server.metrics.failedNodes ==
        old(server.metrics.failedNodes) + if id in old(server.registry.nodes) then 1 else 0
    {
      if id in server.registry.nodes {
        server.registry.nodes := server.registry.nodes[id := server.registry.nodes[id].(status := NodeFailed)];
        server.metrics.failedNodes := server.metrics.failedNodes + 1;
        if server.registry.nodes[id].status == Active {
          assert false;
        } else if server.registry.nodes[id].status == Standby {
          assert false;
        }
      }
      assert server.registry.nodes.Keys == old(server.registry.nodes).Keys;
    }
  }

  class ClusterManager {
    const server: C4DServer

    constructor (s: C4DServer)
      ensures server == s
    {
      server := s;
    }

    /** reconfigureCluster, when nothing else runs between its attempts. */
    method ReconfigureCluster() returns (ok: bool, call: Call)
      modifies server.state, server.registry, server.metrics
      ensures MayEnter(old(server.Snapshot())) ==>
        ValidCall(server.config, Enter(old(server.Snapshot())), call, server.Snapshot())
      ensures MayEnter(old(server.Snapshot())) ==> (ok <==> server.state.current != Failed)
      ensures !MayEnter(old(server.Snapshot())) ==> !ok && server.Snapshot() == old(server.Snapshot())
    {
      call := Call([], []);
      if server.state.current != Reconfiguring {
        var entered := server.state.Transition(Reconfiguring);
        if !entered {
          return false, call;
        }
      }
      ghost var v := server.Snapshot();
      assert v == Enter(old(server.Snapshot()));
      call := Call([server.Snapshot()], []);
      var again := true;
      while again && |call.rounds| < MAX_ATTEMPTS
        invariant if again then OpenCall(server.config, v, call, server.Snapshot())
                  else ValidCall(server.config, v, call, server.Snapshot())
        decreases MAX_ATTEMPTS - |call.rounds|
      {
        ghost var before := server.Snapshot();
        var round;
        again, round := AttemptRound();
        ExtendCall(server.config, v, call, before, round, server.Snapshot());
        call := Extended(call, round, server.Snapshot());
      }
      if again {
        ExhaustCall(server.config, v, call, server.Snapshot());
        var _ := server.state.Transition(Failed);
      }
      ok := server.state.current != Failed;
    }

    /** One pass of the retry loop; again says that a node rejected. */
    method AttemptRound() returns (again: bool, round: Round)
      modifies server.state, server.registry, server.metrics
      ensures ValidRound(server.config, old(server.registry.nodes), round)
      ensures server.Snapshot() == Attempt(server.config, old(server.Snapshot()), round)
      ensures again <==> Retries(server.config, old(server.Snapshot()), round)
    {
      ghost var v := server.Snapshot();
      var promoted, actives := PromoteNeeded();
      assert server.Snapshot() == ToppedUp(v, promoted);
      ElemsCard(actives);
      if |actives| < server.config.ActiveNodes() {
        ShortRound(server.config, v, promoted);
        var _ := server.state.Transition(Failed);
        return false, Round(promoted, [], {});
      }
      var order, rejecting := Renotify(actives);
      FullRound(server.config, v, Round(promoted, order, rejecting));
      return rejecting != {}, Round(promoted, order, rejecting);
    }

    /** Sort, notify, and return to Running when every node accepted. */
    method Renotify(actives: seq<Name>) returns (order: seq<Name>, rejecting: set<Name>)
      requires NoDup(actives) && Elems(actives) == WithStatus(server.registry.nodes, Active)
      modifies server.state, server.registry`nodes, server.metrics
      ensures NoDup(order) && Elems(order) == Elems(actives) && RankSorted(old(server.registry.nodes), order)
      ensures rejecting <= Elems(order)
      ensures server.Snapshot() ==
        Conclude(old(server.Snapshot()).(nodes := Ranked(old(server.registry.nodes), order)), rejecting)
    {
      assert forall x :: x in actives ==> x in Elems(actives);
      order := SortByRank(actives);
      rejecting := NotifyNodesInParallel(order);
      if rejecting == {} && server.state.current == Reconfiguring {
        var _ := server.state.Transition(Running);
      }
    }

    /** Tops the active nodes up from the standbys and adjusts the counters. */
    method PromoteNeeded() returns (promoted: seq<Name>, actives: seq<Name>)
      modifies server.registry`nodes, server.metrics`activeNodes, server.metrics`standbyNodes
      ensures ValidPromotion(server.config, old(server.registry.nodes), promoted)
      ensures server.registry.nodes == Promoted(old(server.registry.nodes), promoted)
      ensures server.metrics.activeNodes == old(server.metrics.activeNodes) + |promoted|
      ensures server.metrics.standbyNodes == old(server.metrics.standbyNodes) - |promoted|
      ensures NoDup(actives) && Elems(actives) == WithStatus(server.registry.nodes, Active)
    {
      ghost var nodes := server.registry.nodes;
      actives := Collect(Active);
      var standbys := Collect(Standby);
      ElemsCard(actives);
      ElemsCard(standbys);
      promoted := [];
      var needed := server.config.ActiveNodes() - |actives|;
      if needed > 0 && |standbys| > 0 {
        var count := if needed < |standbys| then needed else |standbys|;
        ChosenAreStandbys(nodes, standbys, count);
        promoted := standbys[..count];
        ghost var before := actives;
        actives := PromoteStandbys(standbys, actives, count);
        server.metrics.activeNodes := server.metrics.activeNodes + count;
        server.metrics.standbyNodes := server.metrics.standbyNodes - count;
        Joined(before, promoted);
      }
      PromotedStatus(server.config, nodes, promoted);
    }

    /** Renumbers, posts the restart commands, and marks what the refusing URLs name. */
    method NotifyNodesInParallel(order: seq<Name>) returns (rejecting: set<Name>)
      requires forall x :: x in order ==> x in server.registry.nodes
      modifies server.registry`nodes, server.metrics
      ensures rejecting <= Elems(order)
      ensures server.Snapshot() ==
        var w := old(server.Snapshot()).(nodes := Ranked(old(server.registry.nodes), order));
        if rejecting == {} then w else MarkRejecting(w, rejecting)
    {
      AssignRanks(order);
      ghost var w := server.Snapshot();
      rejecting := SendCommands(order);
      if rejecting != {} {
        assert forall x :: x in rejecting ==> x in server.registry.nodes;
        var failedNodes := set id | id in rejecting :: server.registry.nodes[id].url;
        assert failedNodes == UrlsOf(w.nodes, rejecting);
        MarkFailures(failedNodes);
      }
    }

    /** removeNode, with its reconfiguration inline when the node was active. */
    method RemoveNode(id: Name) returns (ok: bool, call: Call)
      modifies server.state, server.registry, server.metrics
      ensures LosesActive(old(server.Snapshot()), id) ==>
        ValidCall(server.config, Remove(old(server.Snapshot()), id), call, server.Snapshot())
        && (ok <==> server.state.current != Failed)
      ensures !LosesActive(old(server.Snapshot()), id) ==>
        server.Snapshot() == Remove(old(server.Snapshot()), id)
        && (ok <==> FailureTaken(old(server.Snapshot()), id))
    {
      call := Call([], []);
      if id !in server.registry.nodes {
        return false, call;
      }
      var node := server.registry.nodes[id];
      var moved := server.state.Transition(Reconfiguring);
      if !moved {
        return false, call;
      }
      server.DropEntry(id);
      assert server.Snapshot() == Remove(old(server.Snapshot()), id);
      if node.status == Active {
        ok, call := ReconfigureCluster();
        return;
      }
      return true, call;
    }

    /** promoteStandbyNode: any standby gets the least rank no active node uses. Meeting a
        standby whose ID is the empty string first counts as having none. */
    method PromoteStandbyNode() returns (chosen: Option<Name>, newRank: nat)
      modifies server.registry`nodes
      ensures WithStatus(old(server.registry.nodes), Standby) == {} ==> chosen.None?
      ensures chosen.None? ==>
        WithStatus(old(server.registry.nodes), Standby) == {} || "" in WithStatus(old(server.registry.nodes), Standby)
      ensures chosen.Some? ==> chosen.value != ""
      ensures chosen.None? ==> server.registry.nodes == old(server.registry.nodes)
      ensures chosen.Some? ==>
        && chosen.value in WithStatus(old(server.registry.nodes), Standby)
        && server.registry.nodes == old(server.registry.nodes)[
             chosen.value := old(server.registry.nodes)[chosen.value].(status := Active, rank := newRank)]
        && newRank !in RanksUsed(old(server.registry.nodes))
        && (forall q :: 0 <= q < newRank ==> q in RanksUsed(old(server.registry.nodes)))
        && newRank <= |WithStatus(old(server.registry.nodes), Active)|
    {
      newRank := 0;
      var standbys := Collect(Standby);
      assert forall x :: x in standbys ==> x in Elems(standbys);
      if standbys == [] || standbys[0] == "" {
        return None, newRank;
      }
      chosen := Some(standbys[0]);
      assert chosen.value in WithStatus(server.registry.nodes, Standby);
      var usedRanks := RanksUsed(server.registry.nodes);
      RanksUsedCard(server.registry.nodes);
      while newRank in usedRanks
        invariant server.registry.nodes == old(server.registry.nodes)
        invariant forall q :: 0 <= q < newRank ==> q in usedRanks
        invariant newRank <= |usedRanks|
        decreases |usedRanks| - newRank
      {
        newRank := newRank + 1;
        BelowAllUsed(usedRanks, newRank);
      }
      server.registry.nodes := server.registry.nodes[
        chosen.value := server.registry.nodes[chosen.value].(status := Active, rank := newRank)];
    }

    method CheckAndStartProgram() returns (ok: bool, launch: Launch)
      modifies server.state, server.registry
      ensures Launches(server.config, old(server.Snapshot())) ==> ValidLaunch(old(server.registry.nodes), launch)
      ensures server.Snapshot() == StartProgram(server.config, old(server.Snapshot()), launch)
      ensures ok <==>
        && AcceptsRegistrations(old(server.Snapshot()))
        && (Launches(server.config, old(server.Snapshot())) ==> launch.rejecting == {})
    {
      launch := Launch([], {});
      if server.state.current != Initializing && server.state.current != Running {
        return false, launch;
      }
      var actives := Collect(Active);
      ElemsCard(actives);
      if |actives| < server.config.ActiveNodes() || server.state.current == Running {
        return true, launch;
      }
      var nodes := server.registry.nodes;
      assert forall x :: x in actives ==> x in Elems(actives);
      var order := SortByUrl(actives);
      AssignRanks(order);
      var rejecting := SendCommands(order);
      launch := Launch(order, rejecting);
      assert ValidLaunch(nodes, launch);
      if rejecting != {} {
        return false, launch;
      }
      ok := server.state.Transition(Running);
    }

    /** The nodes of one status, in whatever order the map iteration yields them. */
    method Collect(st: NodeStatus) returns (ids: seq<Name>)
      ensures NoDup(ids) && Elems(ids) == WithStatus(server.registry.nodes, st)
    {
      ids := [];
      var rest := server.registry.nodes.Keys;
      while rest != {}
        invariant rest <= server.registry.nodes.Keys
        invariant NoDup(ids) && Elems(ids) !! rest
        invariant Elems(ids) == WithStatus(server.registry.nodes, st) - rest
        decreases |rest|
      {
        var id :| id in rest;
        rest := rest - {id};
        if server.registry.nodes[id].status == st {
          AppendElem(ids, id);
          ids := ids + [id];
        }
      }
    }

    method SortByUrl(ids: seq<Name>) returns (order: seq<Name>)
      requires forall x :: x in ids ==> x in server.registry.nodes
      ensures NoDup(order) && Elems(order) == Elems(ids) && UrlSorted(server.registry.nodes, order)
    {
      UrlOrderExists(server.registry.nodes, Elems(ids));
      order :| NoDup(order) && Elems(order) == Elems(ids) && UrlSorted(server.registry.nodes, order);
    }

    method SortByRank(ids: seq<Name>) returns (order: seq<Name>)
      requires forall x :: x in ids ==> x in server.registry.nodes
      ensures NoDup(order) && Elems(order) == Elems(ids) && RankSorted(server.registry.nodes, order)
    {
      RankOrderExists(server.registry.nodes, Elems(ids));
      order :| NoDup(order) && Elems(order) == Elems(ids) && RankSorted(server.registry.nodes, order);
    }

    method AssignRanks(order: seq<Name>)
      requires forall x :: x in order ==> x in server.registry.nodes
      modifies server.registry`nodes
      ensures server.registry.nodes == Ranked(old(server.registry.nodes), order)
    {
      ghost var nodes := server.registry.nodes;
      for i := 0 to |order|
        invariant server.registry.nodes == Ranked(nodes, order[..i])
      {
        assert order[..i + 1][..i] == order[..i];
        server.registry.nodes := server.registry.nodes[order[i] := server.registry.nodes[order[i]].(rank := i)];
      }
      assert order[..|order|] == order;
    }

    /** Posts one command to every node; which of them answer with an error is arbitrary. */
    method SendCommands(order: seq<Name>) returns (rejecting: set<Name>)
      ensures rejecting <= Elems(order)
    {
      rejecting := {};
      for i := 0 to |order|
        invariant rejecting <= Elems(order)
      {
        var refused: bool := *;
        if refused {
          rejecting := rejecting + {order[i]};
        }
      }
    }

    /** The promotion loop; activeNodes grows while i does, hence the stride. */
    method PromoteStandbys(standbys: seq<Name>, actives: seq<Name>, count: nat) returns (all: seq<Name>)
      requires count <= |standbys| && forall x :: x in standbys ==> x in server.registry.nodes
      modifies server.registry`nodes
      ensures server.registry.nodes == Promote(old(server.registry.nodes), standbys[..count], |actives|)
      ensures all == actives + standbys[..count]
    {
      ghost var nodes := server.registry.nodes;
      all := actives;
      for i := 0 to count
        invariant all == actives + standbys[..i]
        invariant server.registry.nodes == Promote(nodes, standbys[..i], |actives|)
      {
        var id := standbys[i];
        assert standbys[..i + 1][..i] == standbys[..i];
        server.registry.nodes := server.registry.nodes[
          id := server.registry.nodes[id].(status := Active, rank := |all| + i)];
        all := all + [id];
      }
    }

    /** Marks the registry entries that the refusing nodes' URLs happen to name. */
    method MarkFailures(urls: set<Name>)
      modifies server.registry`nodes, server.metrics
      ensures server.Snapshot() == MarkNamed(old(server.Snapshot()), urls)
    {
      ghost var v := server.Snapshot();
      var rest := urls;
      assert urls - rest == {} && FailAll(v.nodes, {}) == v.nodes;
      while rest != {}
        invariant rest <= urls
        invariant server.registry.nodes == FailAll(v.nodes, urls - rest)
        invariant server.metrics.standbyNodes == v.standbyCtr
        invariant server.metrics.activeNodes == v.activeCtr - |v.Actives() * (urls - rest)|
        invariant server.metrics.failedNodes == v.failedCtr + |v.Actives() * (urls - rest)|
        decreases |rest|
      {
        var url :| url in rest;
        PeelOff(urls, rest, url);
        HitGrows(v.Actives(), urls - rest, url);
        FailAllGrows(v.nodes, urls - rest, url);
        FailAllStatus(v.nodes, urls - rest);
        MarkOne(url);
        rest := rest - {url};
      }
      assert urls - rest == urls;
    }

    method MarkOne(url: Name)
      modifies server.registry`nodes, server.metrics
      ensures server.registry.nodes == FailAll(old(server.registry.nodes), {url})
      ensures server.metrics.standbyNodes == old(server.metrics.standbyNodes)
      ensures var hit := if url in WithStatus(old(server.registry.nodes), Active) then 1 else 0;
        && server.metrics.activeNodes == old(server.metrics.activeNodes) - hit
        && server.metrics.failedNodes == old(server.metrics.failedNodes) + hit
    {
      if url in server.registry.nodes {
        var oldStatus := server.registry.nodes[url].status;
        server.registry.nodes := server.registry.nodes[url := server.registry.nodes[url].(status := NodeFailed)];
        if oldStatus == Active {
          server.metrics.activeNodes := server.metrics.activeNodes - 1;
          server.metrics.failedNodes := server.metrics.failedNodes + 1;
        }
      }
      assert server.registry.nodes.Keys == old(server.registry.nodes).Keys;
    }
  }

  function RanksUsed(nodes: Nodes): set<int> {
    set id | id in WithStatus(nodes, Active) :: nodes[id].rank
  }

  lemma {:induction false} ImageCard(nodes: Nodes, ids: set<Name>)
    requires forall x :: x in ids ==> x in nodes
    ensures |set x | x in ids :: nodes[x].rank| <= |ids|
    decreases |ids|
  {
    if ids != {} {
      var x :| x in ids;
      ImageCard(nodes, ids - {x});
      assert (set y | y in ids :: nodes[y].rank) == (set y | y in ids - {x} :: nodes[y].rank) + {nodes[x].rank};
    }
  }

  lemma RanksUsedCard(nodes: Nodes)
    ensures |RanksUsed(nodes)| <= |WithStatus(nodes, Active)|
  {
    ImageCard(nodes, WithStatus(nodes, Active));
  }

  /** Pigeonhole: if every rank below n is used, at least n ranks are used. */
  lemma {:induction false} BelowAllUsed(used: set<int>, n: nat)
    requires forall q :: 0 <= q < n ==> q in used
    ensures n <= |used|
    decreases n
  {
    if n > 0 {
      BelowAllUsed(used - {n - 1}, n - 1);
    }
  }

  /** Promoting with an unused rank keeps the active ranks distinct. */
  lemma FreeRankKeepsDistinct(nodes: Nodes, id: Name, rank: nat)
    requires DistinctRanks(nodes, WithStatus(nodes, Active))
    requires id in WithStatus(nodes, Standby) && rank !in RanksUsed(nodes)
    ensures var w := nodes[id := nodes[id].(status := Active, rank := rank)];
      DistinctRanks(w, WithStatus(w, Active))
  {
    assert forall x :: x in WithStatus(nodes, Active) ==> nodes[x].rank in RanksUsed(nodes);
  }

  /** A round that finds too few nodes. */
  lemma ShortRound(cfg: Config, v: View, promoted: seq<Name>)
    requires ValidPromotion(cfg, v.nodes, promoted) && !Sufficient(cfg, Promoted(v.nodes, promoted))
    ensures ValidRound(cfg, v.nodes, Round(promoted, [], {}))
    ensures Attempt(cfg, v, Round(promoted, [], {})) == MoveTo(ToppedUp(v, promoted), Failed)
  {
  }

  /** A round that goes ahead. */
  lemma FullRound(cfg: Config, v: View, r: Round)
    requires ValidPromotion(cfg, v.nodes, r.promoted) && Sufficient(cfg, Promoted(v.nodes, r.promoted))
    requires ValidRound(cfg, v.nodes, r)
    ensures Attempt(cfg, v, r) ==
      var w := ToppedUp(v, r.promoted); Conclude(w.(nodes := Ranked(w.nodes, r.order)), r.rejecting)
  {
  }

  lemma ChosenAreStandbys(nodes: Nodes, standbys: seq<Name>, count: nat)
    requires NoDup(standbys) && Elems(standbys) == WithStatus(nodes, Standby) && count <= |standbys|
    ensures forall x :: x in standbys ==> x in nodes
    ensures NoDup(standbys[..count]) && forall x :: x in standbys[..count] ==> x in WithStatus(nodes, Standby)
  {
    assert forall x :: x in standbys ==> x in Elems(standbys);
  }

  lemma Joined<T>(a: seq<T>, b: seq<T>)
    ensures Elems(a + b) == Elems(a) + Elems(b)
    ensures NoDup(a) && NoDup(b) && Elems(a) !! Elems(b) ==> NoDup(a + b)
  {
    if NoDup(a) && NoDup(b) && Elems(a) !! Elems(b) {
      forall i, j | 0 <= i < j < |a + b|
        ensures (a + b)[i] != (a + b)[j]
      {
        if i < |a| <= j {
          assert a[i] in Elems(a) && b[j - |a|] in Elems(b);
        }
      }
    }
  }

  /** A call all of whose rounds so far had a rejecting node. */
  predicate OpenCall(cfg: Config, v: View, c: Call, now: View) {
    && |c.rounds| <= MAX_ATTEMPTS && |c.views| == |c.rounds| + 1
    && c.views[0] == v && c.views[|c.rounds|] == now
    && (forall i :: 0 <= i < |c.rounds| ==> IsRound(cfg, c.views[i], c.rounds[i], c.views[i + 1]))
    && forall i :: 0 <= i < |c.rounds| ==> IsRetried(cfg, c.views[i], c.rounds[i])
  }

  function Extended(c: Call, r: Round, next: View): Call {
    Call(c.views + [next], c.rounds + [r])
  }

  lemma ExtendRounds(cfg: Config, v: View, c: Call, now: View, r: Round, next: View)
    requires OpenCall(cfg, v, c, now) && IsRound(cfg, now, r, next)
    ensures var d := Extended(c, r, next);
      forall i :: 0 <= i < |d.rounds| ==> IsRound(cfg, d.views[i], d.rounds[i], d.views[i + 1])
  {
    var d := Extended(c, r, next);
    forall i | 0 <= i < |c.rounds|
      ensures IsRound(cfg, d.views[i], d.rounds[i], d.views[i + 1]) == IsRound(cfg, c.views[i], c.rounds[i], c.views[i + 1])
    {
    }
  }

  lemma ExtendRetries(cfg: Config, v: View, c: Call, now: View, r: Round, next: View)
    requires OpenCall(cfg, v, c, now)
    ensures var d := Extended(c, r, next);
      && (forall i :: 0 <= i < |c.rounds| ==> IsRetried(cfg, d.views[i], d.rounds[i]))
      && d.views[|c.rounds|] == now && d.rounds[|c.rounds|] == r
  {
    var d := Extended(c, r, next);
    forall i | 0 <= i < |c.rounds|
      ensures IsRetried(cfg, d.views[i], d.rounds[i]) == IsRetried(cfg, c.views[i], c.rounds[i])
    {
    }
  }

  /** One more round leaves the call open when it was retried, and completes it otherwise. */
  lemma ExtendCall(cfg: Config, v: View, c: Call, now: View, r: Round, next: View)
    requires OpenCall(cfg, v, c, now) && |c.rounds| < MAX_ATTEMPTS && IsRound(cfg, now, r, next)
    ensures IsRetried(cfg, now, r) ==> OpenCall(cfg, v, Extended(c, r, next), next)
    ensures !IsRetried(cfg, now, r) ==> ValidCall(cfg, v, Extended(c, r, next), next)
  {
    ExtendRounds(cfg, v, c, now, r, next);
    ExtendRetries(cfg, v, c, now, r, next);
  }

  lemma ExhaustCall(cfg: Config, v: View, c: Call, now: View)
    requires OpenCall(cfg, v, c, now) && |c.rounds| == MAX_ATTEMPTS
    ensures ValidCall(cfg, v, c, MoveTo(now, Failed))
  {
    assert IsRetried(cfg, c.views[c.Last()], c.rounds[c.Last()]);
  }
}
