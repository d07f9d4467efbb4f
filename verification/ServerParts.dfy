/** The server's component objects: state machine, registry, sessions and counters. */
module ServerParts {
  import opened ClusterTypes
  import opened ClusterSpec

  const TRANSITIONS: map<Phase, seq<Phase>> := map[
    Initializing := [Running],
    Running := [Reconfiguring, Failed],
    Reconfiguring := [Running, Reconfiguring, Failed],
    Failed := []]

  lemma TableIsAllowed(from: Phase, to: Phase)
    requires to != Failed
    ensures Allowed(from, to) <==> from in TRANSITIONS && to in TRANSITIONS[from]
  {
    assert to in TRANSITIONS[Running] <==> to == Reconfiguring;
    assert to in TRANSITIONS[Reconfiguring] <==> to == Running || to == Reconfiguring;
  }

  class ServerState {
    var current: Phase
    var transitionCount: map<Phase, nat>

    constructor ()
      ensures current == Initializing && transitionCount == map[]
    {
      current, transitionCount := Initializing, map[];
    }

    /** Entering Failed ends the process; re-entering it is silently accepted. */
    method Transition(to: Phase) returns (ok: bool)
      modifies this
      ensures ok <==>
        || to == Failed
        || (old(current) == Initializing && to == Running)
        || (old(current) == Running && to == Reconfiguring)
        || (old(current) == Reconfiguring && to == Running)
        || (old(current) == Reconfiguring && to == Reconfiguring)
      ensures Moves(old(current), to) ==>
        current == to && transitionCount == Entered(old(transitionCount), to)
      ensures !Moves(old(current), to) ==>
        current == old(current) && transitionCount == old(transitionCount)
    {
      if to == Failed {
        if current != Failed {
          current := Failed;
          transitionCount := transitionCount[Failed := Times(transitionCount, Failed) + 1];
        }
        return true;
      }
      TableIsAllowed(current, to);
      if current in TRANSITIONS {
        var valid := TRANSITIONS[current];
        for i := 0 to |valid|
          invariant current == old(current) && transitionCount == old(transitionCount)
          invariant forall j :: 0 <= j < i ==> valid[j] != to
        {
          if valid[i] == to {
            current := to;
            transitionCount := transitionCount[to := Times(transitionCount, to) + 1];
            return true;
          }
        }
      }
      return false;
    }
  }

  datatype MarkOutcome = NotFound | NilHealth | Marked

  class NodeRegistry {
    var nodes: Nodes
    var health: map<Name, NodeHealth>

    constructor ()
      ensures nodes == map[] && health == map[]
    {
      nodes, health := map[], map[];
    }

    method RegisterNode(id: Name, url: Name, st: NodeStatus, rank: int, now: int)
      modifies this
      ensures nodes == old(nodes)[id := NodeState(url, st, rank)]
      ensures health == old(health)[id := NodeHealth(now, st, 0)]
    {
      nodes := nodes[id := NodeState(url, st, rank)];
      health := health[id := NodeHealth(now, st, 0)];
    }

    method UpdateNodeHealth(id: Name, h: NodeHealth) returns (ok: bool)
      modifies this`health
      ensures ok <==> id in nodes
      ensures health == if ok then old(health)[id := h] else old(health)
    {
      if id !in nodes {
        return false;
      }
      health := health[id := h];
      return true;
    }

    /** NilHealth is the nil dereference that a registered node without a health record
        would cause; registry and health having the same keys rules it out. */
    method MarkNodeFailed(id: Name) returns (r: MarkOutcome)
      modifies this
      ensures r.NotFound? <==> id !in old(nodes)
      ensures old(nodes.Keys) == old(health.Keys) ==> !r.NilHealth?
      ensures r.Marked? ==>
        && nodes == old(nodes)[id := old(nodes)[id].(status := NodeFailed)]
        && id in old(health)
        && health == old(health)[id := NodeHealth(old(health)[id].last, NodeFailed, old(health)[id].failures + 1)]
      ensures !r.Marked? ==> health == old(health)
      ensures r.NotFound? ==> nodes == old(nodes)
    {
      if id !in nodes {
        return NotFound;
      }
      nodes := nodes[id := nodes[id].(status := NodeFailed)];
      if id !in health {
        return NilHealth;
      }
      var h := health[id];
      health := health[id := NodeHealth(h.last, NodeFailed, h.failures + 1)];
      return Marked;
    }
  }

  class SessionManager {
    var sessions: map<Name, Session>

    constructor ()
      ensures sessions == map[]
    {
      sessions := map[];
    }

    method RegisterSession(id: Name, url: Name, st: NodeStatus, rank: int, now: int) returns (reconnects: nat)
      modifies this
      ensures sessions == TouchSession(old(sessions), id, url, st, rank, now)
      ensures sessions.Keys == old(sessions.Keys) + {id} && reconnects == sessions[id].reconnects
      ensures sessions[id] ==
        if id !in old(sessions) then Session(url, st, rank, now, 0, true)
        else Session(url, st, if rank >= 0 then rank else old(sessions)[id].rank, now, old(sessions)[id].reconnects + 1, true)
    {
      if id in sessions {
        var s := sessions[id].(url := url, lastSeen := now, connected := true);
        s := s.(reconnects := s.reconnects + 1, status := st);
        if rank >= 0 {
          s := s.(rank := rank);
        }
        sessions := sessions[id := s];
        return s.reconnects;
      }
      sessions := sessions[id := Session(url, st, rank, now, 0, true)];
      return 0;
    }

    method DisconnectSession(id: Name, now: int)
      modifies this
      ensures sessions == Disconnected(old(sessions), {id}, now)
      ensures id in old(sessions) ==>
        sessions == old(sessions)[id := old(sessions)[id].(connected := false, lastSeen := now)]
    {
      if id in sessions {
        sessions := sessions[id := sessions[id].(connected := false, lastSeen := now)];
      }
      assert sessions.Keys == old(sessions).Keys;
    }

    method CleanupSessions(now: int, limit: int)
      modifies this
      ensures sessions == CleanSessions(old(sessions), now, limit)
      ensures forall id :: id in sessions <==>
        id in old(sessions) && !(!old(sessions)[id].connected && old(sessions)[id].lastSeen < now - limit)
    {
      var rest := sessions.Keys;
      ghost var before := sessions;
      while rest != {}
        invariant rest <= before.Keys
        invariant sessions == map id | id in before &&
          (id in rest || before[id].connected || before[id].lastSeen >= now - limit) :: before[id]
        decreases |rest|
      {
        var id :| id in rest;
        rest := rest - {id};
        if !sessions[id].connected && sessions[id].lastSeen < now - limit {
          sessions := sessions - {id};
        }
      }
    }
  }

  class ServerMetrics {
    var activeNodes: int
    var standbyNodes: int
    var failedNodes: int

    constructor ()
      ensures activeNodes == standbyNodes == failedNodes == 0
    {
      activeNodes, standbyNodes, failedNodes := 0, 0, 0;
    }
  }
}
