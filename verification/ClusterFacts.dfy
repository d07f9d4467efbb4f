/** Closed forms of the update loops and what each registry update does to the
    sets of active and standby nodes. */
module ClusterFacts {
  import opened Collections
  import opened ClusterTypes
  import opened ClusterSpec

  /** Each promoted node is active with rank a + 2i, whatever its place in the registry;
      nothing else moves. */
  lemma {:induction false} PromoteAt(nodes: Nodes, chosen: seq<Name>, a: nat)
    requires NoDup(chosen) && forall x :: x in chosen ==> x in nodes
    ensures forall i :: 0 <= i < |chosen| ==>
      Promote(nodes, chosen, a)[chosen[i]] == NodeState(nodes[chosen[i]].url, Active, a + 2 * i)
    ensures forall id :: id in nodes && id !in chosen ==> Promote(nodes, chosen, a)[id] == nodes[id]
    decreases |chosen|
  {
    if chosen != [] {
      PromoteAt(nodes, chosen[..|chosen| - 1], a);
    }
  }

  lemma {:induction false} RankedAt(nodes: Nodes, order: seq<Name>)
    requires NoDup(order) && forall x :: x in order ==> x in nodes
    ensures forall i :: 0 <= i < |order| ==> Ranked(nodes, order)[order[i]] == nodes[order[i]].(rank := i)
    ensures forall id :: id in nodes && id !in order ==> Ranked(nodes, order)[id] == nodes[id]
    decreases |order|
  {
    if order != [] {
      RankedAt(nodes, order[..|order| - 1]);
    }
  }

  lemma RankedStatus(nodes: Nodes, order: seq<Name>, st: NodeStatus)
    requires NoDup(order) && forall x :: x in order ==> x in nodes
    ensures WithStatus(Ranked(nodes, order), st) == WithStatus(nodes, st)
    ensures forall id :: id in nodes ==>
      Ranked(nodes, order)[id].url == nodes[id].url && Ranked(nodes, order)[id].status == nodes[id].status
  {
    RankedAt(nodes, order);
    forall id | id in nodes
      ensures Ranked(nodes, order)[id].url == nodes[id].url && Ranked(nodes, order)[id].status == nodes[id].status
    {
      if id in order {
        var i :| 0 <= i < |order| && order[i] == id;
      }
    }
  }

  lemma PromotedEach(nodes: Nodes, chosen: seq<Name>)
    requires NoDup(chosen) && forall x :: x in chosen ==> x in nodes
    ensures forall id :: id in nodes ==> Promoted(nodes, chosen)[id].url == nodes[id].url
    ensures forall id :: id in nodes ==>
      Promoted(nodes, chosen)[id].status == if id in Elems(chosen) then Active else nodes[id].status
  {
    PromoteAt(nodes, chosen, |WithStatus(nodes, Active)|);
    forall id | id in nodes && id in chosen
      ensures Promoted(nodes, chosen)[id].url == nodes[id].url && Promoted(nodes, chosen)[id].status == Active
    {
      var i :| 0 <= i < |chosen| && chosen[i] == id;
    }
  }

  lemma MovedCard(to: set<Name>, from: set<Name>, moved: set<Name>)
    requires moved <= from && to !! from
    ensures |to + moved| == |to| + |moved| && |from - moved| == |from| - |moved|
  {
    assert to !! moved && from * moved == moved;
    SplitCard(from, moved);
  }

  /** Making some of the standbys active. */
  lemma MovedStatus(nodes: Nodes, moved: set<Name>, n1: Nodes)
    requires moved <= WithStatus(nodes, Standby) && n1.Keys == nodes.Keys
    requires forall id :: id in nodes ==> n1[id].status == if id in moved then Active else nodes[id].status
    ensures WithStatus(n1, Active) == WithStatus(nodes, Active) + moved
    ensures WithStatus(n1, Standby) == WithStatus(nodes, Standby) - moved
    ensures WithStatus(n1, NodeFailed) == WithStatus(nodes, NodeFailed)
    ensures |WithStatus(n1, Active)| == |WithStatus(nodes, Active)| + |moved|
    ensures |WithStatus(n1, Standby)| == |WithStatus(nodes, Standby)| - |moved|
  {
    assert WithStatus(n1, Active) == WithStatus(nodes, Active) + moved;
    assert WithStatus(n1, Standby) == WithStatus(nodes, Standby) - moved;
    MovedCard(WithStatus(nodes, Active), WithStatus(nodes, Standby), moved);
  }

  /** Promotion moves exactly the chosen nodes from standby to active. */
  lemma PromotedStatus(cfg: Config, nodes: Nodes, chosen: seq<Name>)
    requires ValidPromotion(cfg, nodes, chosen)
    ensures WithStatus(Promoted(nodes, chosen), Active) == WithStatus(nodes, Active) + Elems(chosen)
    ensures WithStatus(Promoted(nodes, chosen), Standby) == WithStatus(nodes, Standby) - Elems(chosen)
    ensures WithStatus(Promoted(nodes, chosen), NodeFailed) == WithStatus(nodes, NodeFailed)
    ensures |WithStatus(Promoted(nodes, chosen), Active)| == |WithStatus(nodes, Active)| + |chosen|
    ensures |WithStatus(Promoted(nodes, chosen), Standby)| == |WithStatus(nodes, Standby)| - |chosen|
    ensures forall id :: id in nodes ==> Promoted(nodes, chosen)[id].url == nodes[id].url
  {
    PromotedEach(nodes, chosen);
    ElemsCard(chosen);
    MovedStatus(nodes, Elems(chosen), Promoted(nodes, chosen));
  }

  /** After promotion the round goes ahead exactly when the pool of active and standby
      nodes is large enough; having started at or below the bound it ends exactly at it. */
  lemma PoolDecides(cfg: Config, nodes: Nodes, chosen: seq<Name>)
    requires ValidPromotion(cfg, nodes, chosen)
    ensures var pool := |WithStatus(nodes, Active)| + |WithStatus(nodes, Standby)|;
      Sufficient(cfg, Promoted(nodes, chosen)) <==> pool >= cfg.ActiveNodes() || |WithStatus(nodes, Active)| >= cfg.ActiveNodes()
    ensures |WithStatus(nodes, Active)| <= cfg.ActiveNodes() ==>
      |WithStatus(Promoted(nodes, chosen), Active)| <= cfg.ActiveNodes()
  {
    PromotedStatus(cfg, nodes, chosen);
  }

  lemma SetStatus(nodes: Nodes, id: Name, n: NodeState, st: NodeStatus)
    ensures var s := WithStatus(nodes, st);
      WithStatus(nodes[id := n], st) == if n.status == st then s + {id} else s - {id}
  {
  }

  /** A new entry joins the nodes of its role. */
  lemma AdmitStatus(v: View, id: Name, url: Name, now: int, st: NodeStatus)
    requires id !in v.nodes && st != NodeFailed
    ensures Admit(v, id, url, now, st).Actives() == if st == Active then v.Actives() + {id} else v.Actives()
    ensures Admit(v, id, url, now, st).Standbys() == if st == Standby then v.Standbys() + {id} else v.Standbys()
  {
    var n := Admit(v, id, url, now, st).nodes[id];
    SetStatus(v.nodes, id, n, Active);
    SetStatus(v.nodes, id, n, Standby);
  }

  lemma FailAllStatus(nodes: Nodes, names: set<Name>)
    ensures WithStatus(FailAll(nodes, names), Active) == WithStatus(nodes, Active) - names
    ensures WithStatus(FailAll(nodes, names), Standby) == WithStatus(nodes, Standby) - names
  {
  }

  lemma WithoutStatus(nodes: Nodes, dead: set<Name>, st: NodeStatus)
    ensures WithStatus(nodes - dead, st) == WithStatus(nodes, st) - dead
  {
  }

  /** Each node of the order has its place as its rank. */
  predicate RankedByPlace(nodes: Nodes, order: seq<Name>) {
    forall i :: 0 <= i < |order| ==> order[i] in nodes && nodes[order[i]].rank == i
  }

  /** Renumbering along a listing of the active nodes: each one's rank is its place, and
      nothing else changes. */
  lemma RankedShape(nodes: Nodes, order: seq<Name>)
    requires NoDup(order) && Elems(order) == WithStatus(nodes, Active)
    requires forall x :: x in order ==> x in nodes
    ensures |order| == |WithStatus(nodes, Active)|
    ensures RankedByPlace(Ranked(nodes, order), order)
    ensures WithStatus(Ranked(nodes, order), Active) == WithStatus(nodes, Active)
    ensures WithStatus(Ranked(nodes, order), Standby) == WithStatus(nodes, Standby)
    ensures forall id :: id in nodes ==> Ranked(nodes, order)[id].url == nodes[id].url
  {
    RankedAt(nodes, order);
    ElemsCard(order);
    RankedStatus(nodes, order, Active);
    RankedStatus(nodes, order, Standby);
  }

  /** The registry a round sends commands from: the order lists exactly the active nodes and
      each node's rank is its place in the order. */
  lemma SentShape(cfg: Config, v: View, r: Round)
    requires ValidRound(cfg, v.nodes, r)
    requires Sufficient(cfg, Promoted(v.nodes, r.promoted))
    ensures Sent(cfg, v, r).nodes.Keys == v.nodes.Keys
    ensures Sent(cfg, v, r).Actives() == WithStatus(Promoted(v.nodes, r.promoted), Active)
    ensures Sent(cfg, v, r).Standbys() == v.Standbys() - Elems(r.promoted)
    ensures Elems(r.order) == Sent(cfg, v, r).Actives()
    ensures |r.order| == |Sent(cfg, v, r).Actives()|
    ensures RankedByPlace(Sent(cfg, v, r).nodes, r.order)
    ensures forall id :: id in v.nodes ==> Sent(cfg, v, r).nodes[id].url == v.nodes[id].url
  {
    var n1 := Promoted(v.nodes, r.promoted);
    assert forall x :: x in r.order ==> x in Elems(r.order);
    RankedShape(n1, r.order);
    PromotedStatus(cfg, v.nodes, r.promoted);
  }

  /** The membership of the registry, the health records and the sessions are untouched. */
  predicate SameMembers(v: View, w: View) {
    w.health == v.health && w.sessions == v.sessions && w.nodes.Keys == v.nodes.Keys
  }

  lemma ConcludeFrame(v: View, rejecting: set<Name>)
    ensures SameMembers(v, Conclude(v, rejecting))
    ensures Conclude(v, rejecting).phase == if rejecting == {} && v.phase == Reconfiguring then Running else v.phase
  {
  }

  lemma SentFrame(cfg: Config, v: View, r: Round)
    requires ValidRound(cfg, v.nodes, r)
    requires Sufficient(cfg, Promoted(v.nodes, r.promoted))
    ensures SameMembers(v, Sent(cfg, v, r))
    ensures Sent(cfg, v, r).phase == v.phase
    ensures Sent(cfg, v, r).activeCtr == v.activeCtr + |r.promoted|
    ensures Sent(cfg, v, r).standbyCtr == v.standbyCtr - |r.promoted|
  {
    assert forall x :: x in r.order ==> x in Elems(r.order);
    var n1 := Promoted(v.nodes, r.promoted);
    assert Ranked(n1, r.order).Keys == n1.Keys;
  }

  lemma AttemptMembers(cfg: Config, v: View, r: Round)
    requires ValidRound(cfg, v.nodes, r)
    ensures SameMembers(v, Attempt(cfg, v, r))
  {
    if Sufficient(cfg, Promoted(v.nodes, r.promoted)) {
      SentFrame(cfg, v, r);
      ConcludeFrame(Sent(cfg, v, r), r.rejecting);
    }
  }

  /** The phase a round ends in. */
  lemma AttemptPhase(cfg: Config, v: View, r: Round)
    requires ValidRound(cfg, v.nodes, r)
    ensures Attempt(cfg, v, r).phase ==
      if !Sufficient(cfg, Promoted(v.nodes, r.promoted)) then Failed
      else if r.rejecting == {} && v.phase == Reconfiguring then Running
      else v.phase
  {
    if Sufficient(cfg, Promoted(v.nodes, r.promoted)) {
      SentFrame(cfg, v, r);
      ConcludeFrame(Sent(cfg, v, r), r.rejecting);
    }
  }

  lemma StartFrame(cfg: Config, v: View, l: Launch)
    requires Launches(cfg, v) ==> ValidLaunch(v.nodes, l)
    ensures SameMembers(v, StartProgram(cfg, v, l))
    ensures StartProgram(cfg, v, l).activeCtr == v.activeCtr
    ensures StartProgram(cfg, v, l).standbyCtr == v.standbyCtr
    ensures StartProgram(cfg, v, l).phase == if Launches(cfg, v) && l.rejecting == {} then Running else v.phase
  {
  }

  lemma ReportFrame(v: View, id: Name)
    ensures ReportFailure(v, id).sessions == v.sessions
    ensures ReportFailure(v, id).nodes.Keys == v.nodes.Keys
    ensures ReportFailure(v, id).health.Keys == v.health.Keys
    ensures forall x :: x in v.health ==> ReportFailure(v, id).health[x].last == v.health[x].last
    ensures ReportFailure(v, id).phase == if FailureTaken(v, id) then Reconfiguring else v.phase
  {
    var f := FailNode(v, id);
    assert f.nodes.Keys == v.nodes.Keys && f.health == v.health && f.sessions == v.sessions;
    var m := MarkHealth(f, id);
    assert m.nodes == f.nodes && m.health.Keys == f.health.Keys;
  }

  /** A failure report that is acted on: the entry fails, and the counter of its role drops. */
  lemma ReportEffect(v: View, id: Name)
    requires FailureTaken(v, id)
    ensures ReportFailure(v, id).nodes == v.nodes[id := v.nodes[id].(status := NodeFailed)]
    ensures ReportFailure(v, id).activeCtr == v.activeCtr - if v.nodes[id].status == Active then 1 else 0
    ensures ReportFailure(v, id).standbyCtr == v.standbyCtr - if v.nodes[id].status == Standby then 1 else 0
    ensures ReportFailure(v, id).failedCtr == v.failedCtr + if v.nodes[id].status == NodeFailed then 0 else 1
  {
  }

  predicate SameCounters(v: View, w: View) {
    v.activeCtr == w.activeCtr && v.standbyCtr == w.standbyCtr && v.failedCtr == w.failedCtr
  }

  /** One node more has failed, and one of the two other counters is lower by one. */
  predicate CountsFailure(v: View, w: View) {
    w.failedCtr == v.failedCtr + 1 && w.activeCtr + w.standbyCtr == v.activeCtr + v.standbyCtr - 1
  }

  lemma RepeatedReport(v: View, id: Name)
    requires id in v.nodes && v.nodes[id].status == NodeFailed
    ensures ReportFailure(v, id).activeCtr == v.activeCtr
    ensures ReportFailure(v, id).standbyCtr == v.standbyCtr
  {
  }

  /** A removal that takes effect. */
  lemma RemoveEffect(v: View, id: Name)
    requires FailureTaken(v, id)
    ensures Remove(v, id).nodes == v.nodes - {id} && Remove(v, id).health == v.health - {id}
    ensures Remove(v, id).sessions == v.sessions
    ensures Remove(v, id).phase == Reconfiguring && Remove(v, id).entered == Entered(v.entered, Reconfiguring)
    ensures Remove(v, id).activeCtr == v.activeCtr - if v.nodes[id].status == Active then 1 else 0
    ensures Remove(v, id).standbyCtr == v.standbyCtr - if v.nodes[id].status == Standby then 1 else 0
  {
  }

  predicate SameUrls(v: View, w: View) {
    v.nodes.Keys == w.nodes.Keys && forall id :: id in v.nodes ==> v.nodes[id].url == w.nodes[id].url
  }

  lemma ConcludeUrls(v: View, rejecting: set<Name>)
    ensures SameUrls(v, Conclude(v, rejecting))
  {
  }

  lemma SentUrls(cfg: Config, v: View, r: Round)
    requires ValidRound(cfg, v.nodes, r)
    requires Sufficient(cfg, Promoted(v.nodes, r.promoted))
    ensures SameUrls(v, Sent(cfg, v, r))
  {
    SentShape(cfg, v, r);
  }

  lemma PromotionUrls(cfg: Config, v: View, r: Round)
    requires ValidRound(cfg, v.nodes, r)
    ensures SameUrls(v, MoveTo(AfterPromotion(cfg, v, r), Failed))
  {
    PromotedStatus(cfg, v.nodes, r.promoted);
  }

  lemma AttemptUrls(cfg: Config, v: View, r: Round)
    requires ValidRound(cfg, v.nodes, r)
    ensures SameUrls(v, Attempt(cfg, v, r))
  {
    if !Sufficient(cfg, Promoted(v.nodes, r.promoted)) {
      PromotionUrls(cfg, v, r);
    } else {
      SentUrls(cfg, v, r);
      ConcludeUrls(Sent(cfg, v, r), r.rejecting);
    }
  }

  // ----- the orders sort.Slice may produce exist -----

  lemma RankOrderExists(nodes: Nodes, ids: set<Name>)
    requires forall x :: x in ids ==> x in nodes
    ensures exists order: seq<Name> :: NoDup(order) && Elems(order) == ids && RankSorted(nodes, order)
  {
    var leq := (x: Name, y: Name) => x in nodes && y in nodes && nodes[x].rank <= nodes[y].rank;
    var order := SortExists(ids, leq);
    assert forall x :: x in order ==> x in Elems(order);
    assert RankSorted(nodes, order);
  }

  lemma UrlOrderExists(nodes: Nodes, ids: set<Name>)
    requires forall x :: x in ids ==> x in nodes
    ensures exists order: seq<Name> :: NoDup(order) && Elems(order) == ids && UrlSorted(nodes, order)
  {
    var leq := (x: Name, y: Name) => x in nodes && y in nodes && LexLeq(nodes[x].url, nodes[y].url);
    forall x, y | x in ids && y in ids
      ensures leq(x, y) || leq(y, x)
    {
      LexTotal(nodes[x].url, nodes[y].url);
    }
    forall x, y, z | x in ids && y in ids && z in ids && leq(x, y) && leq(y, z)
      ensures leq(x, z)
    {
      LexTransitive(nodes[x].url, nodes[y].url, nodes[z].url);
    }
    var order := SortExists(ids, leq);
    assert forall x :: x in order ==> x in Elems(order);
    assert UrlSorted(nodes, order);
  }
}
