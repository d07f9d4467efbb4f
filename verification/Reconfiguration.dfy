/** One call of reconfigureCluster that nothing interrupts: what happens to ranks in each
    round, and how the call ends. */
module Reconfiguration {
  import opened Collections
  import opened ClusterTypes
  import opened ClusterSpec
  import opened ClusterFacts
  import opened ClusterTheorems

  // ----- counting ranks -----

  predicate DistinctRanks(nodes: Nodes, ids: set<Name>) {
    && (forall x :: x in ids ==> x in nodes && 0 <= nodes[x].rank)
    && forall x, y :: x in ids && y in ids && x != y ==> nodes[x].rank != nodes[y].rank
  }

  predicate HasRank(nodes: Nodes, ids: set<Name>, q: int) {
    exists x :: x in ids && x in nodes && nodes[x].rank == q
  }

  lemma {:induction false} RanksBelow(nodes: Nodes, ids: set<Name>, n: nat)
    requires DistinctRanks(nodes, ids) && forall x :: x in ids ==> nodes[x].rank < n
    ensures |ids| <= n
    decreases n
  {
    if n == 0 {
      assert ids == {};
    } else if x :| x in ids && nodes[x].rank == n - 1 {
      RanksBelow(nodes, ids - {x}, n - 1);
    } else {
      RanksBelow(nodes, ids, n - 1);
    }
  }

  lemma {:induction false} RanksCover(nodes: Nodes, ids: set<Name>, n: nat)
    requires forall q :: 0 <= q < n ==> HasRank(nodes, ids, q)
    ensures |ids| >= n
    decreases n
  {
    if n > 0 {
      assert HasRank(nodes, ids, n - 1);
      var x :| x in ids && x in nodes && nodes[x].rank == n - 1;
      forall q | 0 <= q < n - 1
        ensures HasRank(nodes, ids - {x}, q)
      {
        assert HasRank(nodes, ids, q);
        var y :| y in ids && y in nodes && nodes[y].rank == q;
        assert y in ids - {x};
      }
      RanksCover(nodes, ids - {x}, n - 1);
    }
  }

  /** The active nodes carry the ranks 0 .. n-1, one each. */
  predicate RanksAre(nodes: Nodes, n: int) {
    var actives := WithStatus(nodes, Active);
    && |actives| == n
    && DistinctRanks(nodes, actives)
    && forall x :: x in actives ==> nodes[x].rank < n
  }

  /** Then every rank below n is held by exactly one active node. */
  lemma EveryRankHeldOnce(nodes: Nodes, n: nat, q: int)
    requires RanksAre(nodes, n) && 0 <= q < n
    ensures exists x :: x in WithStatus(nodes, Active) && nodes[x].rank == q
    ensures forall x, y :: x in WithStatus(nodes, Active) && y in WithStatus(nodes, Active) ==>
      nodes[x].rank == nodes[y].rank == q ==> x == y
  {
    var actives := WithStatus(nodes, Active);
    if !HasRank(nodes, actives, q) {
      // Closing the gap at q would fit n distinct ranks below n - 1.
      var closed := map x | x in nodes ::
        if nodes[x].rank > q then nodes[x].(rank := nodes[x].rank - 1) else nodes[x];
      forall x, y | x in actives && y in actives && x != y
        ensures closed[x].rank != closed[y].rank
      {
        assert HasRank(nodes, actives, nodes[x].rank) && HasRank(nodes, actives, nodes[y].rank);
      }
      forall x | x in actives
        ensures closed[x].rank < n - 1
      {
        assert HasRank(nodes, actives, nodes[x].rank);
      }
      RanksBelow(closed, actives, n - 1);
    }
  }

  // ----- rank compaction in one round -----

  /** A round goes ahead from a registry whose active ranks are distinct and non-negative. */
  predicate Compacts(cfg: Config, nodes: Nodes, r: Round) {
    && ValidRound(cfg, nodes, r)
    && Sufficient(cfg, Promoted(nodes, r.promoted))
    && DistinctRanks(nodes, WithStatus(nodes, Active))
  }

  function Renumbered(cfg: Config, nodes: Nodes, r: Round): Nodes
    requires ValidRound(cfg, nodes, r) && Sufficient(cfg, Promoted(nodes, r.promoted))
  {
    assert forall x :: x in r.order ==> x in Elems(r.order);
    Ranked(Promoted(nodes, r.promoted), r.order)
  }

  /** Where a surviving node stands in the sorted order, and who stands before it. */
  lemma Position(cfg: Config, nodes: Nodes, r: Round, x: Name) returns (i: nat)
    requires Compacts(cfg, nodes, r) && x in WithStatus(nodes, Active)
    ensures i < |r.order| && r.order[i] == x
    ensures Renumbered(cfg, nodes, r)[x].rank == i && Promoted(nodes, r.promoted)[x] == nodes[x]
  {
    var n1 := Promoted(nodes, r.promoted);
    PromotedStatus(cfg, nodes, r.promoted);
    assert x in Elems(r.order);
    i :| 0 <= i < |r.order| && r.order[i] == x;
    assert forall y :: y in r.order ==> y in Elems(r.order);
    RankedAt(n1, r.order);
    PromoteAt(nodes, r.promoted, |WithStatus(nodes, Active)|);
  }

  /** The promoted nodes sorted no later than a rank q: promoted ranks have stride two, so at
      most half of the gap above the survivors fits. */
  lemma PromotedBefore(cfg: Config, nodes: Nodes, r: Round, before: set<Name>, q: int)
    requires ValidPromotion(cfg, nodes, r.promoted)
    requires var n1 := Promoted(nodes, r.promoted);
      forall y :: y in before ==> y in Elems(r.promoted) && n1[y].rank <= q
    requires before != {}
    ensures var a := |WithStatus(nodes, Active)|; q >= a && |before| <= (q - a) / 2 + 1
  {
    var a := |WithStatus(nodes, Active)|;
    PromoteAt(nodes, r.promoted, a);
    var y0 :| y0 in before;
    assert y0 in r.promoted;
    var m := (q - a) / 2 + 1;
    var cap := if m < |r.promoted| then m else |r.promoted|;
    var head := r.promoted[..cap];
    forall y | y in before
      ensures y in Elems(head)
    {
      var j :| 0 <= j < |r.promoted| && r.promoted[j] == y;
      assert a + 2 * j <= q;
      assert head[j] == y;
    }
    ElemsCard(head);
    SubsetCard(before, Elems(head));
  }

  /** The nodes sorted before place i: survivors of smaller rank and some promoted nodes. */
  lemma SortedBefore(cfg: Config, nodes: Nodes, r: Round, i: nat)
    requires Compacts(cfg, nodes, r)
    requires i < |r.order| && r.order[i] in WithStatus(nodes, Active)
    ensures var before := Elems(r.order[..i]);
      |before| == i && before <= (WithStatus(nodes, Active) - {r.order[i]}) + Elems(r.promoted)
    ensures forall y :: y in Elems(r.order[..i]) ==>
      y in Promoted(nodes, r.promoted) && Promoted(nodes, r.promoted)[y].rank <= nodes[r.order[i]].rank
    ensures forall y :: y in Elems(r.order[..i]) * WithStatus(nodes, Active) ==>
      nodes[y].rank < nodes[r.order[i]].rank
  {
    var x := r.order[i];
    var n1 := Promoted(nodes, r.promoted);
    var actives := WithStatus(nodes, Active);
    ElemsCard(r.order[..i]);
    PromotedStatus(cfg, nodes, r.promoted);
    PromoteAt(nodes, r.promoted, |actives|);
    assert n1[x] == nodes[x];
    forall y | y in Elems(r.order[..i])
      ensures y in (actives - {x}) + Elems(r.promoted) && y in n1 && n1[y].rank <= nodes[x].rank
      ensures y in actives ==> nodes[y].rank < nodes[x].rank
    {
      var j :| 0 <= j < i && r.order[j] == y;
      assert y in Elems(r.order);
      if y in actives {
        assert n1[y] == nodes[y];
      }
    }
  }

  /** No surviving node gets a higher rank, although promoted nodes may sort before it. */
  lemma RankNeverRises(cfg: Config, nodes: Nodes, r: Round, x: Name)
    requires Compacts(cfg, nodes, r) && x in WithStatus(nodes, Active)
    ensures Renumbered(cfg, nodes, r)[x].rank <= nodes[x].rank
  {
    var actives := WithStatus(nodes, Active);
    var i := Position(cfg, nodes, r, x);
    SortedBefore(cfg, nodes, r, i);
    var before := Elems(r.order[..i]);
    var kept := before * actives;
    var joined := before - actives;
    SplitCard(before, actives);
    RanksBelow(nodes, kept, nodes[x].rank);
    if joined != {} {
      PromotedBefore(cfg, nodes, r, joined, nodes[x].rank);
      SubsetCard(kept, actives - {x});
    }
  }

  /** Survivors keep their relative order. */
  lemma OrderKept(cfg: Config, nodes: Nodes, r: Round, x: Name, y: Name)
    requires Compacts(cfg, nodes, r)
    requires x in WithStatus(nodes, Active) && y in WithStatus(nodes, Active)
    requires nodes[x].rank < nodes[y].rank
    ensures Renumbered(cfg, nodes, r)[x].rank < Renumbered(cfg, nodes, r)[y].rank
  {
    var i := Position(cfg, nodes, r, x);
    var j := Position(cfg, nodes, r, y);
  }

  /** A survivor below which no rank is missing keeps exactly its rank. */
  lemma PrefixKept(cfg: Config, nodes: Nodes, r: Round, x: Name)
    requires Compacts(cfg, nodes, r) && x in WithStatus(nodes, Active)
    requires forall q :: 0 <= q < nodes[x].rank ==> HasRank(nodes, WithStatus(nodes, Active), q)
    ensures Renumbered(cfg, nodes, r)[x].rank == nodes[x].rank
  {
    var actives := WithStatus(nodes, Active);
    var i := Position(cfg, nodes, r, x);
    var before := Elems(r.order[..i]);
    forall q | 0 <= q < nodes[x].rank
      ensures HasRank(nodes, before, q)
    {
      assert HasRank(nodes, actives, q);
      var y :| y in actives && y in nodes && nodes[y].rank == q;
      OrderKept(cfg, nodes, r, y, x);
      var j := Position(cfg, nodes, r, y);
      assert r.order[..i][j] == y;
    }
    RanksCover(nodes, before, nodes[x].rank);
    ElemsCard(r.order[..i]);
    RankNeverRises(cfg, nodes, r, x);
  }

  // ----- one round, marking included -----

  /** Concluding a round keeps the ranks, and fails active nodes at most. */
  lemma ConcludeRanks(w: View, rejecting: set<Name>)
    ensures Conclude(w, rejecting).Actives() <= w.Actives()
    ensures forall id :: id in Conclude(w, rejecting).Actives() ==>
      Conclude(w, rejecting).nodes[id].rank == w.nodes[id].rank
    ensures forall id :: id in w.Actives() ==>
      id in Conclude(w, rejecting).Actives() || NodeHasFailed(Conclude(w, rejecting), id)
  {
  }

  /** What a round that goes ahead leaves: the survivors no higher and in the same order. */
  lemma RoundRanks(cfg: Config, v: View, r: Round, x: Name, y: Name)
    requires Compacts(cfg, v.nodes, r)
    requires x in v.Actives() && y in v.Actives()
    requires x in Attempt(cfg, v, r).Actives() && y in Attempt(cfg, v, r).Actives()
    ensures Attempt(cfg, v, r).nodes[x].rank <= v.nodes[x].rank
    ensures v.nodes[x].rank < v.nodes[y].rank ==>
      Attempt(cfg, v, r).nodes[x].rank < Attempt(cfg, v, r).nodes[y].rank
  {
    ConcludeRanks(Sent(cfg, v, r), r.rejecting);
    RankNeverRises(cfg, v.nodes, r, x);
    if v.nodes[x].rank < v.nodes[y].rank {
      OrderKept(cfg, v.nodes, r, x, y);
    }
  }

  lemma RoundDistinct(cfg: Config, v: View, r: Round)
    requires ValidRound(cfg, v.nodes, r) && Retries(cfg, v, r)
    ensures var w := Attempt(cfg, v, r); DistinctRanks(w.nodes, w.Actives())
  {
    var n2 := Sent(cfg, v, r);
    SentDistinct(cfg, v, r);
    ConcludeRanks(n2, r.rejecting);
  }

  lemma SentDistinct(cfg: Config, v: View, r: Round)
    requires ValidRound(cfg, v.nodes, r)
    requires Sufficient(cfg, Promoted(v.nodes, r.promoted))
    ensures DistinctRanks(Sent(cfg, v, r).nodes, Sent(cfg, v, r).Actives())
    ensures forall x :: x in Sent(cfg, v, r).Actives() ==> Sent(cfg, v, r).nodes[x].rank < |r.order|
    ensures |Sent(cfg, v, r).Actives()| == |r.order|
  {
    SentShape(cfg, v, r);
    OrderDistinct(Sent(cfg, v, r).nodes, r.order);
  }

  lemma OrderDistinct(nodes: Nodes, order: seq<Name>)
    requires RankedByPlace(nodes, order)
    ensures DistinctRanks(nodes, Elems(order))
    ensures forall x :: x in Elems(order) ==> nodes[x].rank < |order|
  {
    forall x | x in Elems(order)
      ensures x in nodes && 0 <= nodes[x].rank < |order| && order[nodes[x].rank] == x
    {
      var i :| 0 <= i < |order| && order[i] == x;
    }
  }

  /** The commands of a round number the active nodes 0 .. ActiveNodes - 1. */
  lemma SentRanks(cfg: Config, v: View, r: Round)
    requires ValidRound(cfg, v.nodes, r) && |v.Actives()| <= cfg.ActiveNodes()
    requires Sufficient(cfg, Promoted(v.nodes, r.promoted))
    ensures RanksAre(Sent(cfg, v, r).nodes, cfg.ActiveNodes())
  {
    SentDistinct(cfg, v, r);
    SentShape(cfg, v, r);
    PoolDecides(cfg, v.nodes, r.promoted);
  }

  // ----- whole calls -----

  function Pool(v: View): nat {
    |v.Actives()| + |v.Standbys()|
  }

  /** How one round of a call ends: it is retried within capacity, or it is the last. */
  lemma RoundOutcome(cfg: Config, v: View, r: Round)
    requires ValidRound(cfg, v.nodes, r)
    requires v.phase == Reconfiguring && |v.Actives()| <= cfg.ActiveNodes()
    ensures Retries(cfg, v, r) ==>
      Attempt(cfg, v, r).phase == Reconfiguring && |Attempt(cfg, v, r).Actives()| <= cfg.ActiveNodes()
    ensures Attempt(cfg, v, r).phase == Failed <==> Pool(v) < cfg.ActiveNodes()
    ensures !Retries(cfg, v, r) && Attempt(cfg, v, r).phase != Failed ==>
      Attempt(cfg, v, r).phase == Running && RanksAre(Attempt(cfg, v, r).nodes, cfg.ActiveNodes())
  {
    AttemptPhase(cfg, v, r);
    PoolDecides(cfg, v.nodes, r.promoted);
    if Sufficient(cfg, Promoted(v.nodes, r.promoted)) {
      SentRanks(cfg, v, r);
      var w := Sent(cfg, v, r);
      if r.rejecting != {} {
        ConcludeRanks(w, r.rejecting);
        SubsetCard(Conclude(w, r.rejecting).Actives(), w.Actives());
      } else {
        assert Attempt(cfg, v, r).nodes == w.nodes;
      }
    }
  }

  /** Every round of a call but a refused one starts Reconfiguring and within capacity. */
  lemma {:induction false} LegsStart(cfg: Config, v: View, c: Call, w: View, i: nat)
    requires ValidCall(cfg, v, c, w) && i < |c.rounds|
    requires v.phase == Reconfiguring && |v.Actives()| <= cfg.ActiveNodes()
    ensures c.views[i].phase == Reconfiguring && |c.views[i].Actives()| <= cfg.ActiveNodes()
    decreases i
  {
    if i > 0 {
      LegsStart(cfg, v, c, w, i - 1);
      assert IsRound(cfg, c.views[i - 1], c.rounds[i - 1], c.views[i - 1 + 1]);
      assert IsRetried(cfg, c.views[i - 1], c.rounds[i - 1]);
      RoundOutcome(cfg, c.views[i - 1], c.rounds[i - 1]);
    }
  }

  /** An uninterrupted call ends within three rounds, either Running with exactly ActiveNodes
      active nodes numbered from 0, or Failed. */
  lemma CallOutcome(cfg: Config, v: View, c: Call, w: View)
    requires ValidCall(cfg, v, c, w)
    requires v.phase == Reconfiguring && |v.Actives()| <= cfg.ActiveNodes()
    ensures |c.rounds| <= 3
    ensures w.phase == Failed || (w.phase == Running && RanksAre(w.nodes, cfg.ActiveNodes()))
  {
    var k := c.Last();
    LegsStart(cfg, v, c, w, k);
    assert IsRound(cfg, c.views[k], c.rounds[k], c.views[k + 1]);
    RoundOutcome(cfg, c.views[k], c.rounds[k]);
  }

  lemma EarlierRoundsRejected(cfg: Config, v: View, c: Call, w: View, i: nat)
    requires ValidCall(cfg, v, c, w) && i < c.Last()
    requires v.phase == Reconfiguring && |v.Actives()| <= cfg.ActiveNodes()
    ensures Pool(c.views[i]) >= cfg.ActiveNodes() && c.rounds[i].rejecting != {}
  {
    LegsStart(cfg, v, c, w, i);
    assert IsRetried(cfg, c.views[i], c.rounds[i]);
    RetriedWhen(cfg, c.views[i], c.rounds[i]);
  }

  lemma LastRoundDecides(cfg: Config, v: View, c: Call, w: View)
    requires ValidCall(cfg, v, c, w)
    requires v.phase == Reconfiguring && |v.Actives()| <= cfg.ActiveNodes()
    ensures var k := c.Last();
      w.phase == Failed <==> Pool(c.views[k]) < cfg.ActiveNodes() || c.rounds[k].rejecting != {}
    ensures var k := c.Last();
      Pool(c.views[k]) >= cfg.ActiveNodes() && c.rounds[k].rejecting != {} ==> |c.rounds| == MAX_ATTEMPTS
  {
    var k := c.Last();
    LegsStart(cfg, v, c, w, k);
    assert IsRound(cfg, c.views[k], c.rounds[k], c.views[k + 1]);
    RoundOutcome(cfg, c.views[k], c.rounds[k]);
    RetriedWhen(cfg, c.views[k], c.rounds[k]);
  }

  /** Which of the two it is: the call fails exactly when some round finds fewer than
      ActiveNodes nodes active or standby, or when a node rejects in each of three rounds. */
  lemma CallFailsExactlyWhen(cfg: Config, v: View, c: Call, w: View)
    requires ValidCall(cfg, v, c, w)
    requires v.phase == Reconfiguring && |v.Actives()| <= cfg.ActiveNodes()
    ensures w.phase == Failed <==>
      || (exists i :: 0 <= i < |c.rounds| && Pool(c.views[i]) < cfg.ActiveNodes())
      || (|c.rounds| == 3 && forall i :: 0 <= i < 3 ==> c.rounds[i].rejecting != {})
  {
    LastRoundDecides(cfg, v, c, w);
    forall i | 0 <= i < c.Last()
      ensures Pool(c.views[i]) >= cfg.ActiveNodes() && c.rounds[i].rejecting != {}
    {
      EarlierRoundsRejected(cfg, v, c, w, i);
    }
  }

  lemma RetriedWhen(cfg: Config, v: View, r: Round)
    requires ValidRound(cfg, v.nodes, r) && |v.Actives()| <= cfg.ActiveNodes()
    ensures IsRetried(cfg, v, r) <==> Pool(v) >= cfg.ActiveNodes() && r.rejecting != {}
  {
    PoolDecides(cfg, v.nodes, r.promoted);
  }

  /** Nodes active in both views keep their relative order and never get a higher rank. */
  predicate Compacted(v: View, w: View) {
    && (forall x :: x in v.Actives() && x in w.Actives() ==> w.nodes[x].rank <= v.nodes[x].rank)
    && forall x, y :: x in v.Actives() && x in w.Actives() && y in v.Actives() && y in w.Actives() ==>
         v.nodes[x].rank < v.nodes[y].rank ==> w.nodes[x].rank < w.nodes[y].rank
  }

  /** Failing is for good, and it is the only way out of the active set. */
  ghost predicate OnlyFails(v: View, w: View) {
    && (forall x :: NodeHasFailed(v, x) ==> NodeHasFailed(w, x))
    && forall x :: x in v.Actives() ==> x in w.Actives() || NodeHasFailed(w, x)
  }

  lemma CompactedChains(u: View, v: View, w: View)
    requires Compacted(u, v) && Compacted(v, w) && OnlyFails(u, v) && OnlyFails(v, w)
    ensures Compacted(u, w) && OnlyFails(u, w)
  {
    forall x | x in u.Actives() && x in w.Actives()
      ensures x in v.Actives()
    {
      assert !NodeHasFailed(w, x);
    }
  }

  lemma AttemptOnlyFails(cfg: Config, v: View, r: Round)
    requires ValidRound(cfg, v.nodes, r)
    ensures OnlyFails(v, Attempt(cfg, v, r))
  {
    var w := Attempt(cfg, v, r);
    forall x | NodeHasFailed(v, x)
      ensures NodeHasFailed(w, x)
    {
      AttemptKeepsFailed(cfg, v, r, x);
    }
    forall x | x in v.Actives()
      ensures x in w.Actives() || NodeHasFailed(w, x)
    {
      ActiveOrFailed(cfg, v, r, x);
    }
  }

  lemma SentKeepsActive(cfg: Config, v: View, r: Round, id: Name)
    requires ValidRound(cfg, v.nodes, r) && id in v.Actives()
    requires Sufficient(cfg, Promoted(v.nodes, r.promoted))
    ensures id in Sent(cfg, v, r).Actives()
  {
    PromotedStatus(cfg, v.nodes, r.promoted);
    SentShape(cfg, v, r);
  }

  lemma PromotionKeepsActive(cfg: Config, v: View, r: Round, id: Name)
    requires ValidRound(cfg, v.nodes, r) && id in v.Actives()
    ensures id in MoveTo(AfterPromotion(cfg, v, r), Failed).Actives()
  {
    PromotedStatus(cfg, v.nodes, r.promoted);
    assert id in WithStatus(Promoted(v.nodes, r.promoted), Active);
  }

  lemma ActiveOrFailed(cfg: Config, v: View, r: Round, id: Name)
    requires ValidRound(cfg, v.nodes, r) && id in v.Actives()
    ensures id in Attempt(cfg, v, r).Actives() || NodeHasFailed(Attempt(cfg, v, r), id)
  {
    if Sufficient(cfg, Promoted(v.nodes, r.promoted)) {
      SentKeepsActive(cfg, v, r, id);
      ConcludeRanks(Sent(cfg, v, r), r.rejecting);
    } else {
      PromotionKeepsActive(cfg, v, r, id);
    }
  }

  lemma AttemptCompacts(cfg: Config, v: View, r: Round)
    requires ValidRound(cfg, v.nodes, r) && DistinctRanks(v.nodes, v.Actives())
    ensures Compacted(v, Attempt(cfg, v, r))
  {
    var w := Attempt(cfg, v, r);
    forall x, y | x in v.Actives() && x in w.Actives() && y in v.Actives() && y in w.Actives()
      ensures w.nodes[x].rank <= v.nodes[x].rank
      ensures v.nodes[x].rank < v.nodes[y].rank ==> w.nodes[x].rank < w.nodes[y].rank
    {
      AttemptRanks(cfg, v, r, w, x, y);
    }
  }

  lemma AttemptRanks(cfg: Config, v: View, r: Round, w: View, x: Name, y: Name)
    requires IsRound(cfg, v, r, w) && DistinctRanks(v.nodes, v.Actives())
    requires x in v.Actives() && y in v.Actives() && x in w.Actives() && y in w.Actives()
    ensures w.nodes[x].rank <= v.nodes[x].rank
    ensures v.nodes[x].rank < v.nodes[y].rank ==> w.nodes[x].rank < w.nodes[y].rank
  {
    if Sufficient(cfg, Promoted(v.nodes, r.promoted)) {
      RoundRanks(cfg, v, r, x, y);
    } else {
      PromoteAt(v.nodes, r.promoted, |v.Actives()|);
      assert w.nodes == Promoted(v.nodes, r.promoted);
    }
  }

  lemma LegCompacts(cfg: Config, v: View, a: View, r: Round, b: View)
    requires IsRound(cfg, a, r, b) && DistinctRanks(a.nodes, a.Actives())
    requires Compacted(v, a) && OnlyFails(v, a)
    ensures Compacted(v, b) && OnlyFails(v, b)
    ensures IsRetried(cfg, a, r) ==> DistinctRanks(b.nodes, b.Actives())
  {
    AttemptCompacts(cfg, a, r);
    AttemptOnlyFails(cfg, a, r);
    CompactedChains(v, a, b);
    if IsRetried(cfg, a, r) {
      RoundDistinct(cfg, a, r);
    }
  }

  lemma {:induction false} LegsCompact(cfg: Config, v: View, c: Call, w: View, i: nat)
    requires ValidCall(cfg, v, c, w) && i <= |c.rounds| && DistinctRanks(v.nodes, v.Actives())
    ensures Compacted(v, c.views[i]) && OnlyFails(v, c.views[i])
    ensures i < |c.rounds| ==> DistinctRanks(c.views[i].nodes, c.views[i].Actives())
    decreases i
  {
    if i > 0 {
      var k := i - 1;
      LegsCompact(cfg, v, c, w, k);
      assert IsRound(cfg, c.views[k], c.rounds[k], c.views[k + 1]);
      assert i < |c.rounds| ==> IsRetried(cfg, c.views[k], c.rounds[k]);
      LegCompacts(cfg, v, c.views[k], c.rounds[k], c.views[k + 1]);
    }
  }

  lemma MoveKeepsRanks(v: View, w: View, p: Phase)
    requires Compacted(v, w) && OnlyFails(v, w)
    ensures Compacted(v, MoveTo(w, p)) && OnlyFails(v, MoveTo(w, p))
  {
  }

  /** Across a whole call no node active throughout gets a higher rank, and two such nodes
      never change places. */
  lemma CallCompacts(cfg: Config, v: View, c: Call, w: View)
    requires ValidCall(cfg, v, c, w) && DistinctRanks(v.nodes, v.Actives())
    ensures Compacted(v, w) && OnlyFails(v, w)
  {
    LegsCompact(cfg, v, c, w, |c.rounds|);
    MoveKeepsRanks(v, c.views[|c.rounds|], Failed);
  }

  // ----- what a failed round does to the pool -----

  /** The nodes a round can draw on. */
  function Members(v: View): set<Name> {
    v.Actives() + v.Standbys()
  }

  lemma PoolCounts(v: View)
    ensures Pool(v) == |Members(v)|
  {
    assert v.Actives() !! v.Standbys();
  }

  lemma MarkedMembers(w: View, names: set<Name>)
    ensures Members(MarkNamed(w, names)) == Members(w) - names
  {
    FailAllStatus(w.nodes, names);
  }

  lemma SentMembers(cfg: Config, v: View, r: Round)
    requires ValidRound(cfg, v.nodes, r)
    requires Sufficient(cfg, Promoted(v.nodes, r.promoted))
    ensures Members(Sent(cfg, v, r)) == Members(v)
    ensures r.rejecting <= Members(v)
  {
    PromotedStatus(cfg, v.nodes, r.promoted);
    SentShape(cfg, v, r);
    assert Elems(r.promoted) <= v.Standbys();
  }

  lemma SentNames(cfg: Config, v: View, r: Round)
    requires ValidRound(cfg, v.nodes, r)
    requires Sufficient(cfg, Promoted(v.nodes, r.promoted))
    ensures UrlsOf(Sent(cfg, v, r).nodes, r.rejecting) == UrlsOf(v.nodes, r.rejecting)
  {
    SentUrls(cfg, v, r);
  }

  /** A failed round takes from the pool exactly the entries whose IDs are URLs of refusing
      nodes. */
  lemma RejectionTakes(cfg: Config, v: View, r: Round)
    requires ValidRound(cfg, v.nodes, r) && Retries(cfg, v, r)
    ensures Members(Attempt(cfg, v, r)) == Members(v) - UrlsOf(v.nodes, r.rejecting)
  {
    SentMembers(cfg, v, r);
    SentNames(cfg, v, r);
    MarkedMembers(Sent(cfg, v, r), UrlsOf(v.nodes, r.rejecting));
  }

  /** So the pool shrinks, as the retry counts on, exactly when such a URL names a node that
      is still active or standby. */
  lemma RejectionShrinksExactlyWhen(cfg: Config, v: View, r: Round)
    requires ValidRound(cfg, v.nodes, r) && Retries(cfg, v, r)
    ensures Pool(Attempt(cfg, v, r)) < Pool(v) <==> Members(v) * UrlsOf(v.nodes, r.rejecting) != {}
  {
    RejectionTakes(cfg, v, r);
    PoolCounts(v);
    PoolCounts(Attempt(cfg, v, r));
    SplitCard(Members(v), UrlsOf(v.nodes, r.rejecting));
  }

  /** Whether one of the nodes the commands went to is failed by the round does not depend on
      its own answer: what counts is that its ID is the URL of some refusing node. */
  lemma MarkedExactlyWhen(cfg: Config, v: View, r: Round, x: Name)
    requires ValidRound(cfg, v.nodes, r) && Retries(cfg, v, r) && x in r.order
    ensures x in v.nodes
    ensures NodeHasFailed(Attempt(cfg, v, r), x) <==> x in UrlsOf(v.nodes, r.rejecting)
  {
    SentNames(cfg, v, r);
    SentShape(cfg, v, r);
    assert x in Elems(r.order);
    assert x in Sent(cfg, v, r).Actives();
  }

  lemma UrlsAreIds(nodes: Nodes, ids: set<Name>)
    requires ids <= nodes.Keys && forall id :: id in nodes ==> nodes[id].url == id
    ensures UrlsOf(nodes, ids) == ids
  {
  }

  lemma TakesAll(pool: set<Name>, taken: set<Name>)
    requires taken <= pool
    ensures |pool - taken| == |pool| - |taken|
  {
    SplitCard(pool, taken);
    assert pool * taken == taken;
  }

  /** Where every node's ID is its URL, the entries taken are the refusing nodes. */
  lemma RejectionShrinksPool(cfg: Config, v: View, r: Round)
    requires ValidRound(cfg, v.nodes, r) && Retries(cfg, v, r)
    requires forall id :: id in v.nodes ==> v.nodes[id].url == id
    ensures Members(Attempt(cfg, v, r)) == Members(v) - r.rejecting
    ensures Pool(Attempt(cfg, v, r)) == Pool(v) - |r.rejecting| < Pool(v)
  {
    SentMembers(cfg, v, r);
    assert Members(Attempt(cfg, v, r)) == Members(v) - r.rejecting by {
      RejectionTakes(cfg, v, r);
      UrlsAreIds(v.nodes, r.rejecting);
    }
    PoolCounts(v);
    PoolCounts(Attempt(cfg, v, r));
    TakesAll(Members(v), r.rejecting);
  }

  lemma UrlsOutside(nodes: Nodes, ids: set<Name>)
    requires forall id :: id in nodes ==> nodes[id].url !in nodes
    ensures UrlsOf(nodes, ids) !! nodes.Keys
  {
  }

  lemma FailsNobody(nodes: Nodes, names: set<Name>)
    requires names !! nodes.Keys
    ensures FailAll(nodes, names) == nodes
  {
  }

  lemma RejectionNodes(cfg: Config, v: View, r: Round)
    requires ValidRound(cfg, v.nodes, r) && Retries(cfg, v, r)
    ensures Attempt(cfg, v, r).nodes == FailAll(Sent(cfg, v, r).nodes, UrlsOf(v.nodes, r.rejecting))
    ensures Sent(cfg, v, r).nodes.Keys == v.nodes.Keys
  {
    SentNames(cfg, v, r);
    SentFrame(cfg, v, r);
  }

  /** Where no URL is an ID, as with the monitor's own names, a failed round marks nobody: the
      next round finds the same nodes. */
  lemma RejectionMarksNobody(cfg: Config, v: View, r: Round)
    requires ValidRound(cfg, v.nodes, r) && Retries(cfg, v, r)
    requires forall id :: id in v.nodes ==> v.nodes[id].url !in v.nodes
    ensures Attempt(cfg, v, r).nodes == Sent(cfg, v, r).nodes
    ensures Members(Attempt(cfg, v, r)) == Members(v)
  {
    RejectionNodes(cfg, v, r);
    UrlsOutside(v.nodes, r.rejecting);
    FailsNobody(Sent(cfg, v, r).nodes, UrlsOf(v.nodes, r.rejecting));
    SentMembers(cfg, v, r);
  }
}
