/** Runs from an empty server that end where its documentation says it never should. */
module ClusterScenarios {
  import opened Collections
  import opened ClusterTypes
  import opened ClusterSpec
  import opened ClusterFacts
  import opened ClusterRuns
  import opened ClusterTheorems
  import opened Accounting
  import opened Reconfiguration
  import opened StartUp
  import opened RankRuns

  function Join(id: Name, url: Name): Step {
    DoRegister(0, id, url, Launch([], {}))
  }

  /** A registration that does not complete the membership. */
  lemma Joins(cfg: Config, steps: seq<Step>, s: System, id: Name, url: Name, st: NodeStatus) returns (t: System)
    requires Leads(cfg, Boot(0), steps, s) && s.clock == 0 && s.v.phase == Initializing
    requires id !in s.v.nodes && Role(cfg, s.v) == Some(st) && st != NodeFailed
    requires s.v.activeCtr + s.v.standbyCtr + 1 != cfg.expected
    ensures Leads(cfg, Boot(0), steps + [Join(id, url)], t)
    ensures t == s.(v := Admit(s.v, id, url, 0, st))
    ensures t.v.Actives() == if st == Active then s.v.Actives() + {id} else s.v.Actives()
    ensures t.v.Standbys() == if st == Standby then s.v.Standbys() + {id} else s.v.Standbys()
  {
    assert Admitted(cfg, s.v, id, url, 0) == Admit(s.v, id, url, 0, st);
    assert !Triggers(cfg, Admitted(cfg, s.v, id, url, 0));
    t := After(cfg, s, Join(id, url));
    RunExtends(cfg, Boot(0), steps, s, Join(id, url));
    AdmitStatus(s.v, id, url, 0, st);
  }

  /** v with a last standby, started. */
  predicate StartedWith(v: View, t: View, id: Name, url: Name, order: seq<Name>) {
    && t.phase == Running && t.activeCtr == v.activeCtr && t.standbyCtr == v.standbyCtr + 1
    && t.Actives() == v.Actives() && t.Standbys() == v.Standbys() + {id}
    && t.nodes.Keys == v.nodes.Keys + {id} && t.nodes[id].url == url
    && (forall x :: x in v.nodes ==> t.nodes[x].url == v.nodes[x].url)
    && RankedByPlace(t.nodes, order)
  }

  lemma StartsWith(cfg: Config, v: View, id: Name, url: Name, order: seq<Name>)
    requires id !in v.nodes && Launches(cfg, Admit(v, id, url, 0, Standby))
    requires ValidLaunch(Admit(v, id, url, 0, Standby).nodes, Launch(order, {}))
    ensures StartedWith(v, StartProgram(cfg, Admit(v, id, url, 0, Standby), Launch(order, {})), id, url, order)
  {
    var w := Admit(v, id, url, 0, Standby);
    var t := StartProgram(cfg, w, Launch(order, {}));
    assert t.Actives() == v.Actives() && t.Standbys() == v.Standbys() + {id} by {
      AcceptedStart(cfg, w, order);
      AdmitStatus(v, id, url, 0, Standby);
    }
    AcceptedStart(cfg, w, order);
  }

  lemma AcceptedStart(cfg: Config, w: View, order: seq<Name>)
    requires Launches(cfg, w) && ValidLaunch(w.nodes, Launch(order, {}))
    ensures var t := StartProgram(cfg, w, Launch(order, {}));
      && t.phase == Running && t.activeCtr == w.activeCtr && t.standbyCtr == w.standbyCtr
      && t.Actives() == w.Actives() && t.Standbys() == w.Standbys() && SameUrls(w, t)
      && RankedByPlace(t.nodes, order)
  {
    assert forall x :: x in order ==> x in Elems(order);
    StartRanks(cfg, w, Launch(order, {}));
    StartFrame(cfg, w, Launch(order, {}));
    RankedStatus(w.nodes, order, Standby);
  }

  /** The registration of a last standby lets the start go ahead. */
  lemma LastJoin(cfg: Config, v: View, id: Name, url: Name, order: seq<Name>)
    requires v.phase == Initializing && id !in v.nodes && Role(cfg, v) == Some(Standby)
    requires v.activeCtr + v.standbyCtr + 1 == cfg.expected && |v.Actives()| == cfg.ActiveNodes()
    requires NoDup(order) && Elems(order) == v.Actives() && UrlSorted(v.nodes, order)
    ensures Admits(cfg, v, id) && Admitted(cfg, v, id, url, 0) == Admit(v, id, url, 0, Standby)
    ensures Triggers(cfg, Admit(v, id, url, 0, Standby)) && Launches(cfg, Admit(v, id, url, 0, Standby))
    ensures ValidLaunch(Admit(v, id, url, 0, Standby).nodes, Launch(order, {}))
  {
    AdmitStatus(v, id, url, 0, Standby);
    assert forall x :: x in order ==> x in Elems(order);
  }

  /** The registration of a last standby, after which every active node accepts the start. */
  lemma JoinsLast(cfg: Config, steps: seq<Step>, s: System, id: Name, url: Name, order: seq<Name>) returns (t: System)
    requires Leads(cfg, Boot(0), steps, s) && s.clock == 0 && s.v.phase == Initializing
    requires id !in s.v.nodes && Role(cfg, s.v) == Some(Standby)
    requires s.v.activeCtr + s.v.standbyCtr + 1 == cfg.expected
    requires |s.v.Actives()| == cfg.ActiveNodes()
    requires NoDup(order) && Elems(order) == s.v.Actives() && UrlSorted(s.v.nodes, order)
    ensures Leads(cfg, Boot(0), steps + [DoRegister(0, id, url, Launch(order, {}))], t)
    ensures t.clock == 0 && t.pending == s.pending
    ensures StartedWith(s.v, t.v, id, url, order)
  {
    var step := DoRegister(0, id, url, Launch(order, {}));
    var w := Admit(s.v, id, url, 0, Standby);
    LastJoin(cfg, s.v, id, url, order);
    t := After(cfg, s, step);
    assert t.v == StartProgram(cfg, w, Launch(order, {}));
    assert Leads(cfg, Boot(0), steps + [step], t) by {
      RunExtends(cfg, Boot(0), steps, s, step);
    }
    StartsWith(cfg, s.v, id, url, order);
  }

  /** Losing its only standby leaves a two-node cluster wedged. */
  lemma StandbyLossFromBoot() returns (steps: seq<Step>, t: System)
    ensures Leads(Config(2, 1, 10), Boot(0), steps, t) && Wedged(t)
  {
    var cfg := Config(2, 1, 10);
    steps := [];
    t := Boot(0);
    t := Joins(cfg, steps, t, "a", "url-a", Active);
    steps := steps + [Join("a", "url-a")];
    var last := DoRegister(0, "b", "url-b", Launch(["a"], {}));
    t := JoinsLast(cfg, steps, t, "b", "url-b", ["a"]);
    steps := steps + [last];
    assert "b" in t.v.Standbys();
    RunExtends(cfg, Boot(0), steps, t, DoReport(0, "b"));
    steps := steps + [DoReport(0, "b")];
    ReportFrame(t.v, "b");
    t := After(cfg, t, DoReport(0, "b"));
  }

  /** An active node of a running server is reported: its reconfiguration is in flight. */
  lemma ReportsActive(cfg: Config, steps: seq<Step>, s: System, id: Name) returns (t: System)
    requires Leads(cfg, Boot(0), steps, s) && s.clock == 0 && s.v.phase == Running && id in s.v.Actives()
    ensures Leads(cfg, Boot(0), steps + [DoReport(0, id)], t)
    ensures t.v.phase == Reconfiguring && t.pending == s.pending + multiset{0} && t.clock == 0
    ensures t.v.nodes == s.v.nodes[id := s.v.nodes[id].(status := NodeFailed)]
    ensures t.v.activeCtr == s.v.activeCtr - 1 && t.v.standbyCtr == s.v.standbyCtr
    ensures t.v.Actives() == s.v.Actives() - {id} && t.v.Standbys() == s.v.Standbys() - {id}
  {
    t := After(cfg, s, DoReport(0, id));
    RunExtends(cfg, Boot(0), steps, s, DoReport(0, id));
    ReportFrame(s.v, id);
    ReportEffect(s.v, id);
    var n := s.v.nodes[id].(status := NodeFailed);
    SetStatus(s.v.nodes, id, n, Active);
    SetStatus(s.v.nodes, id, n, Standby);
  }

  /** A round that promotes one standby beside the active nodes listed before it. */
  lemma PromotesOne(cfg: Config, nodes: Nodes, before: seq<Name>, id: Name, rejecting: set<Name>)
    requires id in WithStatus(nodes, Standby) && id !in before
    requires NoDup(before) && Elems(before) == WithStatus(nodes, Active) && RankedByPlace(nodes, before)
    requires |before| + 1 == cfg.ActiveNodes() && rejecting <= Elems(before) + {id}
    ensures ValidRound(cfg, nodes, Round([id], before + [id], rejecting))
    ensures Sufficient(cfg, Promoted(nodes, [id]))
  {
    ElemsCard(before);
    assert ValidPromotion(cfg, nodes, [id]) by {
      var spare := WithStatus(nodes, Standby);
      assert spare == {id} + (spare - {id});
    }
    assert Elems([id]) == {id} && Elems(before + [id]) == Elems(before) + {id};
    PromotedStatus(cfg, nodes, [id]);
    assert NoDup(before + [id]);
    PromotedLast(nodes, before, id);
  }

  /** The promoted node sorts last. */
  lemma PromotedLast(nodes: Nodes, before: seq<Name>, id: Name)
    requires id in nodes && id !in before && RankedByPlace(nodes, before)
    requires |WithStatus(nodes, Active)| == |before|
    ensures RankSorted(Promoted(nodes, [id]), before + [id])
  {
    PromoteAt(nodes, [id], |before|);
    assert [id][0] == id;
  }

  lemma ListsPair(x: Name, y: Name)
    requires x != y
    ensures NoDup([x, y]) && Elems([x, y]) == {x, y} && Elems([x]) == {x}
  {
  }

  lemma MixedNamesJoin() returns (steps: seq<Step>, s: System)
    ensures Leads(Config(3, 2, 10), Boot(0), steps, s) && s.clock == 0 && s.pending == multiset{}
    ensures s.v.phase == Initializing && s.v.activeCtr == 1 && s.v.standbyCtr == 1
    ensures s.v.Actives() == {"x"} && s.v.Standbys() == {"a"} && s.v.nodes.Keys == {"x", "a"}
    ensures s.v.nodes["a"].url == "b"
  {
    var cfg := Config(3, 2, 10);
    s := Joins(cfg, [], Boot(0), "x", "url-x", Active);
    s := Joins(cfg, [] + [Join("x", "url-x")], s, "a", "b", Standby);
    steps := [] + [Join("x", "url-x")] + [Join("a", "b")];
  }

  /** One active node and two standbys, started; the URL of one standby is the ID of the other. */
  lemma MixedNamesStart() returns (steps: seq<Step>, s: System)
    ensures Leads(Config(3, 2, 10), Boot(0), steps, s) && s.clock == 0 && s.pending == multiset{}
    ensures s.v.phase == Running && s.v.activeCtr == 1 && s.v.standbyCtr == 2
    ensures s.v.Actives() == {"x"} && s.v.Standbys() == {"a", "b"} && s.v.nodes.Keys == {"x", "a", "b"}
    ensures s.v.nodes["a"].url == "b"
  {
    var joins, u := MixedNamesJoin();
    ListsPair("x", "a");
    s := JoinsLast(Config(3, 2, 10), joins, u, "b", "url-b", ["x"]);
    steps := joins + [DoRegister(0, "b", "url-b", Launch(["x"], {}))];
    assert s.v.nodes["a"].url == u.v.nodes["a"].url;
  }

  /** Its active node is reported. */
  lemma MixedNamesReport() returns (steps: seq<Step>, s: System)
    ensures Leads(Config(3, 2, 10), Boot(0), steps, s) && s.clock == 0 && s.pending == multiset{0}
    ensures s.v.phase == Reconfiguring && s.v.activeCtr == 0 && s.v.standbyCtr == 2
    ensures s.v.Actives() == {} && s.v.Standbys() == {"a", "b"}
    ensures "a" in s.v.nodes && s.v.nodes["a"].url == "b"
  {
    steps, s := MixedNamesStart();
    assert "x" in s.v.Actives();
    s := ReportsActive(Config(3, 2, 10), steps, s, "x");
    steps := steps + [DoReport(0, "x")];
  }

  /** With mixed names a refusal takes a standby down uncounted: the active node a answers for
      its URL, which is the ID of the standby b. */
  lemma MixedNamesLoseAStandby() returns (steps: seq<Step>, s: System, step: Step)
    ensures Leads(Config(3, 2, 10), Boot(0), steps, s) && Enabled(Config(3, 2, 10), s, step)
    ensures Exact(s.v) && !Exact(After(Config(3, 2, 10), s, step).v)
    ensures IsLive(s.v, "b") && NodeHasFailed(After(Config(3, 2, 10), s, step).v, "b")
  {
    var cfg := Config(3, 2, 10);
    steps, s := MixedNamesReport();
    assert "a" in s.v.Standbys() && "b" in s.v.Standbys();
    ListsPair("a", "b");
    var r := Round(["a"], [] + ["a"], {"a"});
    PromotesOne(cfg, s.v.nodes, [], "a", {"a"});
    step := DoAttempt(0, 0, r);
    RefusalNames(cfg, s.v, r, "b");
  }

  /** A refusing node's URL names a live standby that was not promoted. */
  lemma RefusalNames(cfg: Config, v: View, r: Round, id: Name)
    requires v.phase == Reconfiguring && ValidRound(cfg, v.nodes, r) && Retries(cfg, v, r)
    requires Exact(v) && id in v.Standbys() - Elems(r.promoted) && id in UrlsOf(v.nodes, r.rejecting)
    ensures !Exact(AttemptStep(cfg, v, 0, r)) && NodeHasFailed(AttemptStep(cfg, v, 0, r), id)
  {
    var w := Sent(cfg, v, r);
    SentExact(cfg, v, r);
    SentShape(cfg, v, r);
    MarkExactWhen(w, r.rejecting);
    assert id in w.Standbys() * UrlsOf(w.nodes, r.rejecting);
    assert AttemptStep(cfg, v, 0, r) == MarkRejecting(w, r.rejecting);
  }

  lemma TwoActivesJoin(cfg: Config) returns (steps: seq<Step>, s: System)
    requires cfg.expected == 3 && cfg.ActiveNodes() >= 2
    ensures Leads(cfg, Boot(0), steps, s) && s.clock == 0 && s.pending == multiset{}
    ensures s.v.phase == Initializing && s.v.activeCtr == 2 && s.v.standbyCtr == 0
    ensures s.v.Actives() == {"a", "b"} && s.v.Standbys() == {} && s.v.nodes.Keys == {"a", "b"}
    ensures s.v.nodes["a"].url == "u" && UrlSorted(s.v.nodes, ["a", "b"]) && s.v.nodes["b"].rank == 1
    ensures s.v.health == map["a" := NodeHealth(0, Active, 0), "b" := NodeHealth(0, Active, 0)]
  {
    s := Joins(cfg, [], Boot(0), "a", "u", Active);
    s := Joins(cfg, [] + [Join("a", "u")], s, "b", "v", Active);
    steps := [] + [Join("a", "u")] + [Join("b", "v")];
  }

  /** Two active nodes and a standby that shares the URL of one of them, started. */
  lemma SharedUrlStarts() returns (steps: seq<Step>, s: System)
    ensures Leads(Config(3, 1, 10), Boot(0), steps, s) && s.clock == 0 && s.v.phase == Running
    ensures s.v.Actives() == {"a", "b"} && s.v.Standbys() == {"c"} && s.v.nodes.Keys == {"a", "b", "c"}
    ensures s.v.nodes["a"].url == s.v.nodes["c"].url == "u"
    ensures RankedByPlace(s.v.nodes, ["a", "b"])
  {
    var joins, u := TwoActivesJoin(Config(3, 1, 10));
    ListsPair("a", "b");
    s := JoinsLast(Config(3, 1, 10), joins, u, "c", "u", ["a", "b"]);
    steps := joins + [DoRegister(0, "c", "u", Launch(["a", "b"], {}))];
    assert s.v.nodes["a"].url == u.v.nodes["a"].url;
  }

  /** A promotion puts two entries behind one URL among the active nodes. */
  lemma SharedUrlFromBoot() returns (steps: seq<Step>, s: System, r: Round)
    ensures Leads(Config(3, 1, 10), Boot(0), steps, s) && 0 in s.pending && s.v.phase == Reconfiguring
    ensures ValidRound(Config(3, 1, 10), s.v.nodes, r) && r.rejecting == {}
    ensures Sufficient(Config(3, 1, 10), Promoted(s.v.nodes, r.promoted))
    ensures r.order == ["a", "c"] && s.v.nodes.Keys == {"a", "b", "c"}
    ensures s.v.nodes["a"].url == s.v.nodes["c"].url == "u"
  {
    var cfg := Config(3, 1, 10);
    steps, s := SharedUrlStarts();
    assert ["a", "b"][0] == "a";
    s := ReportsActive(cfg, steps, s, "b");
    steps := steps + [DoReport(0, "b")];
    ListsPair("a", "c");
    assert s.v.Actives() == {"a"} && "c" in s.v.Standbys();
    r := Round(["c"], ["a"] + ["c"], {});
    PromotesOne(cfg, s.v.nodes, ["a"], "c", {});
  }

  // ----- before the start -----

  lemma LoneNode() returns (steps: seq<Step>, s: System)
    ensures Leads(Config(2, 0, 10), Boot(0), steps, s) && Invariant(Config(2, 0, 10), s)
    ensures s.clock == 0 && s.v.phase == Initializing && s.v.activeCtr == 1 && Exact(s.v) && s.v.failedCtr == 0
    ensures s.v.nodes == map["a" := NodeState("u", Active, 0)]
    ensures s.v.health == map["a" := NodeHealth(0, Active, 0)]
  {
    var cfg := Config(2, 0, 10);
    s := Joins(cfg, [], Boot(0), "a", "u", Active);
    steps := [] + [Join("a", "u")];
    BootInvariant(cfg, 0);
    RunInvariant(cfg, Boot(0), steps, s);
  }

  /** The health record never says failed, so the same silence is counted at every tick. */
  lemma SilenceTicks(cfg: Config, v: View, now: int)
    requires v.nodes.Keys == {"a"} && v.health == map["a" := NodeHealth(0, Active, 0)] && now > cfg.timeout
    ensures TimedOut(cfg, v, now) == {"a"}
    ensures Tick(cfg, v, now).nodes == map["a" := v.nodes["a"].(status := NodeFailed)]
    ensures Tick(cfg, v, now).failedCtr == v.failedCtr + 1 && Tick(cfg, v, now).health == v.health
  {
    assert TimedOut(cfg, v, now) == {"a"};
  }

  /** The only node of two falls silent before the second comes: no run starts the program any
      more, and every further health tick counts the same failure again. */
  lemma StartUpTimeoutFromBoot() returns (steps: seq<Step>, s: System)
    ensures Leads(Config(2, 0, 10), Boot(0), steps, s) && s.clock == 0 && Exact(s.v) && s.v.failedCtr == 0
    ensures CanStart(Config(2, 0, 10), s) && !CanStart(Config(2, 0, 10), After(Config(2, 0, 10), s, DoTick(11)))
    ensures !Exact(Tick(Config(2, 0, 10), s.v, 11))
    ensures Tick(Config(2, 0, 10), Tick(Config(2, 0, 10), s.v, 11), 12).failedCtr == 2
    ensures Tick(Config(2, 0, 10), Tick(Config(2, 0, 10), s.v, 11), 12).nodes == Tick(Config(2, 0, 10), s.v, 11).nodes
  {
    var cfg := Config(2, 0, 10);
    steps, s := LoneNode();
    SilenceTicks(cfg, s.v, 11);
    SilenceTicks(cfg, Tick(cfg, s.v, 11), 12);
    assert "a" in s.v.Actives() * TimedOut(cfg, s.v, 11);
    CanStartExactlyWhen(cfg, s);
    TickEndsStartsExactlyWhen(cfg, s, 11);
    TickExactWhen(cfg, s.v, 11);
  }

  /** One of two active nodes is swept away before the third comes. */
  lemma SilentNodeSwept() returns (steps: seq<Step>, s: System)
    ensures Leads(Config(3, 0, 10), Boot(0), steps, s) && s.clock == 21
    ensures s.v.phase == Initializing && s.v.activeCtr == 1 && s.v.standbyCtr == 0
    ensures s.v.Actives() == {"b"} && s.v.nodes.Keys == {"b"} && s.v.nodes["b"].rank == 1
  {
    var cfg := Config(3, 0, 10);
    var joins, u := TwoActivesJoin(cfg);
    var beat := DoHeartbeat(21, "b");
    RunExtends(cfg, Boot(0), joins, u, beat);
    var v := Heartbeat(u.v, "b", 21);
    OneSilent(cfg, v);
    RunExtends(cfg, Boot(0), joins + [beat], After(cfg, u, beat), DoSweep(21));
    steps := joins + [beat] + [DoSweep(21)];
    s := After(cfg, After(cfg, u, beat), DoSweep(21));
    SweptView(cfg, v);
  }

  lemma OneSilent(cfg: Config, v: View)
    requires cfg.timeout == 10
    requires v.health == map["a" := NodeHealth(0, Active, 0), "b" := NodeHealth(21, Active, 0)]
    ensures DeadConnections(cfg, v, 21) == {"a"}
  {
  }

  lemma OneRank(v: View, id: Name)
    requires v.Actives() == {id} && id in v.nodes && v.nodes[id].rank >= 0
    ensures ActiveRanksDistinct(v) && HasRank(v.nodes, v.Actives(), v.nodes[id].rank)
  {
    assert id in v.Actives();
  }

  lemma SweptView(cfg: Config, v: View)
    requires DeadConnections(cfg, v, 21) == {"a"} && v.Actives() == {"a", "b"} && v.Standbys() == {}
    ensures Sweep(cfg, v, 21).nodes == v.nodes - {"a"} && Sweep(cfg, v, 21).Actives() == {"b"}
    ensures Sweep(cfg, v, 21).activeCtr == v.activeCtr - 1 && Sweep(cfg, v, 21).standbyCtr == v.standbyCtr
  {
    WithoutStatus(v.nodes, {"a"}, Active);
    assert v.Actives() * {"a"} == {"a"} && v.Standbys() * {"a"} == {};
  }

  /** The next node is given the rank the other active node holds. */
  lemma RanksCollideFromBoot() returns (steps: seq<Step>, s: System, step: Step)
    ensures Leads(Config(3, 0, 10), Boot(0), steps, s) && Enabled(Config(3, 0, 10), s, step)
    ensures ActiveRanksDistinct(s.v) && !ActiveRanksDistinct(After(Config(3, 0, 10), s, step).v)
  {
    var cfg := Config(3, 0, 10);
    steps, s := SilentNodeSwept();
    step := DoRegister(21, "c", "w", Launch([], {}));
    OneRank(s.v, "b");
    assert Collides(cfg, s, step);
    assert Invariant(cfg, s) by {
      BootInvariant(cfg, 0);
      RunInvariant(cfg, Boot(0), steps, s);
    }
    RegisterDistinct(cfg, s, step);
  }
}
