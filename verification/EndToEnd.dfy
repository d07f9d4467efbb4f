/** The server's commands carried out by the nodes: when a start round or a
    reconfiguration succeeds, what every node is then really running. */
module EndToEnd {
  import opened Collections
  import opened ClusterTypes
  import opened ClusterSpec
  import opened ClusterFacts
  import opened ClusterSafety
  import opened ClusterRuns
  import opened ClusterTheorems
  import opened Reconfiguration
  import opened ClusterScenarios
  import M = MonitorNode
  import N = NodeLaws
  import S = Supervisor

  /** What runs behind one URL. */
  datatype Host = Host(state: M.MonitorState, agent: S.Agent)

  type Network = map<Name, Host>

  /** Every host's shells are under supervision. */
  predicate Supervised(net: Network) {
    forall url :: url in net ==> S.Supervised(net[url].agent)
  }

  /** One posted command: whether it reaches the node, everything that happens to it there,
      whether the server sees the reply, and the hosts whose shells end by themselves before
      the next command arrives. */
  datatype Delivery = Delivery(id: Name, arrives: bool, script: M.Script, answered: bool, ended: set<Name>)

  function Exiting(net: Network, urls: set<Name>): Network {
    map url | url in net ::
      if url in urls then Host(net[url].state, M.AfterExit(net[url].agent, net[url].agent.tracked)) else net[url]
  }

  datatype Kind = StartRound | RestartRound

  function CommandFor(kind: Kind, rank: int, worldSize: int): M.Command {
    match kind
    case StartRound => M.StartCommand(S.Env(rank, worldSize))
    case RestartRound => M.RestartCommand(S.Env(rank, worldSize))
  }

  /** A host carries a command out as its monitor and supervisor do. */
  function Served(h: Host, cmd: M.Command, script: M.Script): (Host, M.Reply) {
    var (st, agent, reply) := M.CarryOut(h.state, h.agent, cmd, script);
    (Host(st, agent), reply)
  }

  /** The commands of one round, in the order in which they reach the nodes. */
  datatype Broadcast =
    Broadcast(net: Network, nodes: Nodes, kind: Kind, worldSize: int, ds: seq<Delivery>)
  {
    predicate Valid() {
      forall k :: 0 <= k < |ds| ==> ds[k].id in nodes
    }

    function Target(k: nat): NodeState
      requires Valid() && k < |ds|
    {
      nodes[ds[k].id]
    }

    function Serve(before: Network, k: nat): (Host, M.Reply)
      requires Valid() && k < |ds| && Target(k).url in before
    {
      Served(before[Target(k).url], CommandFor(kind, Target(k).rank, worldSize), ds[k].script)
    }

    /** The network right after command k, which finds it in the given state. */
    function Posted(before: Network, k: nat): Network
      requires Valid() && k < |ds|
    {
      if ds[k].arrives && Target(k).url in before then before[Target(k).url := Serve(before, k).0] else before
    }

    /** The network before command k. */
    function Net(k: nat): Network
      requires Valid() && k <= |ds|
      decreases k
    {
      if k == 0 then net else Exiting(Posted(Net(k - 1), k - 1), ds[k - 1].ended)
    }

    function End(): Network
      requires Valid()
    {
      Net(|ds|)
    }

    /** The server sees the node answer OK. */
    predicate Succeeds(k: nat)
      requires Valid() && k < |ds|
    {
      ds[k].arrives && ds[k].answered && Target(k).url in Net(k) && Serve(Net(k), k).1 == M.Ok
    }

    predicate AllSucceed()
      requires Valid()
    {
      forall k :: 0 <= k < |ds| ==> Succeeds(k)
    }

    /** The shell launched for command k does not end before the round does. */
    predicate StillUp(k: nat)
      requires Valid() && k < |ds|
    {
      forall i :: k <= i < |ds| ==> Target(k).url !in ds[i].ended
    }

    predicate AllStayUp()
      requires Valid()
    {
      forall k :: 0 <= k < |ds| ==> StillUp(k)
    }

    /** The nodes whose commands the server counts as refused. */
    function Refusing(): set<Name>
      requires Valid()
    {
      set k | 0 <= k < |ds| && !Succeeds(k) :: ds[k].id
    }
  }

  /** One command to each of these nodes, in some order. */
  predicate OneEach(ds: seq<Delivery>, ids: set<Name>) {
    && (forall k :: 0 <= k < |ds| ==> ds[k].id in ids)
    && (forall j, k :: 0 <= j < k < |ds| ==> ds[j].id != ds[k].id)
    && forall id :: id in ids ==> Addressed(ds, id)
  }

  predicate Addressed(ds: seq<Delivery>, id: Name) {
    exists k :: 0 <= k < |ds| && ds[k].id == id
  }

  predicate DistinctUrls(nodes: Nodes, ids: set<Name>) {
    forall x, y :: x in ids && y in ids && x in nodes && y in nodes && x != y ==> nodes[x].url != nodes[y].url
  }

  /** The node behind an entry was started with the entry's rank and the common world size. */
  predicate StartedAs(net: Network, node: NodeState, worldSize: int) {
    node.url in net && net[node.url].state == M.Running
    && M.Keeps(net[node.url].agent, S.Env(node.rank, worldSize))
  }

  /** And it still runs. */
  predicate RunsAs(net: Network, node: NodeState, worldSize: int) {
    node.url in net && net[node.url].state == M.Running
    && M.Holds(net[node.url].agent, S.Env(node.rank, worldSize))
  }

  // ----- what a round leaves behind -----

  lemma ServedObeys(h: Host, kind: Kind, rank: int, worldSize: int, script: M.Script)
    requires S.Supervised(h.agent)
    ensures var (after, reply) := Served(h, CommandFor(kind, rank, worldSize), script);
      && S.Supervised(after.agent)
      && M.Obeys(h.state, CommandFor(kind, rank, worldSize), after.state, after.agent, reply)
  {
    M.CommandObeys(h.state, h.agent, CommandFor(kind, rank, worldSize), script);
  }

  lemma ExitingSupervised(net: Network, urls: set<Name>)
    requires Supervised(net)
    ensures Supervised(Exiting(net, urls))
  {
    forall url | url in net
      ensures S.Supervised(Exiting(net, urls)[url].agent)
    {
      M.ExitSupervised(net[url].agent, net[url].agent.tracked);
    }
  }

  /** However the commands fare, every host stays supervised. */
  lemma {:induction false} HostsStaySupervised(b: Broadcast, k: nat)
    requires b.Valid() && k <= |b.ds| && Supervised(b.net)
    ensures Supervised(b.Net(k))
    decreases k
  {
    if k > 0 {
      HostsStaySupervised(b, k - 1);
      var t := b.Target(k - 1);
      if t.url in b.Net(k - 1) {
        ServedObeys(b.Net(k - 1)[t.url], b.kind, t.rank, b.worldSize, b.ds[k - 1].script);
      }
      ExitingSupervised(b.Posted(b.Net(k - 1), k - 1), b.ds[k - 1].ended);
    }
  }

  /** What ends a shell, and nothing else of it. */
  lemma ExitingKeeps(net: Network, urls: set<Name>, url: Name, env: S.Env)
    requires url in net && M.Keeps(net[url].agent, env)
    ensures url in Exiting(net, urls) && Exiting(net, urls)[url].state == net[url].state
    ensures M.Keeps(Exiting(net, urls)[url].agent, env)
    ensures S.TrackedLive(Exiting(net, urls)[url].agent) <==> url !in urls && S.TrackedLive(net[url].agent)
  {
    M.ExitKeeps(net[url].agent, env);
  }

  /** Commands to other URLs leave a started host alone; its shell may still exit. */
  lemma {:induction false} StartedStays(b: Broadcast, url: Name, env: S.Env, j: nat, k: nat)
    requires b.Valid() && j <= k <= |b.ds|
    requires forall i :: j <= i < k ==> b.Target(i).url != url
    requires url in b.Net(j) && M.Keeps(b.Net(j)[url].agent, env)
    ensures url in b.Net(k) && b.Net(k)[url].state == b.Net(j)[url].state && M.Keeps(b.Net(k)[url].agent, env)
    ensures S.TrackedLive(b.Net(k)[url].agent) <==>
      S.TrackedLive(b.Net(j)[url].agent) && forall i :: j <= i < k ==> url !in b.ds[i].ended
    decreases k - j
  {
    if j < k {
      StartedStays(b, url, env, j, k - 1);
      var posted := b.Posted(b.Net(k - 1), k - 1);
      assert posted[url] == b.Net(k - 1)[url];
      ExitingKeeps(posted, b.ds[k - 1].ended, url, env);
    }
  }

  /** Right after its OK a node holds its shell; then only an exit can take it. */
  lemma AcceptedHolds(b: Broadcast, k: nat)
    requires b.Valid() && Supervised(b.net) && k < |b.ds| && b.Succeeds(k)
    ensures StartedAs(b.Net(k + 1), b.Target(k), b.worldSize)
    ensures S.TrackedLive(b.Net(k + 1)[b.Target(k).url].agent) <==> b.Target(k).url !in b.ds[k].ended
  {
    var t := b.Target(k);
    var env := S.Env(t.rank, b.worldSize);
    var posted := b.Posted(b.Net(k), k);
    assert t.url in posted && posted[t.url].state == M.Running && M.Holds(posted[t.url].agent, env) by {
      HostsStaySupervised(b, k);
      ServedObeys(b.Net(k)[t.url], b.kind, t.rank, b.worldSize, b.ds[k].script);
    }
    M.HoldsExactlyWhen(posted[t.url].agent, env);
    ExitingKeeps(posted, b.ds[k].ended, t.url, env);
  }

  /** Where URLs are distinct, every node that answered OK ends up Running with a shell launched
      with its rank and the common world size, whatever the other nodes answered. It runs
      exactly when it has not exited by itself. */
  lemma AcceptedNodesRun(b: Broadcast, ids: set<Name>, k: nat)
    requires b.Valid() && Supervised(b.net) && OneEach(b.ds, ids) && DistinctUrls(b.nodes, ids)
    requires k < |b.ds| && b.Succeeds(k)
    ensures Supervised(b.End())
    ensures StartedAs(b.End(), b.Target(k), b.worldSize)
    ensures RunsAs(b.End(), b.Target(k), b.worldSize) <==> b.StillUp(k)
  {
    var t := b.Target(k);
    var env := S.Env(t.rank, b.worldSize);
    HostsStaySupervised(b, |b.ds|);
    forall i | k + 1 <= i < |b.ds|
      ensures b.Target(i).url != t.url
    {
      assert b.ds[k].id != b.ds[i].id;
    }
    AcceptedLasts(b, k);
    M.HoldsExactlyWhen(b.End()[t.url].agent, env);
  }

  lemma AcceptedLasts(b: Broadcast, k: nat)
    requires b.Valid() && Supervised(b.net) && k < |b.ds| && b.Succeeds(k)
    requires forall i :: k + 1 <= i < |b.ds| ==> b.Target(i).url != b.Target(k).url
    ensures StartedAs(b.End(), b.Target(k), b.worldSize)
    ensures S.TrackedLive(b.End()[b.Target(k).url].agent) <==> b.StillUp(k)
  {
    var t := b.Target(k);
    AcceptedHolds(b, k);
    StartedStays(b, t.url, S.Env(t.rank, b.worldSize), k + 1, |b.ds|);
  }

  predicate AllStarted(net: Network, nodes: Nodes, worldSize: int, ids: set<Name>) {
    forall id :: id in ids && id in nodes ==> StartedAs(net, nodes[id], worldSize)
  }

  predicate AllRun(net: Network, nodes: Nodes, worldSize: int, ids: set<Name>) {
    forall id :: id in ids && id in nodes ==> RunsAs(net, nodes[id], worldSize)
  }

  lemma RunningStarted(net: Network, nodes: Nodes, worldSize: int, ids: set<Name>)
    requires AllRun(net, nodes, worldSize, ids)
    ensures AllStarted(net, nodes, worldSize, ids)
  {
    forall id | id in ids && id in nodes
      ensures StartedAs(net, nodes[id], worldSize)
    {
      assert RunsAs(net, nodes[id], worldSize);
      M.HoldsExactlyWhen(net[nodes[id].url].agent, S.Env(nodes[id].rank, worldSize));
    }
  }

  lemma DistinctUrlsAgree(b: Broadcast, ids: set<Name>)
    requires b.Valid() && Supervised(b.net) && OneEach(b.ds, ids) && b.AllSucceed()
    requires DistinctUrls(b.nodes, ids)
    ensures AllStarted(b.End(), b.nodes, b.worldSize, ids)
    ensures AllRun(b.End(), b.nodes, b.worldSize, ids) <==> b.AllStayUp()
  {
    forall k | 0 <= k < |b.ds|
      ensures StartedAs(b.End(), b.Target(k), b.worldSize)
      ensures RunsAs(b.End(), b.Target(k), b.worldSize) <==> b.StillUp(k)
    {
      AcceptedNodesRun(b, ids, k);
    }
    EachTarget(b, ids);
  }

  /** Speaking of all commands is speaking of all nodes. */
  lemma EachTarget(b: Broadcast, ids: set<Name>)
    requires b.Valid() && OneEach(b.ds, ids)
    ensures AllStarted(b.End(), b.nodes, b.worldSize, ids) <==>
      forall k :: 0 <= k < |b.ds| ==> StartedAs(b.End(), b.Target(k), b.worldSize)
    ensures AllRun(b.End(), b.nodes, b.worldSize, ids) <==>
      forall k :: 0 <= k < |b.ds| ==> RunsAs(b.End(), b.Target(k), b.worldSize)
  {
    forall id | id in ids && id in b.nodes
      ensures exists k :: 0 <= k < |b.ds| && b.Target(k) == b.nodes[id]
    {
      assert Addressed(b.ds, id);
      var k :| 0 <= k < |b.ds| && b.ds[k].id == id;
      assert b.Target(k) == b.nodes[id];
    }
    forall k | 0 <= k < |b.ds|
      ensures b.ds[k].id in ids && b.Target(k) == b.nodes[b.ds[k].id]
    {
    }
  }

  /** Two entries behind one URL cannot both be started with ranks of their own. */
  lemma SharedUrlDisagrees(net: Network, nodes: Nodes, worldSize: int, ids: set<Name>)
    requires DistinctRanks(nodes, ids) && AllStarted(net, nodes, worldSize, ids)
    ensures DistinctUrls(nodes, ids)
  {
    forall x, y | x in ids && y in ids && x in nodes && y in nodes && x != y
      ensures nodes[x].url != nodes[y].url
    {
      assert StartedAs(net, nodes[x], worldSize) && StartedAs(net, nodes[y], worldSize);
    }
  }

  lemma AcceptedStart(h: Host, rank: int, worldSize: int, script: M.Script)
    requires Served(h, CommandFor(StartRound, rank, worldSize), script).1 == M.Ok
    ensures h.state == M.Standby
    ensures Served(h, CommandFor(StartRound, rank, worldSize), script).0.state == M.Running
  {
  }

  /** A node already started refuses to start again. */
  lemma {:induction false} StartedHostsRun(b: Broadcast, k: nat, j: nat)
    requires b.Valid() && b.kind == StartRound && b.AllSucceed()
    requires j < k <= |b.ds|
    ensures b.Target(j).url in b.Net(k) && b.Net(k)[b.Target(j).url].state == M.Running
    decreases k
  {
    assert b.Succeeds(k - 1);
    var t := b.Target(k - 1);
    AcceptedStart(b.Net(k - 1)[t.url], t.rank, b.worldSize, b.ds[k - 1].script);
    if j < k - 1 {
      StartedHostsRun(b, k - 1, j);
    }
  }

  /** So in a start round success alone makes the URLs distinct. */
  lemma StartSuccessSeparatesUrls(b: Broadcast, ids: set<Name>)
    requires b.Valid() && b.kind == StartRound && b.AllSucceed() && OneEach(b.ds, ids)
    ensures DistinctUrls(b.nodes, ids)
  {
    forall j, k | 0 <= j < k < |b.ds|
      ensures b.Target(j).url != b.Target(k).url
    {
      StartedHostsRun(b, k, j);
      assert b.Succeeds(k);
      AcceptedStart(b.Net(k)[b.Target(k).url], b.Target(k).rank, b.worldSize, b.ds[k].script);
    }
    forall x, y | x in ids && y in ids && x in b.nodes && y in b.nodes && x != y
      ensures b.nodes[x].url != b.nodes[y].url
    {
      assert Addressed(b.ds, x) && Addressed(b.ds, y);
      var j :| 0 <= j < |b.ds| && b.ds[j].id == x;
      var k :| 0 <= k < |b.ds| && b.ds[k].id == y;
      if j < k {
        assert b.Target(j).url != b.Target(k).url;
      } else {
        assert b.Target(k).url != b.Target(j).url;
      }
    }
  }

  // ----- the two agreement theorems -----

  lemma NoneRefusing(b: Broadcast)
    requires b.Valid()
    ensures b.Refusing() == {} <==> b.AllSucceed()
  {
    if !b.AllSucceed() {
      var k :| 0 <= k < |b.ds| && !b.Succeeds(k);
      assert b.ds[k].id in b.Refusing();
    }
  }

  /** The commands of this launch, and which of them failed. */
  predicate LaunchedOver(cfg: Config, v: View, l: Launch, b: Broadcast) {
    && Launches(cfg, v) && ValidLaunch(v.nodes, l)
    && b.nodes == StartProgram(cfg, v, l).nodes && b.kind == StartRound && b.worldSize == |l.order|
    && b.Valid() && OneEach(b.ds, StartProgram(cfg, v, l).Actives())
    && l.rejecting == b.Refusing()
  }

  /** The world size is the number of active entries and ActiveNodes, the ranks are
      0 .. ActiveNodes - 1 once each, and every active node's monitor is Running and tracks a
      shell launched with the entry's rank and the world size. */
  predicate LaunchAgreement(cfg: Config, nodes: Nodes, net: Network) {
    && RanksAre(nodes, cfg.ActiveNodes())
    && AllStarted(net, nodes, cfg.ActiveNodes(), WithStatus(nodes, Active))
  }

  /** And all these shells are alive, with no other beside them. */
  predicate Agreement(cfg: Config, nodes: Nodes, net: Network) {
    && RanksAre(nodes, cfg.ActiveNodes())
    && AllRun(net, nodes, cfg.ActiveNodes(), WithStatus(nodes, Active))
  }

  lemma StartAgreement(cfg: Config, v: View, l: Launch, b: Broadcast)
    requires Safe(cfg, v) && LaunchedOver(cfg, v, l, b) && Supervised(b.net) && l.rejecting == {}
    ensures |l.order| == cfg.ActiveNodes() && StartProgram(cfg, v, l).phase == Running
    ensures LaunchAgreement(cfg, StartProgram(cfg, v, l).nodes, b.End())
    ensures Agreement(cfg, StartProgram(cfg, v, l).nodes, b.End()) <==> b.AllStayUp()
  {
    var w := StartProgram(cfg, v, l);
    StartRanks(cfg, v, l);
    StartFrame(cfg, v, l);
    OrderDistinct(w.nodes, l.order);
    NoneRefusing(b);
    StartSuccessSeparatesUrls(b, w.Actives());
    DistinctUrlsAgree(b, w.Actives());
  }

  /** After any run, the registration that completes the membership and starts the program on
      every node brings server and nodes into agreement, for as long as no shell exits. */
  lemma RegistrationStartsInAgreement(
    cfg: Config, start: int, steps: seq<Step>, s: System,
    now: int, id: Name, url: Name, l: Launch, b: Broadcast)
    requires cfg.Valid() && Leads(cfg, Boot(start), steps, s)
    requires Admits(cfg, s.v, id) && Triggers(cfg, Admitted(cfg, s.v, id, url, now))
    requires LaunchedOver(cfg, Admitted(cfg, s.v, id, url, now), l, b) && Supervised(b.net) && l.rejecting == {}
    ensures Register(cfg, s.v, id, url, now, l).phase == Running
    ensures LaunchAgreement(cfg, Register(cfg, s.v, id, url, now, l).nodes, b.End())
    ensures Agreement(cfg, Register(cfg, s.v, id, url, now, l).nodes, b.End()) <==> b.AllStayUp()
  {
    BootInvariant(cfg, start);
    RunInvariant(cfg, Boot(start), steps, s);
    AdmitSafe(cfg, s.v, id, url, now);
    StartAgreement(cfg, Admitted(cfg, s.v, id, url, now), l, b);
  }

  /** The commands of this round, and which of them failed. */
  predicate NotifiedOver(cfg: Config, v: View, r: Round, b: Broadcast) {
    && ValidRound(cfg, v.nodes, r) && Sufficient(cfg, Promoted(v.nodes, r.promoted))
    && b.nodes == Sent(cfg, v, r).nodes && b.kind == RestartRound && b.worldSize == cfg.ActiveNodes()
    && b.Valid() && OneEach(b.ds, Sent(cfg, v, r).Actives())
    && r.rejecting == b.Refusing()
  }

  /** The nodes the round goes to, before it: the active ones and those it will promote. */
  function Called(v: View, r: Round): set<Name> {
    v.Actives() + Elems(r.promoted)
  }

  lemma CalledUrls(cfg: Config, v: View, r: Round)
    requires ValidRound(cfg, v.nodes, r) && Sufficient(cfg, Promoted(v.nodes, r.promoted))
    ensures Sent(cfg, v, r).Actives() == Called(v, r)
    ensures DistinctUrls(Sent(cfg, v, r).nodes, Called(v, r)) <==> DistinctUrls(v.nodes, Called(v, r))
  {
    PromotedStatus(cfg, v.nodes, r.promoted);
    SentShape(cfg, v, r);
  }

  /** After any run, a reconfiguration attempt that no node refuses numbers the nodes and leaves
      the server Running. It brings server and nodes into agreement about what was launched
      exactly when the nodes it goes to have distinct URLs, and about what runs exactly when,
      besides, no shell exits. */
  lemma ReconfigurationAgreement(
    cfg: Config, start: int, steps: seq<Step>, s: System, made: nat, r: Round, b: Broadcast)
    requires cfg.Valid() && Leads(cfg, Boot(start), steps, s) && !Refused(s.v, made)
    requires NotifiedOver(cfg, s.v, r, b) && Supervised(b.net) && r.rejecting == {}
    ensures made in s.pending && s.v.phase != Failed ==> AttemptStep(cfg, s.v, made, r).phase == Running
    ensures RanksAre(AttemptStep(cfg, s.v, made, r).nodes, cfg.ActiveNodes())
    ensures LaunchAgreement(cfg, AttemptStep(cfg, s.v, made, r).nodes, b.End()) <==>
      DistinctUrls(s.v.nodes, Called(s.v, r))
    ensures Agreement(cfg, AttemptStep(cfg, s.v, made, r).nodes, b.End()) <==>
      DistinctUrls(s.v.nodes, Called(s.v, r)) && b.AllStayUp()
  {
    assert Safe(cfg, s.v) && (made in s.pending ==> s.v.phase != Initializing) by {
      BootInvariant(cfg, start);
      RunInvariant(cfg, Boot(start), steps, s);
    }
    SentRanks(cfg, s.v, r);
    NoneRefusing(b);
    AttemptKeepsSent(cfg, s.v, made, r);
    if made in s.pending && s.v.phase != Failed {
      AcceptedAttemptRuns(cfg, s.v, made, r);
    }
    CalledUrls(cfg, s.v, r);
    RestartAgreement(cfg, b, Called(s.v, r));
  }

  lemma RestartAgreement(cfg: Config, b: Broadcast, ids: set<Name>)
    requires b.Valid() && Supervised(b.net) && OneEach(b.ds, ids) && b.AllSucceed()
    requires DistinctRanks(b.nodes, ids)
    ensures AllStarted(b.End(), b.nodes, b.worldSize, ids) <==> DistinctUrls(b.nodes, ids)
    ensures AllRun(b.End(), b.nodes, b.worldSize, ids) <==> DistinctUrls(b.nodes, ids) && b.AllStayUp()
  {
    if DistinctUrls(b.nodes, ids) {
      DistinctUrlsAgree(b, ids);
    }
    if AllRun(b.End(), b.nodes, b.worldSize, ids) {
      RunningStarted(b.End(), b.nodes, b.worldSize, ids);
    }
    if AllStarted(b.End(), b.nodes, b.worldSize, ids) {
      SharedUrlDisagrees(b.End(), b.nodes, b.worldSize, ids);
    }
  }

  lemma SuccessNodes(cfg: Config, v: View, r: Round)
    requires ValidRound(cfg, v.nodes, r) && r.rejecting == {}
    requires Sufficient(cfg, Promoted(v.nodes, r.promoted))
    ensures Attempt(cfg, v, r).nodes == Renumbered(cfg, v.nodes, r)
    ensures Sent(cfg, v, r).nodes == Renumbered(cfg, v.nodes, r)
  {
  }

  lemma AcceptedAttemptRuns(cfg: Config, v: View, made: nat, r: Round)
    requires v.phase == Running || v.phase == Reconfiguring
    requires ValidRound(cfg, v.nodes, r) && Sufficient(cfg, Promoted(v.nodes, r.promoted)) && r.rejecting == {}
    ensures AttemptStep(cfg, v, made, r).phase == Running
  {
    AttemptPhase(cfg, Entering(v, made), r);
  }

  lemma AttemptKeepsSent(cfg: Config, v: View, made: nat, r: Round)
    requires !Refused(v, made) && ValidRound(cfg, v.nodes, r)
    requires Sufficient(cfg, Promoted(v.nodes, r.promoted)) && r.rejecting == {}
    ensures AttemptStep(cfg, v, made, r).nodes == Sent(cfg, v, r).nodes
  {
    SuccessNodes(cfg, v, r);
    SuccessNodes(cfg, Entering(v, made), r);
  }

  // ----- a smooth network -----

  /** The monitor takes a restart: in Standby, in Restarting, or in Running with a process it
      tracks. */
  predicate Willing(h: Host) {
    h.state == M.Standby || h.state == M.Restarting || (h.state == M.Running && h.agent.tracked.Some?)
  }

  /** Nothing is lost on the way to the nodes and back, and every launch stays up. */
  predicate Smooth(b: Broadcast)
    requires b.Valid()
  {
    forall k :: 0 <= k < |b.ds| ==>
      b.ds[k].arrives && b.ds[k].answered && b.ds[k].script == N.SMOOTH && b.Target(k).url in b.net
  }

  lemma SmoothRestart(h: Host, rank: int, worldSize: int)
    requires S.Supervised(h.agent) && Willing(h)
    ensures Served(h, CommandFor(RestartRound, rank, worldSize), N.SMOOTH).1 == M.Ok
    ensures Willing(Served(h, CommandFor(RestartRound, rank, worldSize), N.SMOOTH).0)
  {
    N.SmoothRestartExactlyWhen(h.state, h.agent, S.Env(rank, worldSize));
    ServedObeys(h, RestartRound, rank, worldSize, N.SMOOTH);
  }

  predicate AllWilling(net: Network) {
    forall url :: url in net ==> Willing(net[url])
  }

  lemma ExitStaysWilling(net: Network, urls: set<Name>, url: Name)
    requires url in net && S.Supervised(net[url].agent) && Willing(net[url])
    ensures url in Exiting(net, urls)
    ensures S.Supervised(Exiting(net, urls)[url].agent) && Willing(Exiting(net, urls)[url])
  {
    M.ExitSupervised(net[url].agent, net[url].agent.tracked);
  }

  /** A willing host stays willing, whichever restarts reach it and whether or not its shells
      exit. */
  lemma {:induction false} HostStaysWilling(b: Broadcast, url: Name, k: nat)
    requires b.Valid() && k <= |b.ds| && b.kind == RestartRound && Smooth(b)
    requires url in b.net && S.Supervised(b.net[url].agent) && Willing(b.net[url])
    ensures url in b.Net(k) && S.Supervised(b.Net(k)[url].agent) && Willing(b.Net(k)[url])
    decreases k
  {
    if k > 0 {
      HostStaysWilling(b, url, k - 1);
      var t := b.Target(k - 1);
      if t.url == url {
        SmoothRestart(b.Net(k - 1)[url], t.rank, b.worldSize);
        ServedObeys(b.Net(k - 1)[url], RestartRound, t.rank, b.worldSize, N.SMOOTH);
      }
      ExitStaysWilling(b.Posted(b.Net(k - 1), k - 1), b.ds[k - 1].ended, url);
    }
  }

  /** Where all hosts are willing, a smooth restart round is accepted by every node, promoted
      standbys included. */
  lemma SmoothRoundSucceeds(b: Broadcast)
    requires b.Valid() && Supervised(b.net) && b.kind == RestartRound && Smooth(b)
    requires AllWilling(b.net)
    ensures b.AllSucceed()
  {
    forall k | 0 <= k < |b.ds|
      ensures b.Succeeds(k)
    {
      var t := b.Target(k);
      HostStaysWilling(b, t.url, k);
      SmoothRestart(b.Net(k)[t.url], t.rank, b.worldSize);
    }
  }

  /** So after any run an attempt in flight that finds enough nodes, all of them willing, ends
      Running, and in agreement exactly when their URLs are distinct. */
  lemma SmoothReconfiguration(
    cfg: Config, start: int, steps: seq<Step>, s: System, made: nat, r: Round, b: Broadcast)
    requires cfg.Valid() && Leads(cfg, Boot(start), steps, s)
    requires made in s.pending && s.v.phase != Failed && NotifiedOver(cfg, s.v, r, b)
    requires Supervised(b.net) && Smooth(b) && AllWilling(b.net)
    ensures AttemptStep(cfg, s.v, made, r).phase == Running
    ensures LaunchAgreement(cfg, AttemptStep(cfg, s.v, made, r).nodes, b.End()) <==>
      DistinctUrls(s.v.nodes, Called(s.v, r))
  {
    SmoothRoundSucceeds(b);
    NoneRefusing(b);
    assert !Refused(s.v, made) by {
      BootInvariant(cfg, start);
      RunInvariant(cfg, Boot(start), steps, s);
    }
    ReconfigurationAgreement(cfg, start, steps, s, made, r, b);
  }

  lemma {:induction false} StateStays(b: Broadcast, url: Name, k: nat)
    requires b.Valid() && k <= |b.ds| && forall i :: 0 <= i < k ==> b.Target(i).url != url
    requires url in b.net
    ensures url in b.Net(k) && b.Net(k)[url].state == b.net[url].state
    decreases k
  {
    if k > 0 {
      StateStays(b, url, k - 1);
    }
  }

  /** A smooth start round over supervised hosts is accepted by every node exactly when all hosts
      it goes to are in Standby and no two nodes share one. */
  lemma SmoothStartSucceedsExactlyWhen(b: Broadcast, ids: set<Name>)
    requires b.Valid() && Supervised(b.net) && b.kind == StartRound && Smooth(b)
    requires OneEach(b.ds, ids) && ids <= b.nodes.Keys
    ensures b.AllSucceed() <==>
      DistinctUrls(b.nodes, ids) && forall k :: 0 <= k < |b.ds| ==> b.net[b.Target(k).url].state == M.Standby
  {
    if b.AllSucceed() {
      StartSuccessSeparatesUrls(b, ids);
    }
    if DistinctUrls(b.nodes, ids) {
      forall k | 0 <= k < |b.ds|
        ensures b.Succeeds(k) <==> b.net[b.Target(k).url].state == M.Standby
      {
        StartSucceedsWhen(b, ids, k);
      }
    }
  }

  lemma StartSucceedsWhen(b: Broadcast, ids: set<Name>, k: nat)
    requires b.Valid() && Supervised(b.net) && b.kind == StartRound && Smooth(b)
    requires OneEach(b.ds, ids) && DistinctUrls(b.nodes, ids) && k < |b.ds|
    ensures b.Succeeds(k) <==> b.net[b.Target(k).url].state == M.Standby
  {
    var t := b.Target(k);
    forall i | 0 <= i < k
      ensures b.Target(i).url != t.url
    {
      assert b.ds[i].id != b.ds[k].id;
    }
    StateStays(b, t.url, k);
    HostsStaySupervised(b, k);
    var h := b.Net(k)[t.url];
    N.SmoothStartExactlyWhen(h.state, h.agent, S.Env(t.rank, b.worldSize));
  }

  // ----- a shared URL -----

  /** A host that the program was started on. */
  const STARTED := Served(Host(M.Standby, S.IDLE), CommandFor(StartRound, 0, 2), N.SMOOTH).0

  lemma StartedRuns()
    ensures S.Supervised(STARTED.agent) && STARTED.state == M.Running && STARTED.agent.tracked.Some?
  {
    assert N.SMOOTH.tries[0] == M.SMOOTH_TRY;
    ServedObeys(Host(M.Standby, S.IDLE), StartRound, 0, 2, N.SMOOTH);
  }

  function BothBehind(url: Name, nodes: Nodes): Broadcast {
    Broadcast(map[url := STARTED], nodes, RestartRound, 2,
              [Delivery("a", true, N.SMOOTH, true, {}), Delivery("c", true, N.SMOOTH, true, {})])
  }

  lemma BothAccept(nodes: Nodes)
    requires "a" in nodes && "c" in nodes && nodes["a"].url == nodes["c"].url == "u"
    ensures var b := BothBehind("u", nodes); b.Valid() && Supervised(b.net) && b.AllSucceed()
  {
    var b := BothBehind("u", nodes);
    StartedRuns();
    SmoothRestart(b.Net(0)["u"], b.Target(0).rank, 2);
    assert b.Succeeds(0);
    ServedObeys(b.Net(0)["u"], RestartRound, b.Target(0).rank, 2, N.SMOOTH);
    HostsStaySupervised(b, 1);
    assert RunsAs(b.Net(1), b.Target(0), 2);
    SmoothRestart(b.Net(1)["u"], b.Target(1).rank, 2);
    assert b.Succeeds(1);
  }

  lemma PairEach(ds: seq<Delivery>, ids: set<Name>)
    requires |ds| == 2 && ds[0].id != ds[1].id && ids == {ds[0].id, ds[1].id}
    ensures OneEach(ds, ids)
  {
    assert Addressed(ds, ds[0].id) && Addressed(ds, ds[1].id);
  }

  lemma BothNotified(cfg: Config, v: View, r: Round)
    requires ValidRound(cfg, v.nodes, r) && Sufficient(cfg, Promoted(v.nodes, r.promoted))
    requires r.order == ["a", "c"] && r.rejecting == {} && cfg.ActiveNodes() == 2
    requires "a" in v.nodes && "c" in v.nodes && v.nodes["a"].url == v.nodes["c"].url == "u"
    ensures NotifiedOver(cfg, v, r, BothBehind("u", Sent(cfg, v, r).nodes))
    ensures Supervised(BothBehind("u", Sent(cfg, v, r).nodes).net)
    ensures !DistinctUrls(Sent(cfg, v, r).nodes, Sent(cfg, v, r).Actives())
  {
    var w := Sent(cfg, v, r);
    var b := BothBehind("u", w.nodes);
    SentShape(cfg, v, r);
    ListsPair("a", "c");
    BothAccept(w.nodes);
    NoneRefusing(b);
    assert w.Actives() == {"a", "c"};
    PairEach(b.ds, {"a", "c"});
    assert w.nodes["a"].url == w.nodes["c"].url;
  }

  lemma SharedUrlEnds(cfg: Config, steps: seq<Step>, s: System, r: Round, b: Broadcast)
    requires cfg.Valid() && Leads(cfg, Boot(0), steps, s) && 0 in s.pending && s.v.phase == Reconfiguring
    requires NotifiedOver(cfg, s.v, r, b) && Supervised(b.net) && r.rejecting == {}
    requires !DistinctUrls(Sent(cfg, s.v, r).nodes, Sent(cfg, s.v, r).Actives())
    ensures AttemptStep(cfg, s.v, 0, r).phase == Running
    ensures !LaunchAgreement(cfg, AttemptStep(cfg, s.v, 0, r).nodes, b.End())
    ensures b.AllSucceed()
  {
    NoneRefusing(b);
    CalledUrls(cfg, s.v, r);
    ReconfigurationAgreement(cfg, 0, steps, s, 0, r, b);
  }

  /** It happens: a run from an empty server, after which both of the nodes behind one URL
      accept the restart, the server is Running, and nodes and server disagree. */
  lemma SharedUrlBreaksAgreement() returns (steps: seq<Step>, s: System, r: Round, b: Broadcast)
    ensures Leads(Config(3, 1, 10), Boot(0), steps, s) && Enabled(Config(3, 1, 10), s, DoAttempt(s.clock, 0, r))
    ensures NotifiedOver(Config(3, 1, 10), s.v, r, b) && Supervised(b.net) && b.AllSucceed()
    ensures AttemptStep(Config(3, 1, 10), s.v, 0, r).phase == Running
    ensures b.AllStayUp() && !LaunchAgreement(Config(3, 1, 10), AttemptStep(Config(3, 1, 10), s.v, 0, r).nodes, b.End())
  {
    var cfg := Config(3, 1, 10);
    steps, s, r := SharedUrlFromBoot();
    b := BothBehind("u", Sent(cfg, s.v, r).nodes);
    BothNotified(cfg, s.v, r);
    SharedUrlEnds(cfg, steps, s, r, b);
  }
}
