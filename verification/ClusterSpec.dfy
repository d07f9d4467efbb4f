/** What each handler of the C4D server does to the server's state, as functions
    of the state before it and of the choices the code leaves open (map order,
    tie-breaking in sort.Slice, which nodes answer a command with an error). */
module ClusterSpec {
  import opened Collections
  import opened ClusterTypes

  // ----- state.go -----

  /** The transition table without the entries for Failed, which is handled first. */
  predicate Allowed(from: Phase, to: Phase) {
    match from
    case Initializing => to == Running
    case Running => to == Reconfiguring
    case Reconfiguring => to == Running || to == Reconfiguring
    case _ => false
  }

  predicate Accepts(from: Phase, to: Phase) {
    to == Failed || Allowed(from, to)
  }

  function Entered(entered: map<Phase, nat>, to: Phase): map<Phase, nat> {
    entered[to := Times(entered, to) + 1]
  }

  predicate Moves(from: Phase, to: Phase) {
    if to == Failed then from != Failed else Allowed(from, to)
  }

  function MoveTo(v: View, to: Phase): View {
    if Moves(v.phase, to) then
      v.(phase := to, entered := Entered(v.entered, to))
    else v
  }

  // ----- registry updates shared by several handlers -----

  /** The promotion loop: the i-th chosen standby gets rank len(activeNodes) + i while
      activeNodes itself has already grown by i. */
  function Promote(nodes: Nodes, chosen: seq<Name>, a: nat): Nodes
    requires forall x :: x in chosen ==> x in nodes
    ensures Promote(nodes, chosen, a).Keys == nodes.Keys
    decreases |chosen|
  {
    if chosen == [] then nodes
    else
      var i := |chosen| - 1;
      var id := chosen[i];
      var before := Promote(nodes, chosen[..i], a);
      before[id := before[id].(status := Active, rank := (a + i) + i)]
  }

  /** Renumbering: the i-th node of the order gets rank i. */
  function Ranked(nodes: Nodes, order: seq<Name>): Nodes
    requires forall x :: x in order ==> x in nodes
    ensures Ranked(nodes, order).Keys == nodes.Keys
    decreases |order|
  {
    if order == [] then nodes
    else
      var i := |order| - 1;
      var before := Ranked(nodes, order[..i]);
      before[order[i] := before[order[i]].(rank := i)]
  }

  function FailAll(nodes: Nodes, names: set<Name>): Nodes {
    map id | id in nodes :: if id in names then nodes[id].(status := NodeFailed) else nodes[id]
  }

  function UrlsOf(nodes: Nodes, ids: set<Name>): set<Name> {
    set id | id in ids && id in nodes :: nodes[id].url
  }

  // ----- cluster.go: one attempt of reconfigureCluster -----

  function PromoteCount(cfg: Config, nodes: Nodes): nat {
    var needed := cfg.ActiveNodes() - |WithStatus(nodes, Active)|;
    var spare := |WithStatus(nodes, Standby)|;
    if needed > 0 && spare > 0 then (if needed < spare then needed else spare) else 0
  }

  predicate ValidPromotion(cfg: Config, nodes: Nodes, chosen: seq<Name>) {
    && NoDup(chosen)
    && |chosen| == PromoteCount(cfg, nodes)
    && forall x :: x in chosen ==> x in WithStatus(nodes, Standby)
  }

  function Promoted(nodes: Nodes, chosen: seq<Name>): Nodes
    requires forall x :: x in chosen ==> x in nodes
  {
    Promote(nodes, chosen, |WithStatus(nodes, Active)|)
  }

  predicate RankSorted(nodes: Nodes, order: seq<Name>) {
    && (forall x :: x in order ==> x in nodes)
    && forall i, j :: 0 <= i < j < |order| ==> nodes[order[i]].rank <= nodes[order[j]].rank
  }

  predicate Sufficient(cfg: Config, nodes: Nodes) {
    |WithStatus(nodes, Active)| >= cfg.ActiveNodes()
  }

  /** The choices of a round are possible ones: any of the standbys, any sorted order,
      any set of nodes refusing. */
  predicate ValidRound(cfg: Config, nodes: Nodes, r: Round) {
    && ValidPromotion(cfg, nodes, r.promoted)
    && var n1 := Promoted(nodes, r.promoted);
       Sufficient(cfg, n1) ==>
         && NoDup(r.order)
         && Elems(r.order) == WithStatus(n1, Active)
         && RankSorted(n1, r.order)
         && r.rejecting <= WithStatus(n1, Active)
  }

  function ToppedUp(v: View, chosen: seq<Name>): View
    requires forall x :: x in chosen ==> x in v.nodes
  {
    v.(nodes := Promoted(v.nodes, chosen),
       activeCtr := v.activeCtr + |chosen|,
       standbyCtr := v.standbyCtr - |chosen|)
  }

  function AfterPromotion(cfg: Config, v: View, r: Round): View
    requires ValidRound(cfg, v.nodes, r)
  {
    ToppedUp(v, r.promoted)
  }

  /** Fails the named entries; only active ones are counted. */
  function MarkNamed(v: View, names: set<Name>): View {
    var hit := |v.Actives() * names|;
    v.(nodes := FailAll(v.nodes, names), activeCtr := v.activeCtr - hit, failedCtr := v.failedCtr + hit)
  }

  /** Marking after a failed round. The names looked up in the registry are URLs. */
  function MarkRejecting(v: View, rejecting: set<Name>): View {
    MarkNamed(v, UrlsOf(v.nodes, rejecting))
  }

  /** The renumbered registry whose commands a round sends. */
  function Sent(cfg: Config, v: View, r: Round): View
    requires ValidRound(cfg, v.nodes, r)
    requires Sufficient(cfg, Promoted(v.nodes, r.promoted))
  {
    var w := AfterPromotion(cfg, v, r);
    assert forall x :: x in r.order ==> x in Elems(r.order);
    w.(nodes := Ranked(w.nodes, r.order))
  }

  /** How a round ends once its commands are answered. */
  function Conclude(w: View, rejecting: set<Name>): View {
    if rejecting != {} then MarkRejecting(w, rejecting)
    else if w.phase == Reconfiguring then MoveTo(w, Running)
    else w
  }

  predicate Retries(cfg: Config, v: View, r: Round)
    requires ValidRound(cfg, v.nodes, r)
  {
    Sufficient(cfg, Promoted(v.nodes, r.promoted)) && r.rejecting != {}
  }

  function Attempt(cfg: Config, v: View, r: Round): View
    requires ValidRound(cfg, v.nodes, r)
  {
    if !Sufficient(cfg, Promoted(v.nodes, r.promoted)) then
      MoveTo(AfterPromotion(cfg, v, r), Failed)
    else
      Conclude(Sent(cfg, v, r), r.rejecting)
  }

  /** The guard at the top of reconfigureCluster. */
  predicate MayEnter(v: View) {
    v.phase == Reconfiguring || Accepts(v.phase, Reconfiguring)
  }

  function Enter(v: View): View {
    if v.phase == Reconfiguring then v else MoveTo(v, Reconfiguring)
  }

  const MAX_ATTEMPTS: nat := 3

  /** One call that nothing interrupts: views[i] is the state round i starts from. */
  datatype Call = Call(views: seq<View>, rounds: seq<Round>) {
    function Last(): nat
      requires rounds != []
    {
      |rounds| - 1
    }
  }

  predicate IsRound(cfg: Config, v: View, r: Round, w: View) {
    ValidRound(cfg, v.nodes, r) && w == Attempt(cfg, v, r)
  }

  predicate IsRetried(cfg: Config, v: View, r: Round) {
    ValidRound(cfg, v.nodes, r) && Retries(cfg, v, r)
  }

  predicate ValidCall(cfg: Config, v: View, c: Call, w: View) {
    && 1 <= |c.rounds| <= MAX_ATTEMPTS && |c.views| == |c.rounds| + 1
    && c.views[0] == v
    && (forall i :: 0 <= i < |c.rounds| ==> IsRound(cfg, c.views[i], c.rounds[i], c.views[i + 1]))
    && (forall i :: 0 <= i < c.Last() ==> IsRetried(cfg, c.views[i], c.rounds[i]))
    && if IsRetried(cfg, c.views[c.Last()], c.rounds[c.Last()])
       then |c.rounds| == MAX_ATTEMPTS && w == MoveTo(c.views[|c.rounds|], Failed)
       else w == c.views[|c.rounds|]
  }

  // ----- cluster.go: checkAndStartProgram -----

  predicate UrlSorted(nodes: Nodes, order: seq<Name>) {
    && (forall x :: x in order ==> x in nodes)
    && forall i, j :: 0 <= i < j < |order| ==> LexLeq(nodes[order[i]].url, nodes[order[j]].url)
  }

  predicate ValidLaunch(nodes: Nodes, l: Launch) {
    && NoDup(l.order)
    && Elems(l.order) == WithStatus(nodes, Active)
    && UrlSorted(nodes, l.order)
    && l.rejecting <= WithStatus(nodes, Active)
  }

  /** checkAndStartProgram gets as far as sending start commands. */
  predicate Launches(cfg: Config, v: View) {
    v.phase == Initializing && |v.Actives()| >= cfg.ActiveNodes()
  }

  function StartProgram(cfg: Config, v: View, l: Launch): View
    requires Launches(cfg, v) ==> ValidLaunch(v.nodes, l)
  {
    if !Launches(cfg, v) then v
    else
      assert forall x :: x in l.order ==> x in Elems(l.order);
      var w := v.(nodes := Ranked(v.nodes, l.order));
      if l.rejecting == {} then MoveTo(w, Running) else w
  }

  // ----- server.go: Register -----

  predicate AcceptsRegistrations(v: View) {
    v.phase == Initializing || v.phase == Running
  }

  predicate Reconnects(v: View, id: Name) {
    AcceptsRegistrations(v) && id in v.sessions && id in v.nodes
  }

  function Reconnect(v: View, id: Name, url: Name, now: int): View
    requires id in v.sessions && id in v.nodes
  {
    var n := v.nodes[id];
    v.(sessions := v.sessions[id := Session(url, n.status, n.rank, now, v.sessions[id].reconnects + 1, true)],
       health := v.health[id := NodeHealth(now, n.status, 0)])
  }

  /** The role a new node is given, decided by the counters alone. */
  function Role(cfg: Config, v: View): Option<NodeStatus> {
    if v.activeCtr < cfg.ActiveNodes() then Some(Active)
    else if v.standbyCtr < cfg.standby then Some(Standby)
    else None
  }

  /** RegisterSession: a known session keeps its old rank unless the new one is at least 0. */
  function TouchSession(sessions: map<Name, Session>, id: Name, url: Name, st: NodeStatus, rank: int, now: int)
    : map<Name, Session>
  {
    if id in sessions then
      var s := sessions[id];
      sessions[id := Session(url, st, if rank >= 0 then rank else s.rank, now, s.reconnects + 1, true)]
    else
      sessions[id := Session(url, st, rank, now, 0, true)]
  }

  function Admit(v: View, id: Name, url: Name, now: int, st: NodeStatus): View
    requires st != NodeFailed
  {
    var rank := if st == Active then v.activeCtr else -1;
    v.(activeCtr := v.activeCtr + (if st == Active then 1 else 0),
       standbyCtr := v.standbyCtr + (if st == Standby then 1 else 0),
       sessions := TouchSession(v.sessions, id, url, st, rank, now),
       nodes := v.nodes[id := NodeState(url, st, rank)],
       health := v.health[id := NodeHealth(now, st, 0)])
  }

  predicate Admits(cfg: Config, v: View, id: Name) {
    AcceptsRegistrations(v) && !Reconnects(v, id) && Role(cfg, v).Some?
  }

  function Admitted(cfg: Config, v: View, id: Name, url: Name, now: int): View
    requires Admits(cfg, v, id)
  {
    Admit(v, id, url, now, Role(cfg, v).value)
  }

  /** The totalNodes == ExpectedNodes test. */
  predicate Triggers(cfg: Config, w: View) {
    w.phase == Initializing && w.activeCtr + w.standbyCtr == cfg.expected
  }

  predicate ValidRegistration(cfg: Config, v: View, id: Name, url: Name, now: int, l: Launch) {
    Admits(cfg, v, id) ==>
      var w := Admitted(cfg, v, id, url, now);
      Triggers(cfg, w) && Launches(cfg, w) ==> ValidLaunch(w.nodes, l)
  }

  function Register(cfg: Config, v: View, id: Name, url: Name, now: int, l: Launch): View
    requires ValidRegistration(cfg, v, id, url, now, l)
  {
    if Reconnects(v, id) then Reconnect(v, id, url, now)
    else if !Admits(cfg, v, id) then v
    else
      var w := Admitted(cfg, v, id, url, now);
      if Triggers(cfg, w) then StartProgram(cfg, w, l) else w
  }

  // ----- server.go: heartbeats, failures, dead connections -----

  function Heartbeat(v: View, id: Name, now: int): View {
    if id in v.health then v.(health := v.health[id := v.health[id].(last := now)]) else v
  }

  /** handleNodeFailure takes effect. When the entry exists and the transition is refused the
      handler returns with the registry lock held and nothing changed. */
  predicate FailureTaken(v: View, id: Name) {
    id in v.nodes && Accepts(v.phase, Reconfiguring)
  }

  predicate IsLive(v: View, id: Name) {
    id in v.nodes && v.nodes[id].status != NodeFailed
  }

  function Drop(v: View, st: NodeStatus): View {
    match st
    case Active => v.(activeCtr := v.activeCtr - 1)
    case Standby => v.(standbyCtr := v.standbyCtr - 1)
    case NodeFailed => v
  }

  function FailNode(v: View, id: Name): View {
    if !FailureTaken(v, id) then v
    else
      var st := v.nodes[id].status;
      var w := Drop(MoveTo(v, Reconfiguring), st);
      w.(nodes := w.nodes[id := w.nodes[id].(status := NodeFailed)],
         failedCtr := if st == NodeFailed then w.failedCtr else w.failedCtr + 1)
  }

  function MarkHealth(v: View, id: Name): View {
    if id in v.health then v.(health := v.health[id := v.health[id].(status := NodeFailed)]) else v
  }

  /** The acting half of NotifyFailure. */
  function ReportFailure(v: View, id: Name): View {
    if id in v.nodes && !FailureTaken(v, id) then v else MarkHealth(FailNode(v, id), id)
  }

  /** A reconfiguration goroutine is started, or run inline by removeNode. */
  predicate LosesActive(v: View, id: Name) {
    FailureTaken(v, id) && v.nodes[id].status == Active
  }

  function Remove(v: View, id: Name): View {
    if !FailureTaken(v, id) then v
    else
      var w := Drop(MoveTo(v, Reconfiguring), v.nodes[id].status);
      w.(nodes := w.nodes - {id}, health := w.health - {id})
  }

  predicate Expired(h: NodeHealth, now: int, limit: int) {
    now - h.last > limit
  }

  function DeadConnections(cfg: Config, v: View, now: int): set<Name> {
    set id | id in v.health && Expired(v.health[id], now, cfg.timeout * 2)
  }

  function Disconnected(sessions: map<Name, Session>, ids: set<Name>, now: int): map<Name, Session> {
    map id | id in sessions ::
      if id in ids then sessions[id].(connected := false, lastSeen := now) else sessions[id]
  }

  /** One tick of cleanupDeadConnections. */
  function Sweep(cfg: Config, v: View, now: int): View {
    var dead := DeadConnections(cfg, v, now);
    v.(sessions := Disconnected(v.sessions, dead, now),
       activeCtr := v.activeCtr - |v.Actives() * dead|,
       standbyCtr := v.standbyCtr - |v.Standbys() * dead|,
       nodes := v.nodes - dead,
       health := v.health - dead)
  }

  // ----- monitor.go, session.go -----

  function TimedOut(cfg: Config, v: View, now: int): set<Name> {
    set id | id in v.health && id in v.nodes && v.health[id].status != NodeFailed
             && Expired(v.health[id], now, cfg.timeout)
  }

  /** One health tick. Status is overwritten before it is tested, so neither the active nor
      the standby counter moves. */
  function Tick(cfg: Config, v: View, now: int): View {
    var late := TimedOut(cfg, v, now);
    v.(nodes := FailAll(v.nodes, late), failedCtr := v.failedCtr + |late|)
  }

  function CleanSessions(sessions: map<Name, Session>, now: int, limit: int): map<Name, Session> {
    map id | id in sessions && (sessions[id].connected || sessions[id].lastSeen >= now - limit) :: sessions[id]
  }
}
