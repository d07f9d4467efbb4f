/** The node's monitor: its state machine with heartbeat and metrics goroutines, and the
    commands it carries out on the process supervisor beside it. */
module MonitorNode {
  import opened Collections
  import opened Supervisor
  import Latency

  datatype MonitorState = Initializing | Stopped | Running | Standby | Restarting | Failed

  /** Channels are numbered as they are made. closes counts how often each was closed, senders
      holds the stop channel each metrics goroutine was started with, and notices counts the
      failure notifications sent to the server. */
  datatype Mon = Mon(
    state: MonitorState,
    stopChan: nat,
    made: nat,
    closes: multiset<nat>,
    ticker: bool,
    done: Option<nat>,
    senders: multiset<nat>,
    notices: nat)

  const NEW_MONITOR := Mon(Initializing, 0, 1, multiset{}, false, None, multiset{}, 0)

  // ----- setState -----

  function RenewStop(m: Mon): Mon {
    m.(closes := m.closes + multiset{m.stopChan}, stopChan := m.made, made := m.made + 1)
  }

  function StartHeartbeat(m: Mon): Mon {
    if m.ticker then m else m.(ticker := true, done := Some(m.made), made := m.made + 1)
  }

  function StopHeartbeat(m: Mon): Mon {
    if !m.ticker then m
    else m.(ticker := false, done := None,
            closes := match m.done case Some(c) => m.closes + multiset{c} case None => m.closes)
  }

  function SetState(m: Mon, st: MonitorState): Mon {
    var n := m.(state := st);
    match st
    case Running => var k := StartHeartbeat(n); k.(senders := k.senders + multiset{k.stopChan})
    case Standby => StartHeartbeat(if m.state == Running then RenewStop(n) else n)
    case Restarting => StartHeartbeat(RenewStop(n))
    case Failed => StopHeartbeat(n).(notices := n.notices + 1)
    case Initializing => StopHeartbeat(n)
    case Stopped => n
  }

  // ----- handlers as events; the booleans are the answers of the supervisor -----

  datatype RegisterReply = Accepted | Retryable | Fatal

  datatype Event =
    | Startup(replies: seq<RegisterReply>)
    | CommandStart(started: bool)
    | CommandStop(stopped: bool)
    | CommandRestart(stopped: bool, started: bool)
    | PostRestart(restarted: bool)
    | PostActivate(started: bool)
    | PostRemove
    | HeartbeatRefused
    | PollFailed
    | Shutdown
    | Ignored

  const MAX_RETRIES: nat := 10

  /** The registration attempts Start makes, and how they leave lastErr: it is never cleared. */
  function Attempts(replies: seq<RegisterReply>, k: nat): nat
    decreases MAX_RETRIES - k
  {
    if k >= MAX_RETRIES || k >= |replies| then k
    else if replies[k] == Retryable then Attempts(replies, k + 1)
    else k
  }

  function AfterStart(m: Mon, replies: seq<RegisterReply>): Mon {
    var k := Attempts(replies, 0);
    if m.state != Initializing then m
    else if k < |replies| && k < MAX_RETRIES && replies[k] == Fatal then m
    else if k > 0 then SetState(m, Failed)
    else SetState(m, Standby)
  }

  predicate MayStop(st: MonitorState) {
    st == Running || st == Restarting
  }

  predicate MayStart(st: MonitorState) {
    st == Initializing || st == Standby || st == Restarting
  }

  predicate MayRestart(st: MonitorState) {
    st == Running || st == Restarting || st == Standby
  }

  function OnEvent(m: Mon, e: Event): Mon {
    match e
    case Startup(replies) => AfterStart(m, replies)
    case CommandStart(started) =>
      if m.state != Standby then m else SetState(m, if started then Running else Failed)
    case CommandStop(stopped) =>
      if MayStop(m.state) && stopped then SetState(m, Standby) else m
    case CommandRestart(stopped, started) =>
      if !MayRestart(m.state) then m
      else SetState(SetState(m, Restarting), if (m.state == Running ==> stopped) && started then Running else Failed)
    case PostRestart(restarted) =>
      if m.state == Failed then m
      else SetState(SetState(m, Restarting), if restarted then Running else Failed)
    case PostActivate(started) =>
      if m.state != Standby then m else SetState(m, if started then Running else Failed)
    case PostRemove =>
      if m.state == Failed || m.state == Standby then m else SetState(m, Standby)
    case HeartbeatRefused =>
      if m.ticker && m.state != Failed && m.state != Initializing then SetState(m, Failed) else m
    case PollFailed =>
      if m.state == Running && m.senders != multiset{} then SetState(m, Failed) else m
    case Shutdown => SetState(m, Failed)
    case Ignored => m
  }

  function OnEvents(m: Mon, events: seq<Event>): Mon
    decreases |events|
  {
    if events == [] then m else OnEvents(OnEvent(m, events[0]), events[1..])
  }

  // ----- the lifecycle invariant -----

  predicate Beats(st: MonitorState) {
    st == Standby || st == Running || st == Restarting
  }

  /** The heartbeat runs in exactly the states that need it, its ticker and its done channel
      come and go together, no channel is closed twice, at most one metrics goroutine waits on
      a stop channel that is still open, and a failed monitor has told the server so. */
  ghost predicate Lifecycle(m: Mon) {
    && m.state != MonitorState.Stopped
    && (m.ticker <==> m.done.Some?)
    && (m.ticker <==> Beats(m.state))
    && (forall c :: m.closes[c] <= 1)
    && (forall c :: c in m.closes ==> c < m.made)
    && m.stopChan < m.made && m.stopChan !in m.closes
    && (m.done.Some? ==> m.done.value < m.made && m.done.value !in m.closes && m.done.value != m.stopChan)
    && (forall c :: c in m.senders ==> c in m.closes || c == m.stopChan)
    && (m.state == Failed ==> m.notices > 0)
    && m.senders[m.stopChan] <= (if m.state == Running || m.state == Failed then 1 else 0)
  }

  /** A state may be entered: Failed is never left, and Running is not entered twice. */
  predicate MayEnter(m: Mon, st: MonitorState) {
    match st
    case Running => m.state != Running && m.state != Failed
    case Standby => m.state != Failed
    case Restarting => m.state != Failed
    case Failed => true
    case _ => false
  }

  lemma SetStateLifecycle(m: Mon, st: MonitorState)
    requires Lifecycle(m) && MayEnter(m, st)
    ensures Lifecycle(SetState(m, st)) && SetState(m, st).state == st
  {
  }

  lemma RestartLifecycle(m: Mon, st: MonitorState)
    requires Lifecycle(m) && m.state != Failed && (st == Running || st == Failed)
    ensures Lifecycle(SetState(SetState(m, Restarting), st))
  {
    SetStateLifecycle(m, Restarting);
    SetStateLifecycle(SetState(m, Restarting), st);
  }

  lemma CommandLifecycle(m: Mon, e: Event)
    requires Lifecycle(m) && (e.CommandStart? || e.CommandStop? || e.CommandRestart?)
    ensures Lifecycle(OnEvent(m, e))
  {
    match e
    case CommandStart(started) =>
      if m.state == Standby {
        SetStateLifecycle(m, if started then Running else Failed);
      }
    case CommandStop(stopped) =>
      if MayStop(m.state) {
        SetStateLifecycle(m, Standby);
      }
    case CommandRestart(stopped, started) =>
      if MayRestart(m.state) {
        RestartLifecycle(m, if (m.state == Running ==> stopped) && started then Running else Failed);
      }
  }

  lemma PostLifecycle(m: Mon, e: Event)
    requires Lifecycle(m) && (e.PostRestart? || e.PostActivate? || e.PostRemove?)
    ensures Lifecycle(OnEvent(m, e))
  {
    match e
    case PostRestart(restarted) =>
      if m.state != Failed {
        var st := if restarted then Running else Failed;
        RestartLifecycle(m, st);
        assert OnEvent(m, e) == SetState(SetState(m, Restarting), st);
      }
    case PostActivate(started) =>
      if m.state == Standby {
        SetStateLifecycle(m, if started then Running else Failed);
        assert OnEvent(m, e) == SetState(m, if started then Running else Failed);
      }
    case PostRemove =>
      if m.state != Failed && m.state != Standby {
        SetStateLifecycle(m, Standby);
        assert OnEvent(m, e) == SetState(m, Standby);
      }
  }

  lemma StartupLifecycle(m: Mon, replies: seq<RegisterReply>)
    requires Lifecycle(m)
    ensures Lifecycle(AfterStart(m, replies))
  {
    if m.state == Initializing {
      SetStateLifecycle(m, if Attempts(replies, 0) > 0 then Failed else Standby);
    }
  }

  /** Every handler keeps the lifecycle. */
  lemma NextLifecycle(m: Mon, e: Event)
    requires Lifecycle(m)
    ensures Lifecycle(OnEvent(m, e))
  {
    if e.Startup? {
      StartupLifecycle(m, e.replies);
    } else if e.CommandStart? || e.CommandStop? || e.CommandRestart? {
      CommandLifecycle(m, e);
    } else if e.PostRestart? || e.PostActivate? || e.PostRemove? {
      PostLifecycle(m, e);
    } else {
      SetStateLifecycle(m, Failed);
    }
  }

  lemma FailedIsTerminal(m: Mon, e: Event)
    requires m.state == Failed
    ensures OnEvent(m, e).state == Failed
  {
  }

  lemma {:induction false} LifecycleOverEveryRun(m: Mon, events: seq<Event>)
    requires Lifecycle(m)
    ensures Lifecycle(OnEvents(m, events))
    ensures m.state == Failed ==> OnEvents(m, events).state == Failed
    decreases |events|
  {
    if events != [] {
      NextLifecycle(m, events[0]);
      if m.state == Failed {
        FailedIsTerminal(m, events[0]);
      }
      LifecycleOverEveryRun(OnEvent(m, events[0]), events[1..]);
    }
  }

  /** In particular over every run of a new monitor. */
  lemma NewMonitorLifecycle(events: seq<Event>)
    ensures Lifecycle(OnEvents(NEW_MONITOR, events))
  {
    LifecycleOverEveryRun(NEW_MONITOR, events);
  }

  /** Because lastErr survives a later success, Start reaches Standby exactly when the very
      first registration is accepted. */
  lemma StartsExactlyWhenFirstAccepted(replies: seq<RegisterReply>)
    requires |replies| >= MAX_RETRIES
    ensures AfterStart(NEW_MONITOR, replies).state == Standby <==> replies[0] == Accepted
  {
    if replies[0] == Retryable {
      AttemptsGrow(replies, 1);
    }
  }

  lemma {:induction false} AttemptsGrow(replies: seq<RegisterReply>, k: nat)
    ensures Attempts(replies, k) >= k
    decreases MAX_RETRIES - k
  {
    if k < MAX_RETRIES && k < |replies| && replies[k] == Retryable {
      AttemptsGrow(replies, k + 1);
    }
  }

  // ----- commands on the supervisor -----

  datatype Command = StartCommand(env: Env) | StopCommand | RestartCommand(env: Env) | UnknownCommand

  datatype Reply = Ok | BadRequest | ServerError

  datatype AgentResult = Done | InvalidState | AgentError

  /** What the operating system does with a launch when it lets nobody down. */
  type WorkingSpawn = s: Spawn | !s.WaitUnknown? witness SpawnFails

  /** One POST /stop: a shell may exit before it, the request or its answer may be lost, and
      the kill kills. */
  datatype StopCall = StopCall(exits: Option<nat>, lost: bool, waited: Waited, answerLost: bool)

  /** One try of startAgent: POST /start, and the POST /stop that follows when a process is
      already running. */
  datatype Try = Try(exits: Option<nat>, lost: bool, spawn: WorkingSpawn, answerLost: bool, stop: StopCall)

  const MAX_TRIES: nat := 5

  const SMOOTH_STOP := StopCall(None, false, Reaped(None), false)

  /** A launch that meets no trouble. */
  const SMOOTH_TRY := Try(None, false, StaysUp, false, SMOOTH_STOP)

  const SMOOTH_TRIES := [SMOOTH_TRY, SMOOTH_TRY, SMOOTH_TRY, SMOOTH_TRY, SMOOTH_TRY]

  type Tries = s: seq<Try> | |s| == MAX_TRIES witness SMOOTH_TRIES

  /** Everything that is not up to the monitor while it carries out one command. */
  datatype Script = Script(stop: StopCall, tries: Tries)

  function AfterExit(a: Agent, exits: Option<nat>): Agent {
    match exits
    case Some(pid) => Supervisor.Next(a, Step.ProcessExits(pid))
    case None => a
  }

  function CarryStop(a: Agent, c: StopCall): (Agent, bool) {
    var b := AfterExit(a, c.exits);
    if c.lost then (b, false)
    else
      var (d, reply) := OnStop(b, true, c.waited);
      (d, !c.answerLost && (reply == StopReply.Stopped || reply == ForceStopped))
  }

  /** None when startAgent goes on to its next try. */
  function CarryTry(a: Agent, env: Env, t: Try): (Agent, Option<AgentResult>) {
    var b := AfterExit(a, t.exits);
    if t.lost then (b, None)
    else
      var (d, reply) := OnStart(b, env, false, t.spawn);
      if t.answerLost then (d, None)
      else if reply == AlreadyRunning then
        var (e, ok) := CarryStop(d, t.stop);
        (e, if ok then None else Some(AgentError))
      else if reply == Started then (d, Some(Done))
      else (d, None)
  }

  function CarryStart(a: Agent, env: Env, tries: seq<Try>): (Agent, AgentResult)
    decreases |tries|
  {
    if tries == [] then (a, AgentError)
    else
      var (b, r) := CarryTry(a, env, tries[0]);
      match r
      case Some(done) => (b, done)
      case None => CarryStart(b, env, tries[1..])
  }

  /** A restart stops the shell of a running monitor first. */
  function Relaunch(st: MonitorState, a: Agent, env: Env, script: Script): (Agent, AgentResult) {
    if st != Running then CarryStart(a, env, script.tries)
    else
      var (b, ok) := CarryStop(a, script.stop);
      if ok then CarryStart(b, env, script.tries) else (b, AgentError)
  }

  /** What a command does to the monitor's state and to the supervisor, and its answer. */
  function CarryOut(st: MonitorState, a: Agent, cmd: Command, script: Script): (MonitorState, Agent, Reply) {
    match cmd
    case StartCommand(env) =>
      if st != Standby then (st, a, BadRequest) else Launched(CarryStart(a, env, script.tries))
    case StopCommand =>
      if !MayStop(st) then (st, a, ServerError)
      else
        var (b, ok) := CarryStop(a, script.stop);
        if ok then (Standby, b, Ok) else (st, b, ServerError)
    case RestartCommand(env) =>
      if !MayRestart(st) then (st, a, BadRequest) else Launched(Relaunch(st, a, env, script))
    case UnknownCommand => (st, a, BadRequest)
  }

  /** The lifecycle event a command amounts to; its own guards make it nothing when refused. */
  function CommandEvent(cmd: Command, ok: bool): Event {
    match cmd
    case StartCommand(_) => CommandStart(ok)
    case StopCommand => CommandStop(ok)
    case RestartCommand(_) => CommandRestart(ok, ok)
    case UnknownCommand => Ignored
  }

  function Launched(started: (Agent, AgentResult)): (MonitorState, Agent, Reply) {
    if started.1 == Done then (Running, started.0, Ok) else (Failed, started.0, ServerError)
  }

  // ----- what a command's answer proves -----

  /** Exactly one shell is alive, it is tracked, and it was launched with this environment. */
  predicate Holds(a: Agent, env: Env) {
    && TrackedLive(a)
    && a.live == map[a.tracked.value := env]
    && a.last == Some(Execution(a.tracked.value, env, false, None))
  }

  /** The tracked shell was launched with this environment; it may have exited since, and
      nothing else is alive. */
  predicate Keeps(a: Agent, env: Env) {
    && a.tracked.Some? && a.last == Some(Execution(a.tracked.value, env, false, None))
    && forall pid :: pid in a.live ==> pid == a.tracked.value && a.live[pid] == env
  }

  lemma HoldsExactlyWhen(a: Agent, env: Env)
    ensures Holds(a, env) <==> Keeps(a, env) && TrackedLive(a)
  {
    if Keeps(a, env) && TrackedLive(a) {
      assert a.live.Keys == {a.tracked.value};
    }
  }

  lemma ExitKeeps(a: Agent, env: Env)
    requires Keeps(a, env)
    ensures Keeps(AfterExit(a, a.tracked), env) && !TrackedLive(AfterExit(a, a.tracked))
  {
  }

  predicate Empty(a: Agent) {
    a.live == map[] && a.tracked.None?
  }

  /** What the server may conclude from a node's answer to a start or restart command. */
  predicate Obeys(before: MonitorState, cmd: Command, after: MonitorState, agent: Agent, reply: Reply)
    requires cmd.StartCommand? || cmd.RestartCommand?
  {
    && (reply == Ok ==>
          && after == Running && Holds(agent, cmd.env)
          && (if cmd.StartCommand? then before == Standby else MayRestart(before)))
    && (reply == BadRequest ==> after == before)
    && (reply == ServerError ==> after == Failed)
  }

  lemma StartedHolds(a: Agent, env: Env, spawn: Spawn)
    requires Supervised(a) && OnStart(a, env, false, spawn).1 == Started
    ensures Holds(OnStart(a, env, false, spawn).0, env)
  {
    var b := OnStart(a, env, false, spawn).0;
    assert forall pid :: pid in b.live ==> pid == a.spawned by {
      SupervisedExactlyWhen(a, Step.Start(env, false, spawn));
    }
  }

  lemma ExitSupervised(a: Agent, exits: Option<nat>)
    requires Supervised(a)
    ensures Supervised(AfterExit(a, exits))
  {
    if exits.Some? {
      SupervisedExactlyWhen(a, Step.ProcessExits(exits.value));
    }
  }

  lemma StopEmpties(a: Agent, waited: Waited)
    requires Supervised(a)
    ensures Supervised(OnStop(a, true, waited).0) && Empty(OnStop(a, true, waited).0)
  {
    SupervisedExactlyWhen(a, Step.Stop(true, waited));
    var b := OnStop(a, true, waited).0;
    assert forall pid :: pid !in b.live;
  }

  /** A stop that succeeds leaves no shell. */
  lemma CarryStopSupervised(a: Agent, c: StopCall)
    requires Supervised(a)
    ensures Supervised(CarryStop(a, c).0)
    ensures CarryStop(a, c).1 ==> Empty(CarryStop(a, c).0)
  {
    ExitSupervised(a, c.exits);
    StopEmpties(AfterExit(a, c.exits), c.waited);
  }

  lemma CarryTrySupervised(a: Agent, env: Env, t: Try)
    requires Supervised(a)
    ensures Supervised(CarryTry(a, env, t).0)
    ensures CarryTry(a, env, t).1 == Some(Done) ==> Holds(CarryTry(a, env, t).0, env)
    ensures CarryTry(a, env, t).1 != Some(InvalidState)
  {
    ExitSupervised(a, t.exits);
    var b := AfterExit(a, t.exits);
    SupervisedExactlyWhen(b, Step.Start(env, false, t.spawn));
    CarryStopSupervised(OnStart(b, env, false, t.spawn).0, t.stop);
    if OnStart(b, env, false, t.spawn).1 == Started {
      StartedHolds(b, env, t.spawn);
    }
  }

  /** Over a lossy network, with shells exiting on their own, success of startAgent leaves
      exactly one live tracked shell with the requested environment. */
  lemma {:induction false} CarryStartHolds(a: Agent, env: Env, tries: seq<Try>)
    requires Supervised(a)
    ensures Supervised(CarryStart(a, env, tries).0)
    ensures CarryStart(a, env, tries).1 == Done ==> Holds(CarryStart(a, env, tries).0, env)
    ensures CarryStart(a, env, tries).1 != InvalidState
    decreases |tries|
  {
    if tries != [] {
      CarryTrySupervised(a, env, tries[0]);
      CarryStartHolds(CarryTry(a, env, tries[0]).0, env, tries[1..]);
    }
  }

  /** One POST /restart; the tracked shell is killed first, so none can exit in between. */
  datatype RestartCall = RestartCall(lost: bool, waited: Waited, spawn: WorkingSpawn, answerLost: bool)

  function CarryPostRestart(a: Agent, env: Env, c: RestartCall): (Agent, bool) {
    if c.lost then (a, false)
    else
      var (b, reply) := OnStart(OnStop(a, true, c.waited).0, env, false, c.spawn);
      (b, !c.answerLost && (reply == Started || reply == Exited))
  }

  /** Success of POST /restart: the shell asked for, or none when it ended at once. */
  lemma PostRestartHolds(a: Agent, env: Env, c: RestartCall)
    requires Supervised(a)
    ensures Supervised(CarryPostRestart(a, env, c).0)
    ensures CarryPostRestart(a, env, c).1 ==>
      Holds(CarryPostRestart(a, env, c).0, env) || Empty(CarryPostRestart(a, env, c).0)
  {
    StopEmpties(a, c.waited);
    var b := OnStop(a, true, c.waited).0;
    SupervisedExactlyWhen(b, Step.Start(env, false, c.spawn));
    if OnStart(b, env, false, c.spawn).1 == Started {
      StartedHolds(b, env, c.spawn);
    }
  }

  /** From supervised shells a command leads to supervised shells. OK to a start or restart
      means Running with the one shell asked for, OK to a stop means Standby with none. */
  lemma CommandObeys(st: MonitorState, a: Agent, cmd: Command, script: Script)
    requires Supervised(a)
    ensures Supervised(CarryOut(st, a, cmd, script).1)
    ensures cmd.StartCommand? || cmd.RestartCommand? ==>
      var (after, b, reply) := CarryOut(st, a, cmd, script); Obeys(st, cmd, after, b, reply)
    ensures cmd.StopCommand? ==>
      var (after, b, reply) := CarryOut(st, a, cmd, script);
      reply == Ok ==> MayStop(st) && after == Standby && Empty(b)
  {
    CarryStopSupervised(a, script.stop);
    if cmd.StartCommand? {
      CarryStartHolds(a, cmd.env, script.tries);
    } else if cmd.RestartCommand? {
      CarryStartHolds(if st == Running then CarryStop(a, script.stop).0 else a, cmd.env, script.tries);
    }
  }

  class Monitor {
    var state: MonitorState
    var stopChan: nat
    var made: nat
    var closes: multiset<nat>
    var heartbeatTicker: bool
    var heartbeatDone: Option<nat>
    var senders: multiset<nat>
    var notices: nat
    var rank: int
    var worldSize: int
    const latency: Latency.LatencyWindows
    const agent: AppState

    constructor (rank: int, worldSize: int)
      ensures Snapshot() == NEW_MONITOR && agent.Snapshot() == IDLE && fresh(agent) && fresh(latency)
    {
      this.rank, this.worldSize := rank, worldSize;
      state, stopChan, made, closes := Initializing, 0, 1, multiset{};
      heartbeatTicker, heartbeatDone, senders, notices := false, None, multiset{}, 0;
      latency := new Latency.LatencyWindows();
      agent := new AppState();
    }

    function Snapshot(): Mon
      reads this
    {
      Mon(state, stopChan, made, closes, heartbeatTicker, heartbeatDone, senders, notices)
    }

    method CloseStopChan()
      modifies this`stopChan, this`made, this`closes
      ensures Snapshot() == RenewStop(old(Snapshot()))
    {
      closes := closes + multiset{stopChan};
      stopChan := made;
      made := made + 1;
    }

    method Renew(stop: bool)
      modifies this`stopChan, this`made, this`closes, this`heartbeatTicker, this`heartbeatDone
      ensures Snapshot() == StartHeartbeat(if stop then RenewStop(old(Snapshot())) else old(Snapshot()))
    {
      if stop {
        CloseStopChan();
      }
      StartHeartbeatLoop();
    }

    method StartHeartbeatLoop()
      modifies this`heartbeatTicker, this`heartbeatDone, this`made
      ensures Snapshot() == StartHeartbeat(old(Snapshot()))
    {
      if heartbeatTicker {
        return;
      }
      heartbeatTicker := true;
      heartbeatDone := Some(made);
      made := made + 1;
    }

    method StopHeartbeatLoop()
      modifies this`heartbeatTicker, this`heartbeatDone, this`closes
      ensures Snapshot() == StopHeartbeat(old(Snapshot()))
    {
      if heartbeatTicker {
        heartbeatTicker := false;
        if heartbeatDone.Some? {
          closes := closes + multiset{heartbeatDone.value};
        }
        heartbeatDone := None;
      }
    }

    method ChangeState(st: MonitorState)
      modifies this`state, this`stopChan, this`made, this`closes,
               this`heartbeatTicker, this`heartbeatDone, this`senders, this`notices, latency
      ensures Snapshot() == SetState(old(Snapshot()), st)
      ensures latency.latencyWindow == if st == Restarting then map[] else old(latency.latencyWindow)
    {
      if st == Restarting {
        latency.Clear();
      }
      Switch(st);
    }

    /** The part of setState that concerns the monitor's own fields. */
    method Switch(st: MonitorState)
      modifies this`state, this`stopChan, this`made, this`closes,
               this`heartbeatTicker, this`heartbeatDone, this`senders, this`notices
      ensures Snapshot() == SetState(old(Snapshot()), st)
    {
      var oldState := state;
      state := st;
      match st {
        case Running =>
          StartHeartbeatLoop();
          senders := senders + multiset{stopChan};
        case Standby =>
          Renew(oldState == Running);
        case Restarting =>
          Renew(true);
        case Failed =>
          StopHeartbeatLoop();
          notices := notices + 1;
        case Initializing =>
          StopHeartbeatLoop();
        case Stopped =>
      }
    }

    /** Start, against the answers the server would give to ten registrations. */
    method Start(replies: seq<RegisterReply>) returns (ok: bool)
      requires |replies| >= MAX_RETRIES
      modifies this`state, this`stopChan, this`made, this`closes,
               this`heartbeatTicker, this`heartbeatDone, this`senders, this`notices, latency
      ensures Snapshot() == OnEvent(old(Snapshot()), Startup(replies))
      ensures ok <==> old(state) == Initializing && replies[0] == Accepted
    {
      if state != Initializing {
        return false;
      }
      var lastErr := false;
      var retries := 0;
      while retries < MAX_RETRIES
        invariant 0 <= retries <= MAX_RETRIES
        invariant Snapshot() == old(Snapshot())
        invariant Attempts(replies, 0) == Attempts(replies, retries)
        invariant lastErr <==> retries > 0
        invariant retries > 0 ==> replies[0] == Retryable
      {
        if replies[retries] != Accepted {
          lastErr := true;
          if replies[retries] == Retryable {
            retries := retries + 1;
            continue;
          }
          return false;
        }
        break;
      }
      if lastErr {
        ChangeState(Failed);
        return false;
      }
      ChangeState(Standby);
      return true;
    }

    /** startAgent: at most five tries. */
    method StartAgent(env: Env, tries: Tries) returns (r: AgentResult)
      modifies agent
      ensures !MayStart(state) ==> r == InvalidState && agent.Snapshot() == old(agent.Snapshot())
      ensures MayStart(state) ==> (agent.Snapshot(), r) == CarryStart(old(agent.Snapshot()), env, tries)
      ensures Supervised(old(agent.Snapshot())) && r == Done ==> Holds(agent.Snapshot(), env)
    {
      if !MayStart(state) {
        return InvalidState;
      }
      ghost var a := agent.Snapshot();
      assert Supervised(a) && CarryStart(a, env, tries).1 == Done ==> Holds(CarryStart(a, env, tries).0, env) by {
        if Supervised(a) {
          CarryStartHolds(a, env, tries);
        }
      }
      for k := 0 to MAX_TRIES
        invariant CarryStart(a, env, tries) == CarryStart(agent.Snapshot(), env, tries[k..])
      {
        var t := tries[k];
        assert tries[k..][0] == t && tries[k..][1..] == tries[k + 1..];
        Exit(t.exits);
        if t.lost {
          continue;
        }
        var reply := agent.StartScript(env, false, t.spawn);
        if t.answerLost {
          continue;
        }
        if reply == AlreadyRunning {
          var stopped := PostStop(t.stop);
          if !stopped {
            return AgentError;
          }
          continue;
        }
        if reply != Started {
          continue;
        }
        return Done;
      }
      return AgentError;
    }

    /** A shell may end by itself between two calls. */
    method Exit(exits: Option<nat>)
      modifies agent
      ensures agent.Snapshot() == AfterExit(old(agent.Snapshot()), exits)
    {
      if exits.Some? {
        agent.ProcessExits(exits.value);
      }
    }

    method PostStop(c: StopCall) returns (ok: bool)
      modifies agent
      ensures (agent.Snapshot(), ok) == CarryStop(old(agent.Snapshot()), c)
    {
      Exit(c.exits);
      if c.lost {
        return false;
      }
      var reply := agent.StopScript(true, c.waited);
      return !c.answerLost && (reply == StopReply.Stopped || reply == ForceStopped);
    }

    /** stopAgent: success leaves no shell behind. */
    method StopAgent(c: StopCall) returns (r: AgentResult)
      modifies agent
      ensures r == InvalidState <==> !MayStop(state)
      ensures r == InvalidState ==> agent.Snapshot() == old(agent.Snapshot())
      ensures MayStop(state) ==> (agent.Snapshot(), r == Done) == CarryStop(old(agent.Snapshot()), c)
      ensures Supervised(old(agent.Snapshot())) && r == Done ==> Empty(agent.Snapshot())
    {
      if !MayStop(state) {
        return InvalidState;
      }
      ghost var a := agent.Snapshot();
      assert Supervised(a) && CarryStop(a, c).1 ==> Empty(CarryStop(a, c).0) by {
        if Supervised(a) {
          CarryStopSupervised(a, c);
        }
      }
      var ok := PostStop(c);
      return if ok then Done else AgentError;
    }

    /** handleCommand. The guards of startAgent and stopAgent never fire on the way of a start
        or restart command. A body that cannot be parsed is answered like an unknown command. */
    method HandleCommand(cmd: Command, script: Script) returns (reply: Reply)
      modifies this, latency, agent
      ensures (state, agent.Snapshot(), reply) == CarryOut(old(state), old(agent.Snapshot()), cmd, script)
      ensures Snapshot() == OnEvent(old(Snapshot()), CommandEvent(cmd, reply == Ok))
    {
      match cmd {
        case StartCommand(env) =>
          if state != Standby {
            return BadRequest;
          }
          var r := StartAgent(env, script.tries);
          reply := FinishStart(r == Done);
        case StopCommand =>
          var r := StopAgent(script.stop);
          if r != Done {
            return ServerError;
          }
          ChangeState(Standby);
          return Ok;
        case RestartCommand(env) =>
          reply := CarryRestart(env, script);
        case UnknownCommand =>
          return BadRequest;
      }
    }

    /** The end of a start: Running, or Failed when the supervisor did not start the shell. */
    method FinishStart(started: bool) returns (reply: Reply)
      modifies this`state, this`stopChan, this`made, this`closes,
               this`heartbeatTicker, this`heartbeatDone, this`senders, this`notices, latency
      ensures Snapshot() == SetState(old(Snapshot()), if started then Running else Failed)
      ensures reply == if started then Ok else ServerError
    {
      ChangeState(if started then Running else Failed);
      return if started then Ok else ServerError;
    }

    /** The restart branch of handleCommand. */
    method CarryRestart(env: Env, script: Script) returns (reply: Reply)
      modifies this, latency, agent
      ensures (state, agent.Snapshot(), reply) ==
        CarryOut(old(state), old(agent.Snapshot()), RestartCommand(env), script)
      ensures Snapshot() == OnEvent(old(Snapshot()), CommandEvent(RestartCommand(env), reply == Ok))
    {
      var current := state;
      if !MayRestart(current) {
        return BadRequest;
      }
      var ok := RestartFrom(current, env, script);
      return if ok then Ok else ServerError;
    }

    /** The restart proper: through Restarting to Running or Failed. */
    method RestartFrom(current: MonitorState, env: Env, script: Script) returns (ok: bool)
      modifies this, latency, agent
      ensures agent.Snapshot() == Relaunch(current, old(agent.Snapshot()), env, script).0
      ensures ok <==> Relaunch(current, old(agent.Snapshot()), env, script).1 == Done
      ensures Snapshot() == SetState(SetState(old(Snapshot()), Restarting), if ok then Running else Failed)
    {
      ChangeState(Restarting);
      ok := RelaunchAgent(current, env, script);
      var _ := FinishStart(ok);
    }

    /** The guards of stopAgent and startAgent never fire here. */
    method RelaunchAgent(current: MonitorState, env: Env, script: Script) returns (ok: bool)
      requires state == Restarting
      modifies agent
      ensures agent.Snapshot() == Relaunch(current, old(agent.Snapshot()), env, script).0
      ensures ok <==> Relaunch(current, old(agent.Snapshot()), env, script).1 == Done
    {
      if current == Running {
        var s := StopAgent(script.stop);
        assert s != InvalidState;
        if s != Done {
          return false;
        }
      }
      var r := StartAgent(env, script.tries);
      return r == Done;
    }

    /** handleRestart: rank and world size change before the supervisor is asked. A success
        answer only says that the supervisor did not report an error; config is None when the
        body cannot be parsed. */
    method HandleRestart(config: Option<Env>, c: RestartCall) returns (reply: Reply)
      modifies this, latency, agent
      ensures old(state) == Failed || config.None? ==>
        && Snapshot() == old(Snapshot()) && agent.Snapshot() == old(agent.Snapshot())
        && rank == old(rank) && worldSize == old(worldSize)
        && reply == if old(state) == Failed then ServerError else BadRequest
      ensures old(state) != Failed && config.Some? ==>
        && (agent.Snapshot(), reply == Ok) == CarryPostRestart(old(agent.Snapshot()), config.value, c)
        && rank == config.value.rank && worldSize == config.value.worldSize
        && Snapshot() == OnEvent(old(Snapshot()), PostRestart(reply == Ok))
        && state == (if reply == Ok then Running else Failed) && reply != BadRequest
      ensures Supervised(old(agent.Snapshot())) && reply == Ok ==>
        Holds(agent.Snapshot(), Env(rank, worldSize)) || Empty(agent.Snapshot())
    {
      if state == Failed {
        return ServerError;
      }
      if config.None? {
        return BadRequest;
      }
      reply := ApplyRestart(config.value, c);
    }

    method ApplyRestart(config: Env, c: RestartCall) returns (reply: Reply)
      modifies this, latency, agent
      ensures (agent.Snapshot(), reply == Ok) == CarryPostRestart(old(agent.Snapshot()), config, c)
      ensures rank == config.rank && worldSize == config.worldSize && reply != BadRequest
      ensures Snapshot() == SetState(SetState(old(Snapshot()), Restarting), if reply == Ok then Running else Failed)
      ensures Supervised(old(agent.Snapshot())) && reply == Ok ==>
        Holds(agent.Snapshot(), config) || Empty(agent.Snapshot())
    {
      ghost var a := agent.Snapshot();
      assert Supervised(a) && CarryPostRestart(a, config, c).1 ==>
        Holds(CarryPostRestart(a, config, c).0, config) || Empty(CarryPostRestart(a, config, c).0)
      by {
        if Supervised(a) {
          PostRestartHolds(a, config, c);
        }
      }
      ChangeState(Restarting);
      rank, worldSize := config.rank, config.worldSize;
      assert agent.Snapshot() == a;
      var ok := PostRestartCall(config, c);
      reply := FinishStart(ok);
    }

    method PostRestartCall(env: Env, c: RestartCall) returns (ok: bool)
      modifies agent
      ensures (agent.Snapshot(), ok) == CarryPostRestart(old(agent.Snapshot()), env, c)
    {
      if c.lost {
        return false;
      }
      var reply := agent.RestartScript(env, true, c.waited, false, c.spawn);
      return !c.answerLost && (reply == Started || reply == Exited);
    }

    /** handleActivate: from Standby only, with the monitor's own rank and world size. */
    method HandleActivate(tries: Tries) returns (reply: Reply)
      modifies this, latency, agent
      ensures rank == old(rank) && worldSize == old(worldSize)
      ensures reply == BadRequest <==> old(state) != Standby
      ensures reply == BadRequest ==> agent.Snapshot() == old(agent.Snapshot())
      ensures reply != BadRequest ==>
        (state, agent.Snapshot(), reply) == Launched(CarryStart(old(agent.Snapshot()), Env(rank, worldSize), tries))
      ensures Snapshot() == OnEvent(old(Snapshot()), PostActivate(reply == Ok))
      ensures Supervised(old(agent.Snapshot())) && reply == Ok ==> Holds(agent.Snapshot(), Env(rank, worldSize))
    {
      if state != Standby {
        return BadRequest;
      }
      var r := StartAgent(Env(rank, worldSize), tries);
      reply := FinishStart(r == Done);
    }

    /** handleRemove: a failing stop is only logged. */
    method HandleRemove(c: StopCall) returns (reply: Reply)
      modifies this, latency, agent
      ensures reply == if old(state) == Failed || old(state) == Standby then BadRequest else Ok
      ensures reply == Ok ==> state == Standby
      ensures agent.Snapshot() ==
        if MayStop(old(state)) then CarryStop(old(agent.Snapshot()), c).0 else old(agent.Snapshot())
      ensures Snapshot() == OnEvent(old(Snapshot()), PostRemove)
    {
      if state == Failed || state == Standby {
        return BadRequest;
      }
      var _ := StopAgent(c);
      ChangeState(Standby);
      return Ok;
    }
  }
}
